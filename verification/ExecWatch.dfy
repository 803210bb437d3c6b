/** internal/agent/exec/exec.go: `run`, its waiter goroutine and the watcher that
    bounds it.  Timers may fire at any time once armed, the caller's context may
    end at any time, and the waiter may never return.
  */
module ExecWatch {
  import opened Optional
  import opened GroupPin

  datatype Main =
    | Selecting                       // select on waited and abandon
    | Stopping(stalled: bool)         // about to close done
    | Joining(stalled: bool)          // <-watcher.finished
    | Returned(result: RunResult)
  {
    function Left(): nat {
      match this
      case Selecting => 3 case Stopping(_) => 2 case Joining(_) => 1 case Returned(_) => 0
    }
  }

  datatype RunResult =
    | Ended(timedOut: bool, cancelled: bool)
    | Stalled(timedOut: bool, cancelled: bool)
    | FailedToRun

  datatype Watcher = Armed | Guard | SendTerm | Grace | SendKill | Drain | Leaving | Gone {
    function Left(): nat {
      match this
      case Armed => 7 case Guard => 6 case SendTerm => 5 case Grace => 4
      case SendKill => 3 case Drain => 2 case Leaving => 1 case Gone => 0
    }
  }

  datatype State = State(
    main: Main,
    watcher: Watcher,
    ctxDone: bool,
    released: bool,              // the waiter's collection has marked the group
    waited: Option<bool>,        // what Wait sent: whether there is a ProcessState
    done: bool,
    abandon: bool,
    finished: bool,
    closed: bool,                // run's deferred group.Close()
    timedOut: bool,
    cancelled: bool,
    term: Option<Result>,        // what became of the watcher's signals
    kill: Option<Result>)

  datatype Step =
    // the world
    | CtxEnds | Released | WaitReturns(hasState: bool)
    // the watcher
    | SeesDone | TimerFires | SeesCtx | GuardPasses
    | Term(answer: Result) | Kill(answer: Result)
    | GraceEnds | DrainEnds | Finish
    // run
    | TakeWaited | TakeAbandon | StopWatching | Join
  {
    /** A step the handler itself can take, with no help from the command, the
        waiter or the caller. */
    predicate Own() { !CtxEnds? && !Released? && !WaitReturns? }

    /** A step of run itself. */
    predicate Mains() { TakeWaited? || TakeAbandon? || StopWatching? || Join? }
  }

  /** The answer a signal gets: refused as released exactly when the collection
      has been marked, refused as closed exactly after Close. */
  predicate Answers(s: State, r: Result) {
    (r.ErrGroupClosed? <==> s.closed) && (r.ErrGroupReleased? <==> s.released && !s.closed)
  }

  predicate Enabled(s: State, step: Step) {
    match step
    case CtxEnds => !s.ctxDone
    case Released => !s.released
    case WaitReturns(_) => s.released && s.waited.None?
    case SeesDone => s.done && (s.watcher.Armed? || s.watcher.Guard? || s.watcher.Grace? || s.watcher.Drain?)
    case TimerFires => s.watcher.Armed?
    case SeesCtx => s.watcher.Armed? && s.ctxDone
    case GuardPasses => s.watcher.Guard? && !s.done
    case Term(r) => s.watcher.SendTerm? && Answers(s, r)
    case GraceEnds => s.watcher.Grace?
    case Kill(r) => s.watcher.SendKill? && Answers(s, r)
    case DrainEnds => s.watcher.Drain?
    case Finish => s.watcher.Leaving?
    case TakeWaited => s.main.Selecting? && s.waited.Some?
    case TakeAbandon => s.main.Selecting? && s.abandon
    case StopWatching => s.main.Stopping?
    case Join => s.main.Joining? && s.finished
  }

  function Apply(s: State, step: Step): State
    requires Enabled(s, step)
  {
    match step
    case CtxEnds => s.(ctxDone := true)
    case Released => s.(released := true)
    case WaitReturns(h) => s.(waited := Some(h))
    case SeesDone =>
      if s.watcher.Guard? then s.(watcher := Leaving, timedOut := false, cancelled := false)
      else s.(watcher := Leaving)
    case TimerFires => s.(watcher := Guard, timedOut := true)
    case SeesCtx => s.(watcher := Guard, cancelled := true)
    case GuardPasses => s.(watcher := SendTerm)
    case Term(r) =>
      if SignalTree(r) then s.(watcher := Drain, timedOut := false, cancelled := false, term := Some(r))
      else s.(watcher := Grace, term := Some(r))
    case GraceEnds => s.(watcher := SendKill)
    case Kill(r) => s.(watcher := Drain, kill := Some(r))
    case DrainEnds => s.(watcher := Leaving, abandon := true)
    case Finish => s.(watcher := Gone, finished := true)
    case TakeWaited => s.(main := Stopping(false))
    case TakeAbandon => s.(main := Stopping(true))
    case StopWatching => s.(main := Joining(s.main.stalled), done := true)
    case Join => s.(main := Returned(ResultOf(s)), closed := true)
  }

  /** signalTree's answer: whether the group refused as released. */
  predicate SignalTree(r: Result) { r.ErrGroupReleased? }

  function ResultOf(s: State): RunResult
    requires s.main.Joining?
  {
    if s.main.stalled then Stalled(s.timedOut, s.cancelled)
    else if s.waited.Some? && s.waited.value then Ended(s.timedOut, s.cancelled)
    else FailedToRun
  }

  datatype Audit = TimedOut | Cancelled | OK

  function AuditOutcome(timedOut: bool, cancelled: bool): Audit {
    if timedOut then TimedOut else if cancelled then Cancelled else OK
  }

  ghost predicate Init(s: State) {
    s == State(Selecting, Armed, s.ctxDone, false, None, false, false, false, false, false, false, None, None)
  }

  ghost predicate Run(states: seq<State>, steps: seq<Step>) {
    && |states| == |steps| + 1
    && Init(states[0])
    && forall i :: 0 <= i < |steps| ==> Follows(states, steps, i)
  }

  predicate Follows(states: seq<State>, steps: seq<Step>, i: nat)
    requires i < |steps| && |states| == |steps| + 1
  {
    Enabled(states[i], steps[i]) && states[i + 1] == Apply(states[i], steps[i])
  }

  /** A TERM that went out and was not refused because the command had already
      been collected. */
  predicate Terminated(s: State) { s.term.Some? && !SignalTree(s.term.value) }

  /** The sequence that ends in a kill was carried out, or there was nothing left
      to kill. */
  predicate KillSequenceOver(s: State) {
    s.term.Some? && (s.kill.Some? || SignalTree(s.term.value))
  }

  /** How the flags follow the two machines. */
  predicate FlagsOk(s: State) {
    && !(s.timedOut && s.cancelled)
    && (s.done <==> s.main.Joining? || s.main.Returned?)
    && (s.finished <==> s.watcher.Gone?)
    && (s.closed <==> s.main.Returned?)
    && (s.waited.Some? ==> s.released)
  }

  /** Where the kill sequence stands. */
  predicate WatcherOk(s: State) {
    match s.watcher
    case Armed => !s.timedOut && !s.cancelled && s.term.None? && s.kill.None? && !s.abandon
    case Guard => (s.timedOut || s.cancelled) && s.term.None? && s.kill.None? && !s.abandon
    case SendTerm => (s.timedOut || s.cancelled) && s.term.None? && s.kill.None? && !s.abandon
    case Grace => (s.timedOut || s.cancelled) && Terminated(s) && s.kill.None? && !s.abandon
    case SendKill => (s.timedOut || s.cancelled) && Terminated(s) && s.kill.None? && !s.abandon
    case Drain => (s.timedOut || s.cancelled <==> Terminated(s)) && KillSequenceOver(s) && !s.abandon
    case _ => && (s.timedOut || s.cancelled <==> Terminated(s))
              && (s.abandon || s.done) && (s.abandon ==> KillSequenceOver(s))
  }

  /** What the signals were told. */
  predicate SignalsOk(s: State) {
    && (s.term.Some? && s.term.value.ErrGroupReleased? ==> s.released)
    && (s.kill.Some? ==> Terminated(s))
    && (s.term.Some? ==> !s.term.value.ErrGroupClosed?)
    && (s.kill.Some? ==> !s.kill.value.ErrGroupClosed?)
  }

  predicate MainOk(s: State) {
    && (s.main.Returned? ==> s.finished)
    && (s.main.Stopping? || s.main.Joining? ==> if s.main.stalled then s.abandon else s.waited.Some?)
    && (match s.main
        case Returned(Stalled(t, c)) => s.abandon && t == s.timedOut && c == s.cancelled
        case Returned(Ended(t, c)) => s.waited == Some(true) && t == s.timedOut && c == s.cancelled
        case Returned(FailedToRun) => s.waited == Some(false)
        case _ => true)
  }

  predicate Inv(s: State) { FlagsOk(s) && WatcherOk(s) && SignalsOk(s) && MainOk(s) }

  lemma WorldKeepsInv(s: State, step: Step)
    requires Inv(s) && Enabled(s, step) && !step.Own()
    ensures Inv(Apply(s, step))
  {
  }

  lemma MainKeepsInv(s: State, step: Step)
    requires Inv(s) && Enabled(s, step) && step.Mains()
    ensures Inv(Apply(s, step))
  {
    var s' := Apply(s, step);
    assert s'.watcher == s.watcher && s'.term == s.term && s'.kill == s.kill && s'.abandon == s.abandon;
  }

  /** The watcher's own steps, by what they may change. */
  lemma WatcherKeepsFlags(s: State, step: Step)
    requires Inv(s) && Enabled(s, step) && step.Own() && !step.Mains()
    ensures FlagsOk(Apply(s, step)) && SignalsOk(Apply(s, step))
  {
  }

  lemma WatcherKeepsWatcher(s: State, step: Step)
    requires Inv(s) && Enabled(s, step) && step.Own() && !step.Mains()
    ensures WatcherOk(Apply(s, step))
  {
  }

  lemma WatcherKeepsMain(s: State, step: Step)
    requires Inv(s) && Enabled(s, step) && step.Own() && !step.Mains()
    ensures MainOk(Apply(s, step))
  {
    assert !s.finished;
  }

  lemma StepKeepsInv(s: State, step: Step)
    requires Inv(s) && Enabled(s, step)
    ensures Inv(Apply(s, step))
  {
    if step.Mains() {
      MainKeepsInv(s, step);
    } else if step.Own() {
      WatcherKeepsFlags(s, step);
      WatcherKeepsWatcher(s, step);
      WatcherKeepsMain(s, step);
    } else {
      WorldKeepsInv(s, step);
    }
  }

  lemma {:induction false} RunKeepsInv(states: seq<State>, steps: seq<Step>, i: nat)
    requires Run(states, steps) && i <= |steps|
    ensures Inv(states[i])
  {
    if i == 0 {
      assert Init(states[0]);
    } else {
      assert Follows(states, steps, i - 1);
      RunKeepsInv(states, steps, i - 1);
      StepKeepsInv(states[i - 1], steps[i - 1]);
    }
  }

  // -------------------------------------------------------- termination

  function Pending(happened: bool): nat { if happened then 0 else 1 }

  /** Steps the call has left, whoever takes them. */
  function Left(s: State): nat {
    s.main.Left() + s.watcher.Left() + Pending(s.ctxDone) + Pending(s.released) + Pending(s.waited.Some?)
  }

  predicate MainOnly(s: State, s': State) {
    s'.watcher == s.watcher && s'.ctxDone == s.ctxDone && s'.released == s.released && s'.waited == s.waited
  }

  predicate WatcherOnly(s: State, s': State) {
    s'.main == s.main && s'.ctxDone == s.ctxDone && s'.released == s.released && s'.waited == s.waited
  }

  lemma MainStepUsesOne(s: State, step: Step)
    requires Enabled(s, step) && step.Mains()
    ensures Apply(s, step).main.Left() < s.main.Left() && MainOnly(s, Apply(s, step))
  {
    match step
    case TakeWaited =>
    case TakeAbandon =>
    case StopWatching =>
    case Join =>
  }

  lemma WatcherStepFrame(s: State, step: Step)
    requires Enabled(s, step) && step.Own()
    requires !step.Mains()
    ensures WatcherOnly(s, Apply(s, step))
  {
    match step
    case SeesDone =>
    case TimerFires =>
    case SeesCtx =>
    case GuardPasses =>
    case Term(_) =>
    case Kill(_) =>
    case GraceEnds =>
    case DrainEnds =>
    case Finish =>
  }

  /** Where the watcher goes next. */
  function NextWatcher(s: State, step: Step): Watcher {
    match step
    case SeesDone => Leaving
    case TimerFires => Guard
    case SeesCtx => Guard
    case GuardPasses => SendTerm
    case Term(r) => if SignalTree(r) then Drain else Grace
    case GraceEnds => SendKill
    case Kill(_) => Drain
    case DrainEnds => Leaving
    case Finish => Gone
    case _ => s.watcher
  }

  lemma WatcherStepGoes(s: State, step: Step)
    requires Enabled(s, step)
    ensures Apply(s, step).watcher == NextWatcher(s, step)
  {
  }

  lemma WatcherStepUsesOne(s: State, step: Step)
    requires Enabled(s, step) && step.Own()
    requires !step.Mains()
    ensures Apply(s, step).watcher.Left() < s.watcher.Left()
  {
    WatcherStepGoes(s, step);
    assert NextWatcher(s, step).Left() < s.watcher.Left();
  }

  lemma StepUsesOne(s: State, step: Step)
    requires Enabled(s, step)
    ensures Left(Apply(s, step)) < Left(s)
  {
    if step.Mains() {
      MainStepUsesOne(s, step);
    } else if step.Own() {
      WatcherStepFrame(s, step);
      WatcherStepUsesOne(s, step);
    } else {
      var s' := Apply(s, step);
      assert s'.main == s.main && s'.watcher == s.watcher;
    }
  }

  lemma ScheduleStartsWithin(s: State)
    requires Init(s)
    ensures Left(s) <= 13
  {
    assert s.main.Left() == 3 && s.watcher.Left() == 7;
  }

  /** Every schedule of the call is finite, and this short. */
  lemma {:induction false} EveryScheduleEnds(states: seq<State>, steps: seq<Step>, i: nat)
    requires Run(states, steps) && i <= |steps|
    ensures Left(states[i]) + i <= 13
    ensures i <= 13
  {
    if i == 0 {
      ScheduleStartsWithin(states[0]);
    } else {
      EveryScheduleEnds(states, steps, i - 1);
      assert Follows(states, steps, i - 1);
      StepUsesOne(states[i - 1], steps[i - 1]);
    }
  }

  /** No case of the watcher's select is ever out of reach: it sees its timer, the end of
      the caller's context, and the end of the command. */
  lemma WatcherSeesAll(s: State)
    requires s.watcher.Armed?
    ensures Enabled(s, TimerFires) && Apply(s, TimerFires).watcher.Guard?
    ensures s.ctxDone ==> Enabled(s, SeesCtx) && Apply(s, SeesCtx).watcher.Guard?
    ensures s.done ==> Enabled(s, SeesDone) && Apply(s, SeesDone).watcher.Leaving?
  {
  }

  /** A call whose caller has gone is cancelled with a TERM, and a KILL after the grace,
      unless the command ends first: these steps are always there to be taken. */
  lemma GoneCallerIsKilled(s: State)
    requires Inv(s) && s.watcher.Armed? && s.ctxDone && !s.done && !s.released && !s.closed
    ensures var s1 := Apply(s, SeesCtx);
            Enabled(s, SeesCtx) && Enabled(s1, GuardPasses)
            && var s2 := Apply(s1, GuardPasses);
            Enabled(s2, Term(Sent)) && Enabled(Apply(s2, Term(Sent)), GraceEnds)
            && var s3 := Apply(Apply(s2, Term(Sent)), GraceEnds);
            Enabled(s3, Kill(Sent)) && Apply(s3, Kill(Sent)).cancelled && Apply(s3, Kill(Sent)).kill == Some(Sent)
  {
  }

  /** Until run has returned, the handler has a step of its own: it never depends
      on Wait returning.  With EveryScheduleEnds, run returns. */
  lemma HandlerIsNeverStuck(states: seq<State>, steps: seq<Step>, i: nat)
    requires Run(states, steps) && i <= |steps| && !states[i].main.Returned?
    ensures exists step: Step :: step.Own() && Enabled(states[i], step)
  {
    RunKeepsInv(states, steps, i);
    var s := states[i];
    var answer := if s.released then ErrGroupReleased else Sent;
    var step := match s.watcher
      case Armed => TimerFires
      case Guard => if s.done then SeesDone else GuardPasses
      case SendTerm => Term(answer)
      case Grace => GraceEnds
      case SendKill => Kill(answer)
      case Drain => DrainEnds
      case Leaving => Finish
      case Gone =>
        if s.main.Joining? then Join else if s.main.Stopping? then StopWatching
        else TakeAbandon;
    assert step.Own() && Enabled(s, step);
  }

  /** The completed argument: any schedule that stops only when nothing of the
      handler's own is enabled has returned, even if the waiter took no step. */
  lemma RunReturnsWithoutWait(states: seq<State>, steps: seq<Step>)
    requires Run(states, steps)
    requires forall step: Step :: step.Own() ==> !Enabled(states[|steps|], step)
    ensures states[|steps|].main.Returned? && |steps| <= 13
  {
    EveryScheduleEnds(states, steps, |steps|);
    if !states[|steps|].main.Returned? {
      HandlerIsNeverStuck(states, steps, |steps|);
    }
  }

  // ----------------------------------------------------------- reporting

  /** What the result says about a kill is what happened: a flag is reported
      exactly when a TERM was attempted that the group did not refuse as released,
      and never both flags. */
  lemma ReportedKillsHappened(states: seq<State>, steps: seq<Step>, i: nat)
    requires Run(states, steps) && i <= |steps|
    requires states[i].main.Returned? && !states[i].main.result.FailedToRun?
    ensures var r := states[i].main.result;
            && !(r.timedOut && r.cancelled)
            && (r.timedOut || r.cancelled <==> Terminated(states[i]))
            && (AuditOutcome(r.timedOut, r.cancelled).OK? <==> !Terminated(states[i]))
  {
    RunKeepsInv(states, steps, i);
  }

  /** The flags and the steps that set them: which of the two the run took, and what
      either leaves behind when it is withdrawn. */
  predicate FlagsTell(s: State, fired: bool, ended: bool) {
    && (s.timedOut ==> fired) && (s.cancelled ==> ended) && !(fired && ended)
    && (s.watcher.Armed? ==> !fired && !ended)
    && (s.watcher.Guard? || s.watcher.SendTerm? || s.watcher.Grace? || s.watcher.SendKill? ==>
          s.timedOut == fired && s.cancelled == ended && (fired || ended))
    && (Terminated(s) ==> s.timedOut == fired && s.cancelled == ended && (fired || ended))
  }

  /** One of the first n steps was this one. */
  ghost predicate Took(steps: seq<Step>, n: nat, step: Step) { exists k :: 0 <= k < n && k < |steps| && steps[k] == step }

  lemma TookByThen(steps: seq<Step>, n: nat, step: Step)
    requires 0 < n <= |steps|
    ensures Took(steps, n, step) <==> Took(steps, n - 1, step) || steps[n - 1] == step
  {
  }

  lemma StepKeepsTelling(s: State, step: Step, fired: bool, ended: bool)
    requires Inv(s) && Enabled(s, step) && FlagsTell(s, fired, ended)
    ensures FlagsTell(Apply(s, step), fired || step == TimerFires, ended || step == SeesCtx)
  {
    match step
    case SeesDone =>
    case TimerFires =>
    case SeesCtx =>
    case GuardPasses =>
    case Term(_) =>
    case Kill(_) =>
    case GraceEnds =>
    case DrainEnds =>
    case Finish =>
    case _ =>
  }

  lemma {:induction false} RunKeepsTelling(states: seq<State>, steps: seq<Step>, i: nat)
    requires Run(states, steps) && i <= |steps|
    ensures FlagsTell(states[i], Took(steps, i, TimerFires), Took(steps, i, SeesCtx))
  {
    if i > 0 {
      assert Follows(states, steps, i - 1);
      RunKeepsInv(states, steps, i - 1);
      RunKeepsTelling(states, steps, i - 1);
      TookByThen(steps, i, TimerFires);
      TookByThen(steps, i, SeesCtx);
      StepKeepsTelling(states[i - 1], steps[i - 1], Took(steps, i - 1, TimerFires), Took(steps, i - 1, SeesCtx));
    }
  }

  /** A call is reported timed out only if its timer fired, and cancelled only if its
      caller went away; and once a TERM has gone out, exactly the one that happened is
      reported. The audit says the same in its own words. */
  lemma FlagsNameTheCause(states: seq<State>, steps: seq<Step>, i: nat)
    requires Run(states, steps) && i <= |steps|
    requires states[i].main.Returned? && !states[i].main.result.FailedToRun?
    ensures var r := states[i].main.result;
            && (r.timedOut <==> Took(steps, i, TimerFires) && Terminated(states[i]))
            && (r.cancelled <==> Took(steps, i, SeesCtx) && Terminated(states[i]))
            && !(Took(steps, i, TimerFires) && Took(steps, i, SeesCtx))
            && (AuditOutcome(r.timedOut, r.cancelled) == TimedOut <==> r.timedOut)
            && (AuditOutcome(r.timedOut, r.cancelled) == Cancelled <==> r.cancelled)
  {
    RunKeepsInv(states, steps, i);
    RunKeepsTelling(states, steps, i);
  }

  /** Which of the three results: what Wait gave, or that the watcher gave it up. */
  lemma ResultNamesTheWait(states: seq<State>, steps: seq<Step>, i: nat)
    requires Run(states, steps) && i <= |steps| && states[i].main.Returned?
    ensures match states[i].main.result
            case Ended(_, _) => states[i].waited == Some(true)
            case FailedToRun => states[i].waited == Some(false)
            case Stalled(_, _) => Took(steps, i, TakeAbandon) && states[i].abandon
  {
    RunKeepsInv(states, steps, i);
    StalledWasAbandoned(states, steps, i);
  }

  predicate Gives(main: Main) {
    match main
    case Stopping(stalled) => stalled
    case Joining(stalled) => stalled
    case Returned(r) => r.Stalled?
    case Selecting => false
  }

  lemma {:induction false} StalledWasAbandoned(states: seq<State>, steps: seq<Step>, i: nat)
    requires Run(states, steps) && i <= |steps|
    ensures Gives(states[i].main) <==> Took(steps, i, TakeAbandon)
  {
    if i > 0 {
      assert Follows(states, steps, i - 1);
      StalledWasAbandoned(states, steps, i - 1);
      TookByThen(steps, i, TakeAbandon);
      StepGives(states[i - 1], steps[i - 1]);
    }
  }

  lemma StepGives(s: State, step: Step)
    requires Enabled(s, step)
    ensures Gives(Apply(s, step).main) <==> Gives(s.main) || step == TakeAbandon
  {
    if step.Mains() {
      match step
      case TakeWaited =>
      case TakeAbandon =>
      case StopWatching =>
      case Join =>
    } else {
      assert Apply(s, step).main == s.main;
    }
  }

  /** A stalled result is only reported after the kill sequence, or after a TERM
      refused because the command had been collected. */
  lemma AbandonComesAfterTheKill(states: seq<State>, steps: seq<Step>, i: nat)
    requires Run(states, steps) && i <= |steps| && states[i].abandon
    ensures KillSequenceOver(states[i])
    ensures states[i].kill.None? ==> states[i].released
  {
    RunKeepsInv(states, steps, i);
  }

  /** run's deferred Close never races a signal: no signal of the watcher ever
      finds the group closed, and the watcher is gone before run returns. */
  lemma CloseIsOrderedAfterTheWatcher(states: seq<State>, steps: seq<Step>, i: nat)
    requires Run(states, steps) && i <= |steps|
    ensures states[i].closed ==> states[i].finished && states[i].done
    ensures states[i].term.Some? ==> !states[i].term.value.ErrGroupClosed?
    ensures states[i].kill.Some? ==> !states[i].kill.value.ErrGroupClosed? && Terminated(states[i])
  {
    RunKeepsInv(states, steps, i);
  }

  lemma ResultIsFinal(s: State, step: Step)
    requires Inv(s) && Enabled(s, step) && s.main.Returned?
    ensures Apply(s, step).main == s.main && !step.Own()
  {
  }
}
