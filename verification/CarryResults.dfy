/** internal/tunnel/tunnel.go and internal/agent/forward/service.go: what Carry and
    the handler report, in terms of what their pumps met.
  */
module CarryResults {
  import opened Optional
  import opened Tunnel

  /** What a pump can meet that its end's answer may depend on. */
  datatype Event =
    | ReadBroke(up: bool)       // the near socket failed
    | DataRefused(up: bool)     // data could not be sent
    | CloseRefused              // the agent's close could not be sent
    | StreamBroke(up: bool)     // the stream ended with an error
    | AuditFailed

  predicate Is(step: Step, e: Event) {
    match e
    case ReadBroke(up) => step.Read? && step.up == up && step.end.Broken?
    case DataRefused(up) => step == Send(up, false)
    case CloseRefused => step == SendClose(false, false)
    case StreamBroke(up) => step == RecvErr(up)
    case AuditFailed => step == HandlerReturns(true)
  }

  /** One of the first n steps is e. */
  ghost predicate Met(steps: seq<Step>, n: nat, e: Event) { exists k :: 0 <= k < n && k < |steps| && Is(steps[k], e) }

  lemma MetByThen(steps: seq<Step>, n: nat, e: Event)
    requires 0 < n <= |steps|
    ensures Met(steps, n, e) <==> Met(steps, n - 1, e) || Is(steps[n - 1], e)
  {
  }

  /** The local socket failed, and what was read with the failure went out: a send
      refused ends the pump before it would report. */
  ghost predicate LocalFailed(steps: seq<Step>, n: nat) { Met(steps, n, ReadBroke(true)) && !Met(steps, n, DataRefused(true)) }

  // ------------------------------------------------------- one pump's end

  /** The sender's state tells what it has met. */
  predicate SenderTells(sender: Sender, up: bool, broke: bool, refused: bool, closeRefused: bool) {
    match sender
    case Reading => !broke && !refused && !closeRefused
    case Sending(_, end) => (broke <==> end.Broken?) && !refused && !closeRefused
    case SendingClose(end) => (broke <==> end.Broken?) && !refused && !closeRefused
    case ClosingSend(end) => (broke <==> end.Broken?) && !refused && !closeRefused
    case SenderDone(bad) => bad <==> if up then broke && !refused else broke || refused || closeRefused
  }

  predicate ReceiverTells(receiver: Receiver, streamBroke: bool) {
    if receiver.ReceiverDone? then receiver.bad <==> streamBroke else !streamBroke
  }

  ghost predicate PipeTells(steps: seq<Step>, n: nat, p: Pipe, up: bool) {
    && SenderTells(p.sender, up, Met(steps, n, ReadBroke(up)), Met(steps, n, DataRefused(up)), !up && Met(steps, n, CloseRefused))
    && ReceiverTells(p.receiver, Met(steps, n, StreamBroke(up)))
  }

  /** A pump's step keeps its pipe telling. */
  lemma StepTells(s: State, step: Step, broke: bool, refused: bool, closeRefused: bool, streamBroke: bool)
    requires step.Pump() && Enabled(s, step)
    requires var p := PipeOf(s, step.IsUp());
             SenderTells(p.sender, step.IsUp(), broke, refused, closeRefused) && ReceiverTells(p.receiver, streamBroke)
    ensures var up, p := step.IsUp(), NextPipe(s, step);
            && SenderTells(p.sender, up, broke || Is(step, ReadBroke(up)), refused || Is(step, DataRefused(up)),
                           closeRefused || (!up && Is(step, CloseRefused)))
            && ReceiverTells(p.receiver, streamBroke || Is(step, StreamBroke(up)))
  {
    match step
    case Read(_, _, _) =>
    case Send(_, _) =>
    case SendClose(_, _) =>
    case CloseSend =>
    case Recv(_) =>
    case RecvEof(_) =>
    case RecvErr(_) =>
    case Write(_, _, _) =>
  }

  /** It is no event of the other direction, and control steps are none of either. */
  lemma OtherDirection(step: Step, up: bool)
    requires step.Pump() ==> step.IsUp() != up
    ensures !Is(step, ReadBroke(up)) && !Is(step, DataRefused(up)) && !Is(step, StreamBroke(up)) && (!up ==> !Is(step, CloseRefused))
  {
  }

  lemma MetAll(steps: seq<Step>, n: nat, up: bool)
    requires 0 < n <= |steps|
    ensures Met(steps, n, ReadBroke(up)) <==> Met(steps, n - 1, ReadBroke(up)) || Is(steps[n - 1], ReadBroke(up))
    ensures Met(steps, n, DataRefused(up)) <==> Met(steps, n - 1, DataRefused(up)) || Is(steps[n - 1], DataRefused(up))
    ensures Met(steps, n, CloseRefused) <==> Met(steps, n - 1, CloseRefused) || Is(steps[n - 1], CloseRefused)
    ensures Met(steps, n, StreamBroke(up)) <==> Met(steps, n - 1, StreamBroke(up)) || Is(steps[n - 1], StreamBroke(up))
  {
    MetByThen(steps, n, ReadBroke(up));
    MetByThen(steps, n, DataRefused(up));
    MetByThen(steps, n, CloseRefused);
    MetByThen(steps, n, StreamBroke(up));
  }

  lemma PipeStands(s: State, step: Step, up: bool)
    requires Enabled(s, step) && (step.Pump() ==> step.IsUp() != up)
    ensures PipeOf(Apply(s, step), up) == PipeOf(s, up)
  {
    if step.Pump() {
      PumpStepFrame(s, step);
    } else {
      ControlKeepsPipes(s, step);
    }
  }

  lemma OwnStepTells(s: State, steps: seq<Step>, n: nat, up: bool)
    requires n < |steps| && Enabled(s, steps[n]) && PipeTells(steps, n, PipeOf(s, up), up)
    requires steps[n].Pump() && steps[n].IsUp() == up
    ensures PipeTells(steps, n + 1, NextPipe(s, steps[n]), up)
  {
    MetAll(steps, n + 1, up);
    StepTells(s, steps[n], Met(steps, n, ReadBroke(up)), Met(steps, n, DataRefused(up)), !up && Met(steps, n, CloseRefused),
              Met(steps, n, StreamBroke(up)));
  }

  lemma OtherStepTells(steps: seq<Step>, n: nat, p: Pipe, up: bool)
    requires n < |steps| && PipeTells(steps, n, p, up) && (steps[n].Pump() ==> steps[n].IsUp() != up)
    ensures PipeTells(steps, n + 1, p, up)
  {
    MetAll(steps, n + 1, up);
    OtherDirection(steps[n], up);
  }

  lemma PipeKeepsTelling(s: State, steps: seq<Step>, n: nat, up: bool)
    requires n < |steps| && Enabled(s, steps[n]) && PipeTells(steps, n, PipeOf(s, up), up)
    ensures PipeTells(steps, n + 1, PipeOf(Apply(s, steps[n]), up), up)
  {
    if steps[n].Pump() && steps[n].IsUp() == up {
      PumpStepFrame(s, steps[n]);
      OwnStepTells(s, steps, n, up);
    } else {
      PipeStands(s, steps[n], up);
      OtherStepTells(steps, n, PipeOf(s, up), up);
    }
  }

  lemma {:induction false} PipesTell(states: seq<State>, steps: seq<Step>, i: nat, up: bool)
    requires Run(states, steps) && i <= |steps|
    ensures PipeTells(steps, i, PipeOf(states[i], up), up)
  {
    if i > 0 {
      assert Follows(states, steps, i - 1);
      PipesTell(states, steps, i - 1, up);
      PipeKeepsTelling(states[i - 1], steps, i - 1, up);
    }
  }

  // ------------------------------------------------------------- answers

  /** The cause comes before the consequence. */
  ghost predicate CarryTold(steps: seq<Step>, n: nat, r: CarryResult) {
    && (r.SendError? <==> LocalFailed(steps, n))
    && (r.RecvError? <==> !LocalFailed(steps, n) && Met(steps, n, StreamBroke(false)))
  }

  lemma ReturnTold(s: State, step: Step)
    requires Enabled(s, step) && JoinInv(s)
    ensures s.returned.Some? ==> Apply(s, step).returned == s.returned
    ensures Apply(s, step).returned.Some? && s.returned.None? ==>
              && step.Join? && s.up.sender.SenderDone? && s.down.receiver.ReceiverDone?
              && (Apply(s, step).returned.value.SendError? <==> s.up.sender.bad)
              && (Apply(s, step).returned.value.RecvError? <==> !s.up.sender.bad && s.down.receiver.bad)
  {
    if step.Pump() {
      PumpReturnsNothing(s, step);
    }
  }

  lemma PumpReturnsNothing(s: State, step: Step)
    requires Enabled(s, step) && step.Pump()
    ensures Apply(s, step).returned == s.returned && Apply(s, step).ended == s.ended
  {
    PumpStepFrame(s, step);
  }

  /** What Carry returns, in every run: the local socket's failure if there was one
      that could be reported, else the stream's own if it met one, else success. The
      sends that fail because the stream is gone are never reported. */
  lemma {:induction false} CarryReportsTheCause(states: seq<State>, steps: seq<Step>, i: nat)
    requires Run(states, steps) && i <= |steps| && states[i].returned.Some?
    ensures CarryTold(steps, i, states[i].returned.value)
  {
    if i > 0 {
      assert Follows(states, steps, i - 1);
      CarryJoinsBoth(states, steps, i - 1);
      ReturnTold(states[i - 1], steps[i - 1]);
      if states[i - 1].returned.Some? {
        CarryReportsTheCause(states, steps, i - 1);
        DonePipesMeetNothing(states[i - 1], steps, i - 1);
      } else {
        PipesTell(states, steps, i - 1, true);
        PipesTell(states, steps, i - 1, false);
        JoinMeetsNothing(steps, i - 1);
      }
    }
  }

  lemma JoinMeetsNothing(steps: seq<Step>, n: nat)
    requires n < |steps| && steps[n].Join?
    ensures LocalFailed(steps, n + 1) == LocalFailed(steps, n)
    ensures Met(steps, n + 1, StreamBroke(false)) == Met(steps, n, StreamBroke(false))
  {
    MetAll(steps, n + 1, true);
    MetAll(steps, n + 1, false);
  }

  /** Pumps that have ended meet nothing more. */
  lemma DonePipesMeetNothing(s: State, steps: seq<Step>, n: nat)
    requires n < |steps| && Enabled(s, steps[n]) && s.up.sender.SenderDone? && s.down.receiver.ReceiverDone?
    ensures LocalFailed(steps, n + 1) == LocalFailed(steps, n)
    ensures Met(steps, n + 1, StreamBroke(false)) == Met(steps, n, StreamBroke(false))
  {
    MetAll(steps, n + 1, true);
    MetAll(steps, n + 1, false);
  }

  /** What the agent's handler has met that it reports. */
  ghost predicate HandlerFailed(steps: seq<Step>, n: nat) {
    || Met(steps, n, ReadBroke(false)) || Met(steps, n, DataRefused(false)) || Met(steps, n, CloseRefused)
    || Met(steps, n, StreamBroke(true)) || Met(steps, n, AuditFailed)
  }

  lemma EndTold(s: State, step: Step)
    requires Enabled(s, step)
    ensures s.ended.Some? ==> Apply(s, step).ended == s.ended && !Is(step, AuditFailed)
    ensures Apply(s, step).ended.Some? && s.ended.None? ==>
              && step.HandlerReturns? && s.up.receiver.ReceiverDone? && s.down.sender.SenderDone?
              && (Apply(s, step).ended.value <==> !Is(step, AuditFailed) && !s.down.sender.bad && !s.up.receiver.bad)
    ensures Apply(s, step).ended.None? ==> !Is(step, AuditFailed)
  {
    if step.Pump() {
      PumpReturnsNothing(s, step);
    }
  }

  lemma EndedPipesMeetNothing(s: State, steps: seq<Step>, n: nat)
    requires n < |steps| && Enabled(s, steps[n]) && s.down.sender.SenderDone? && s.up.receiver.ReceiverDone?
    requires s.ended.Some?
    ensures HandlerFailed(steps, n + 1) == HandlerFailed(steps, n)
  {
    MetAll(steps, n + 1, true);
    MetAll(steps, n + 1, false);
    MetByThen(steps, n + 1, AuditFailed);
  }

  lemma {:induction false} AuditFailsAtTheEnd(states: seq<State>, steps: seq<Step>, i: nat)
    requires Run(states, steps) && i <= |steps| && states[i].ended.None?
    ensures !Met(steps, i, AuditFailed)
  {
    if i > 0 {
      assert Follows(states, steps, i - 1);
      EndTold(states[i - 1], steps[i - 1]);
      AuditFailsAtTheEnd(states, steps, i - 1);
      MetByThen(steps, i, AuditFailed);
    }
  }

  /** What the handler returns, in every run: an error exactly when one of its pumps
      met one that it reports, or the audit failed. */
  lemma {:induction false} HandlerReportsTheCause(states: seq<State>, steps: seq<Step>, i: nat)
    requires Run(states, steps) && i <= |steps| && states[i].ended.Some?
    ensures states[i].ended == Some(!HandlerFailed(steps, i))
  {
    if i > 0 {
      assert Follows(states, steps, i - 1);
      EndTold(states[i - 1], steps[i - 1]);
      RunKeepsBytes(states, steps, i - 1);
      if states[i - 1].ended.Some? {
        HandlerReportsTheCause(states, steps, i - 1);
        EndedPipesMeetNothing(states[i - 1], steps, i - 1);
      } else {
        PipesTell(states, steps, i - 1, true);
        PipesTell(states, steps, i - 1, false);
        AuditFailsAtTheEnd(states, steps, i - 1);
        ReturnMeetsOnlyTheAudit(steps, i - 1);
      }
    }
  }

  lemma ReturnMeetsOnlyTheAudit(steps: seq<Step>, n: nat)
    requires n < |steps| && steps[n].HandlerReturns? && !Met(steps, n, AuditFailed)
    ensures HandlerFailed(steps, n + 1) <==> HandlerFailed(steps, n) || Is(steps[n], AuditFailed)
  {
    MetAll(steps, n + 1, true);
    MetAll(steps, n + 1, false);
    MetByThen(steps, n + 1, AuditFailed);
  }

  // ------------------------------------------- runs in which nothing failed

  /** The receivers of a run without failures end as the handler did. */
  predicate EndsTogether(s: State) {
    && (s.up.receiver.ReceiverDone? ==> !s.up.receiver.bad)
    && (s.down.receiver.ReceiverDone? ==> s.ended == Some(!s.down.receiver.bad))
  }

  lemma CleanReceiverEnds(s: State, step: Step)
    requires ByteInv(s) && CleanInv(s) && EndsTogether(s) && step.Pump() && Enabled(s, step) && !Noted(s, step).failed
    ensures var p, p' := PipeOf(s, step.IsUp()), NextPipe(s, step);
            p'.receiver.ReceiverDone? ==> p'.receiver == p.receiver
                                          || (if step.IsUp() then !p'.receiver.bad else s.ended == Some(!p'.receiver.bad))
  {
    match step
    case Read(_, _, _) =>
    case Send(_, _) =>
    case SendClose(_, _) =>
    case CloseSend =>
    case Recv(_) =>
    case RecvEof(_) =>
    case RecvErr(_) =>
    case Write(_, _, _) =>
  }

  lemma StepEndsTogether(s: State, step: Step)
    requires ByteInv(s) && CleanInv(s) && EndsTogether(s) && Enabled(s, step) && !Apply(s, step).failed
    ensures EndsTogether(Apply(s, step))
  {
    if step.Pump() {
      PumpStepFrame(s, step);
      CleanReceiverEnds(s, step);
    } else {
      ControlKeepsPipes(s, step);
      EndTold(s, step);
    }
  }

  lemma {:induction false} CleanRunEndsTogether(states: seq<State>, steps: seq<Step>, i: nat)
    requires Run(states, steps) && i <= |steps| && !states[i].failed
    ensures EndsTogether(states[i])
  {
    if i > 0 {
      assert Follows(states, steps, i - 1);
      FailureIsRemembered(states[i - 1], steps[i - 1]);
      CleanRunEndsTogether(states, steps, i - 1);
      RunKeepsBytes(states, steps, i - 1);
      RunStaysClean(states, steps, i - 1);
      StepEndsTogether(states[i - 1], steps[i - 1]);
    }
  }

  /** In a run in which no socket and no stream failed, Carry returns success, unless
      the agent's handler could not write its audit record. */
  lemma CleanRunSucceeds(states: seq<State>, steps: seq<Step>, i: nat)
    requires Run(states, steps) && i <= |steps| && !states[i].failed && states[i].returned.Some?
    ensures states[i].returned == Some(if Met(steps, i, AuditFailed) then RecvError else Clean)
  {
    CarryReportsTheCause(states, steps, i);
    CarryJoinsBoth(states, steps, i);
    RunStaysClean(states, steps, i);
    CleanRunEndsTogether(states, steps, i);
    PipesTell(states, steps, i, true);
    PipesTell(states, steps, i, false);
    HandlerReportsTheCause(states, steps, i);
  }
}
