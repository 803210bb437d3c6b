/** internal/platform/group_unix.go as a protocol: any number of goroutines
    signalling, sweeping, collecting and closing one group after one adoption,
    interleaved with a kernel that reissues a pid as soon as nothing holds it.

    The mutex is explicit.  A signaller takes it, decides, calls kill(2) and
    leaves in four separate steps, so kernel and collector steps may fall between
    the decision and the kill.
  */
module GroupProtocol {
  import opened Optional
  import opened GroupPin

  type Tid = int

  // ------------------------------------------------------------- kernel

  /** A process table entry.  `ours` marks the adopted leader and everything
      forked from it; a zombie keeps its group and session. */
  datatype Proc = Proc(group: int, session: int, zombie: bool, ours: bool)

  type Table = map<int, Proc>

  /** The kernel may hand out a number nothing refers to any more. */
  predicate Free(table: Table, n: int) {
    n > 0 && n !in table && forall p :: p in table ==> table[p].group != n && table[p].session != n
  }

  function Members(table: Table, group: int): set<int> {
    set p | p in table && table[p].group == group
  }

  datatype KernelStep =
    | Fork(parent: int, child: int)
    | Setsid(p: int)
    | Setpgid(p: int, group: int)
    | Exit(p: int)
    | ReapOther(p: int)

  // --------------------------------------------------------- goroutines

  datatype Op = OpSignal | OpSweep | OpLeader | OpRelease(sweep: bool)

  datatype Pc =
    // a critical section of a signaller, or of a collector that saw the exit
    | Want(op: Op)
    | Checking(op: Op)
    | Aiming(op: Op, target: Target)
    | Leaving(op: Op, result: Result)
    | Finished(op: Op, result: Result)
    // collect
    | CollectStart(sweep: bool)
    | Awaiting(sweep: bool)
    | GivingUp
    | Reaping
    | LeaderReaping
    | Marking
    | Collected
    // Adopt
    | AdoptStart
    | Polling
    | Committing(adoption: Adoption)
    | AdoptDone
  {
    predicate HoldsLock() { Checking? || Aiming? || Leaving? }
    predicate Adopting() { AdoptStart? || Polling? || Committing? }
    /** Past the point where the group id was given up, on the way to wait. */
    predicate PastGroup() { Reaping? || LeaderReaping? || Marking? || Collected? }
    predicate PastRelease() { Reaping? || Collected? }
    predicate Collecting() {
      || CollectStart? || Awaiting? || GivingUp? || PastGroup()
      || ((Want? || HoldsLock() || Finished?) && op.OpRelease?)
    }
  }

  /** One kill(-number): whether the leader still held the number, and which of
      the processes it reached were not descendants of the adopted leader. */
  datatype Kill = Kill(number: int, leaderHeld: bool, strangers: set<int>)

  datatype State = State(
    leader: int,
    table: Table,
    held: bool,            // the adopted leader has not been reaped
    group: Group,
    lock: Option<Tid>,
    pcs: map<Tid, Pc>,
    adopter: Option<Tid>,
    kills: seq<Kill>,
    handleSignals: nat)

  datatype GoStep =
    | Acquire
    | Check
    | Deliver(answer: Answer)
    | Leave
    | ReadPin
    | AwaitOk
    | AwaitFailed
    | GiveUp
    | Wait(reaps: bool)
    | Mark
    | AdoptBegin
    | Poll(gone: bool, expired: bool)
    | Commit

  datatype Step =
    | Kernel(k: KernelStep)
    | Spawn(t: Tid, first: Pc)
    | CloseGroup
    | Go(t: Tid, g: GoStep)

  // ------------------------------------------------------- kernel steps

  predicate Led(s: State) { s.leader in s.table && s.table[s.leader].session == s.leader }

  /** A configured child calls setsid() before it runs anything of its own. */
  predicate Booting(s: State, p: int) {
    s.held && p == s.leader && s.group.configured && !Led(s)
  }

  predicate KernelEnabled(s: State, k: KernelStep) {
    match k
    case Fork(parent, child) =>
      parent in s.table && !s.table[parent].zombie && !Booting(s, parent) && Free(s.table, child)
    case Setsid(p) =>
      p in s.table && !s.table[p].zombie && Members(s.table, p) == {}
    case Setpgid(p, group) =>
      && p in s.table && !s.table[p].zombie && !Booting(s, p) && s.table[p].session != p
      && (group == p || exists q :: q in s.table && s.table[q].group == group && s.table[q].session == s.table[p].session)
    case Exit(p) =>
      p in s.table && !s.table[p].zombie && !Booting(s, p)
    case ReapOther(p) =>
      p in s.table && s.table[p].zombie && !(s.held && p == s.leader)
  }

  function KernelApply(s: State, k: KernelStep): State
    requires KernelEnabled(s, k)
  {
    s.(table := match k
      case Fork(parent, child) => s.table[child := s.table[parent].(zombie := false)]
      case Setsid(p) => s.table[p := s.table[p].(group := p, session := p)]
      case Setpgid(p, group) => s.table[p := s.table[p].(group := group)]
      case Exit(p) => s.table[p := s.table[p].(zombie := true)]
      case ReapOther(p) => s.table - {p})
  }

  // ---------------------------------------------------- goroutine steps

  function AimOf(op: Op, g: Group): Target {
    match op
    case OpSignal => Aim(g)
    case OpSweep => Aim(g)
    case OpLeader => AimLeader(g)
    case OpRelease(sweep) => if sweep then Aim(g) else Refuse(Sent)
  }

  function ResultOf(op: Op, t: Target, a: Answer): Result {
    if op.OpSweep? || op.OpRelease? then SweepOutcome(Outcome(t, a)) else Outcome(t, a)
  }

  predicate GoEnabled(s: State, t: Tid, g: GoStep) {
    && t in s.pcs
    && var pc := s.pcs[t];
    match g
    case Acquire => pc.Want? && s.lock.None?
    case Check => pc.Checking?
    case Deliver(a) => pc.Aiming? && (pc.target.LeaderHandle? && !s.held ==> a.NoSuchProcess?)
    case Leave => pc.Leaving?
    case ReadPin => pc.CollectStart? && s.lock.None?
    case AwaitOk => pc.Awaiting? && s.held && s.leader in s.table && s.table[s.leader].zombie
    case AwaitFailed => pc.Awaiting?
    case GiveUp => pc.GivingUp? && s.lock.None?
    case Wait(reaps) =>
      && (pc.Reaping? || pc.LeaderReaping?)
      && (reaps ==> s.held && s.leader in s.table && s.table[s.leader].zombie)
    case Mark => pc.Marking? && s.lock.None?
    case AdoptBegin => pc.AdoptStart? && s.lock.None?
    case Poll(gone, _) => pc.Polling? && s.leader in s.table && (gone ==> s.table[s.leader].zombie)
    case Commit => pc.Committing? && s.lock.None?
  }

  function Goto(s: State, t: Tid, pc: Pc): State { s.(pcs := s.pcs[t := pc]) }

  function GoApply(s: State, t: Tid, g: GoStep): State
    requires GoEnabled(s, t, g)
  {
    var pc := s.pcs[t];
    match g
    case Acquire => Goto(s, t, Checking(pc.op)).(lock := Some(t))
    case Check =>
      var target := AimOf(pc.op, s.group);
      Goto(s, t, if target.Refuse? then Leaving(pc.op, target.why) else Aiming(pc.op, target))
    case Deliver(a) =>
      var s' := Goto(s, t, Leaving(pc.op, ResultOf(pc.op, pc.target, a)));
      (match pc.target
       case KillGroup(n) => s'.(kills := s.kills + [KillNow(s, n)])
       case BarePid(p) => s'.(kills := s.kills + [Kill(p, false, {p})])
       case LeaderHandle => s'.(handleSignals := s.handleSignals + 1)
       case Refuse(_) => s')
    case Leave =>
      if pc.op.OpRelease? then
        Goto(s, t, Reaping).(lock := None, group := AfterRelease(s.group))
      else
        Goto(s, t, Finished(pc.op, pc.result)).(lock := None)
    case ReadPin => Goto(s, t, if s.group.pin.PinGroup? then Awaiting(pc.sweep) else LeaderReaping)
    case AwaitOk => Goto(s, t, Want(OpRelease(pc.sweep)))
    case AwaitFailed => Goto(s, t, GivingUp)
    case GiveUp => Goto(s, t, LeaderReaping).(group := AfterGiveUp(s.group))
    case Wait(reaps) =>
      var s' := Goto(s, t, if pc.Reaping? then Collected else Marking);
      if reaps then s'.(table := s.table - {s.leader}, held := false) else s'
    case Mark => Goto(s, t, Collected).(group := AfterRelease(s.group))
    case AdoptBegin => Goto(s, t, if s.group.closed then AdoptDone else Polling)
    case Poll(gone, expired) =>
      var reading := if gone then None else Some(s.table[s.leader].group);
      if Settled(s.leader, s.group.configured, reading, expired) then
        Goto(s, t, Committing(Adopted(s.leader, s.group.configured, reading)))
      else s
    case Commit =>
      if s.group.closed then Goto(s, t, AdoptDone)
      else Goto(s, t, AdoptDone).(group := AfterAdopt(s.group, s.leader, pc.adoption))
  }

  function KillNow(s: State, number: int): Kill {
    Kill(number, s.held && number == s.leader,
         set p | p in Members(s.table, number) && !s.table[p].ours)
  }

  // -------------------------------------------------------------- runs

  predicate Enabled(s: State, step: Step) {
    match step
    case Kernel(k) => KernelEnabled(s, k)
    case Spawn(t, first) =>
      && t !in s.pcs
      && (|| (first.Want? && !first.op.OpRelease?)
          || (first.CollectStart? && s.group.pid != 0)
          || (first.AdoptStart? && s.adopter.None?))
    case CloseGroup => s.lock.None?
    case Go(t, g) => GoEnabled(s, t, g)
  }

  function Apply(s: State, step: Step): State
    requires Enabled(s, step)
  {
    match step
    case Kernel(k) => KernelApply(s, k)
    case Spawn(t, first) => Goto(s, t, first).(adopter := if first.AdoptStart? then Some(t) else s.adopter)
    case CloseGroup => s.(group := s.group.(closed := true))
    case Go(t, g) => GoApply(s, t, g)
  }

  /** The child has just been started: nothing is adopted, and the only process
      of ours is the leader, still in whatever group it was forked into. */
  ghost predicate Init(s: State) {
    && s.leader > 0 && s.held && s.leader in s.table
    && !s.table[s.leader].zombie
    && (forall p :: p in s.table ==> s.table[p].ours == (p == s.leader))
    && (forall p :: p in s.table ==> s.table[p].group != s.leader && s.table[p].session != s.leader)
    && s.group == FreshGroup.(configured := s.group.configured)
    && s.lock.None? && s.pcs == map[] && s.adopter.None? && s.kills == [] && s.handleSignals == 0
  }

  ghost predicate Run(states: seq<State>, steps: seq<Step>) {
    && |states| == |steps| + 1
    && Init(states[0])
    && forall i :: 0 <= i < |steps| ==> Follows(states, steps, i)
  }

  predicate Follows(states: seq<State>, steps: seq<Step>, i: nat)
    requires i < |steps| && |states| == |steps| + 1
  {
    Enabled(states[i], steps[i]) && states[i + 1] == Apply(states[i], steps[i])
  }

  // --------------------------------------------------------- invariant

  /** What the kernel guarantees about the leader's number while it is held. */
  ghost predicate KernelInv(s: State) {
    && s.leader > 0
    && (s.held ==>
        && s.leader in s.table && s.table[s.leader].ours
        && (forall p :: p in s.table && s.table[p].session == s.leader ==> s.table[p].ours)
        && (Led(s) ==>
            && s.table[s.leader].group == s.leader
            && (forall p :: p in s.table && s.table[p].group == s.leader ==> s.table[p].session == s.leader))
        && (s.group.configured && !Led(s) ==>
            && !s.table[s.leader].zombie
            && (forall p :: p in s.table ==> s.table[p].group != s.leader && s.table[p].session != s.leader)))
  }

  ghost predicate LockInv(s: State) {
    && (s.lock.Some? ==> s.lock.value in s.pcs)
    && (forall t :: t in s.pcs ==> (s.pcs[t].HoldsLock() <==> s.lock == Some(t)))
  }

  /** The heart of it: while the pin names the group, its leader is unreaped. */
  ghost predicate PinInv(s: State) {
    && (s.group.pid == 0 || (s.group.pid == s.leader && s.group.hasHandle))
    && (s.group.pid == 0 ==> s.group.pin.PinGroup?)
    && (s.adopter.None? ==> s.group.pid == 0)
    && (!s.held ==> s.group.pid != 0 && !s.group.pin.PinGroup?)
    && (s.group.pid != 0 && s.group.pin.PinGroup? ==> s.group.pgid == s.leader && (s.group.configured ==> Led(s)))
  }

  ghost predicate PcOk(s: State, t: Tid, pc: Pc) {
    && (pc.Adopting() ==> s.adopter == Some(t) && s.group.pid == 0)
    && (pc.Committing? && pc.adoption.isolated ==> pc.adoption.pgid == s.leader && (s.group.configured ==> Led(s)))
    && (pc.Collecting() ==> s.group.pid != 0)
    && (pc.PastGroup() ==> !s.group.pin.PinGroup?)
    && (pc.PastRelease() ==> s.group.pin.PinNone?)
    && (pc.Finished? ==> !pc.op.OpRelease?)
    && (pc.Aiming? ==> pc.target == AimOf(pc.op, s.group) && !pc.target.Refuse? && !pc.target.BarePid?)
  }

  ghost predicate PcInv(s: State) {
    forall t :: t in s.pcs ==> PcOk(s, t, s.pcs[t])
  }

  ghost predicate SafeKill(s: State, e: Kill) {
    && e.number == s.leader && e.leaderHeld
    && (s.group.configured ==> e.strangers == {})
  }

  ghost predicate LogInv(s: State) {
    forall i :: 0 <= i < |s.kills| ==> SafeKill(s, s.kills[i])
  }

  ghost predicate Inv(s: State) {
    KernelInv(s) && LockInv(s) && PinInv(s) && PcInv(s) && LogInv(s)
  }

  // ---------------------------------------------------------- induction

  lemma KernelStepKeepsLed(s: State, k: KernelStep)
    requires KernelInv(s) && KernelEnabled(s, k)
    ensures s.held && Led(s) ==> Led(KernelApply(s, k))
  {
  }

  lemma KernelStepKeepsKernelInv(s: State, k: KernelStep)
    requires KernelInv(s) && KernelEnabled(s, k)
    ensures KernelInv(KernelApply(s, k))
  {
    var s' := KernelApply(s, k);
    if s.held {
      KernelStepKeepsLed(s, k);
      match k
      case Fork(parent, child) =>
      case Setsid(p) =>
        if p == s.leader {
          assert forall q :: q in s.table && s.table[q].group == s.leader ==> q in Members(s.table, s.leader);
        }
      case Setpgid(p, group) =>
      case Exit(p) =>
      case ReapOther(p) =>
    }
  }

  lemma KernelStepKeepsInv(s: State, k: KernelStep)
    requires Inv(s) && KernelEnabled(s, k)
    ensures Inv(KernelApply(s, k))
  {
    KernelStepKeepsKernelInv(s, k);
    KernelStepKeepsLed(s, k);
  }

  /** A group id named by a held pin reaches only descendants. */
  lemma KillIsSafe(s: State, t: Tid)
    requires Inv(s) && t in s.pcs && s.pcs[t].Aiming? && s.pcs[t].target.KillGroup?
    ensures SafeKill(s, KillNow(s, s.pcs[t].target.number))
  {
    var n := s.pcs[t].target.number;
    assert PcOk(s, t, s.pcs[t]);
    assert n == s.leader;
    forall p | p in Members(s.table, n) && s.group.configured
      ensures s.table[p].ours
    {
    }
  }

  lemma GoStepKeepsKernel(s: State, t: Tid, g: GoStep)
    requires Inv(s) && GoEnabled(s, t, g)
    ensures KernelInv(GoApply(s, t, g))
  {
    assert PcOk(s, t, s.pcs[t]);
  }

  lemma GoStepKeepsPin(s: State, t: Tid, g: GoStep)
    requires Inv(s) && GoEnabled(s, t, g)
    ensures PinInv(GoApply(s, t, g))
  {
    assert PcOk(s, t, s.pcs[t]);
  }

  lemma GoStepKeepsLock(s: State, t: Tid, g: GoStep)
    requires Inv(s) && GoEnabled(s, t, g)
    ensures LockInv(GoApply(s, t, g))
  {
  }

  lemma GoStepKeepsLog(s: State, t: Tid, g: GoStep)
    requires Inv(s) && GoEnabled(s, t, g)
    ensures LogInv(GoApply(s, t, g))
  {
    assert PcOk(s, t, s.pcs[t]);
    if g.Deliver? && s.pcs[t].target.KillGroup? {
      KillIsSafe(s, t);
    }
  }

  lemma SignallerKeepsOwnPc(s: State, t: Tid, g: GoStep)
    requires Inv(s) && GoEnabled(s, t, g) && (g.Acquire? || g.Check? || g.Deliver? || g.Leave?)
    ensures PcOk(GoApply(s, t, g), t, GoApply(s, t, g).pcs[t])
  {
    assert PcOk(s, t, s.pcs[t]);
  }

  lemma CollectorKeepsOwnPc(s: State, t: Tid, g: GoStep)
    requires Inv(s) && GoEnabled(s, t, g)
    requires g.ReadPin? || g.AwaitOk? || g.AwaitFailed? || g.GiveUp? || g.Wait? || g.Mark?
    ensures PcOk(GoApply(s, t, g), t, GoApply(s, t, g).pcs[t])
  {
    assert PcOk(s, t, s.pcs[t]);
  }

  lemma AdopterKeepsOwnPc(s: State, t: Tid, g: GoStep)
    requires Inv(s) && GoEnabled(s, t, g) && (g.AdoptBegin? || g.Poll? || g.Commit?)
    ensures PcOk(GoApply(s, t, g), t, GoApply(s, t, g).pcs[t])
  {
    assert PcOk(s, t, s.pcs[t]);
    assert s.group.pid == 0 && s.held;
  }

  lemma GoStepKeepsOwnPc(s: State, t: Tid, g: GoStep)
    requires Inv(s) && GoEnabled(s, t, g)
    ensures PcOk(GoApply(s, t, g), t, GoApply(s, t, g).pcs[t])
  {
    if g.Acquire? || g.Check? || g.Deliver? || g.Leave? {
      SignallerKeepsOwnPc(s, t, g);
    } else if g.AdoptBegin? || g.Poll? || g.Commit? {
      AdopterKeepsOwnPc(s, t, g);
    } else {
      CollectorKeepsOwnPc(s, t, g);
    }
  }

  /** Only the lock holder's own section can see the group change under it. */
  lemma GoStepKeepsOtherPc(s: State, t: Tid, g: GoStep, u: Tid)
    requires Inv(s) && GoEnabled(s, t, g) && u in s.pcs && u != t
    ensures PcOk(GoApply(s, t, g), u, s.pcs[u])
  {
    assert PcOk(s, t, s.pcs[t]) && PcOk(s, u, s.pcs[u]);
    var s' := GoApply(s, t, g);
    if s.pcs[u].Aiming? {
      assert s.lock == Some(u);
      assert s'.group == s.group;
    }
  }

  lemma GoStepKeepsPcs(s: State, t: Tid, g: GoStep)
    requires Inv(s) && GoEnabled(s, t, g)
    ensures PcInv(GoApply(s, t, g))
  {
    GoStepKeepsOwnPc(s, t, g);
    var s' := GoApply(s, t, g);
    forall u | u in s'.pcs
      ensures PcOk(s', u, s'.pcs[u])
    {
      if u != t {
        GoStepKeepsOtherPc(s, t, g, u);
      }
    }
  }

  lemma GoStepKeepsInv(s: State, t: Tid, g: GoStep)
    requires Inv(s) && GoEnabled(s, t, g)
    ensures Inv(GoApply(s, t, g))
  {
    GoStepKeepsKernel(s, t, g);
    GoStepKeepsPin(s, t, g);
    GoStepKeepsLock(s, t, g);
    GoStepKeepsLog(s, t, g);
    GoStepKeepsPcs(s, t, g);
  }

  lemma CloseKeepsInv(s: State)
    requires Inv(s) && Enabled(s, CloseGroup)
    ensures Inv(Apply(s, CloseGroup))
  {
    var s' := Apply(s, CloseGroup);
    forall u | u in s'.pcs
      ensures PcOk(s', u, s'.pcs[u])
    {
      assert PcOk(s, u, s.pcs[u]);
    }
  }

  lemma SpawnKeepsInv(s: State, t: Tid, first: Pc)
    requires Inv(s) && Enabled(s, Spawn(t, first))
    ensures Inv(Apply(s, Spawn(t, first)))
  {
    var s' := Apply(s, Spawn(t, first));
    forall u | u in s'.pcs
      ensures PcOk(s', u, s'.pcs[u])
    {
      if u != t {
        assert PcOk(s, u, s.pcs[u]);
      }
    }
  }

  lemma StepKeepsInv(s: State, step: Step)
    requires Inv(s) && Enabled(s, step)
    ensures Inv(Apply(s, step))
  {
    match step
    case Kernel(k) => KernelStepKeepsInv(s, k);
    case Spawn(t, first) => SpawnKeepsInv(s, t, first);
    case CloseGroup => CloseKeepsInv(s);
    case Go(t, g) => GoStepKeepsInv(s, t, g);
  }

  lemma {:induction false} RunKeepsInv(states: seq<State>, steps: seq<Step>, i: nat)
    requires Run(states, steps) && i <= |steps|
    ensures Inv(states[i])
  {
    if i > 0 {
      assert Follows(states, steps, i - 1);
      RunKeepsInv(states, steps, i - 1);
      StepKeepsInv(states[i - 1], steps[i - 1]);
    }
  }

  // ---------------------------------------------------------- theorems

  /** Every kill(-number) of every run names the adopted leader's own group while
      that leader is unreaped, and, when a session was configured, reaches no
      process that is not a descendant of it. */
  lemma {:induction false} EveryKillIsSafe(states: seq<State>, steps: seq<Step>, i: nat, k: nat)
    requires Run(states, steps) && i <= |steps| && k < |states[i].kills|
    ensures states[i].kills[k].number == states[i].leader && states[i].kills[k].leaderHeld
    ensures states[i].group.configured ==> states[i].kills[k].strangers == {}
  {
    RunKeepsInv(states, steps, i);
    assert SafeKill(states[i], states[i].kills[k]);
  }

  /** The only ways a goroutine changes the fields. */
  lemma GoStepChangesGroup(s: State, t: Tid, g: GoStep)
    requires GoEnabled(s, t, g)
    ensures var g' := GoApply(s, t, g).group;
            g' == s.group || g' == AfterRelease(s.group) || g' == AfterGiveUp(s.group)
            || (s.pcs[t].Committing? && g' == AfterAdopt(s.group, s.leader, s.pcs[t].adoption))
  {
  }

  lemma StepOnlyGivesUp(s: State, step: Step)
    requires Inv(s) && Enabled(s, step)
    ensures Apply(s, step).group.pin.Rank() >= s.group.pin.Rank()
    ensures Apply(s, step).group.configured == s.group.configured
  {
    if step.Go? {
      assert PcOk(s, step.t, s.pcs[step.t]);
      GoStepChangesGroup(s, step.t, step.g);
      MarksOnlyGiveUp(s.group);
    }
  }

  /** The pin moves down group, leader, none over a whole run, adoption included. */
  lemma {:induction false} PinOnlyFalls(states: seq<State>, steps: seq<Step>, i: nat, j: nat)
    requires Run(states, steps) && i <= j <= |steps|
    ensures states[i].group.pin.Rank() <= states[j].group.pin.Rank()
    decreases j
  {
    if i < j {
      assert Follows(states, steps, j - 1);
      PinOnlyFalls(states, steps, i, j - 1);
      RunKeepsInv(states, steps, j - 1);
      StepOnlyGivesUp(states[j - 1], steps[j - 1]);
    }
  }

  /** With the pin at none no signal of any kind leaves the group. */
  lemma ReleasedGroupIsSilent(s: State, step: Step)
    requires Inv(s) && Enabled(s, step) && s.group.pin.PinNone?
    ensures Apply(s, step).kills == s.kills && Apply(s, step).handleSignals == s.handleSignals
  {
    if step.Go? {
      assert PcOk(s, step.t, s.pcs[step.t]);
    }
  }

  lemma NoneIsFinalStep(s: State, step: Step)
    requires Inv(s) && Enabled(s, step) && s.group.pin.PinNone?
    ensures var s' := Apply(s, step);
            s'.group.pin.PinNone? && s'.kills == s.kills && s'.handleSignals == s.handleSignals
  {
    ReleasedGroupIsSilent(s, step);
    StepOnlyGivesUp(s, step);
  }

  lemma {:induction false} NoneIsFinal(states: seq<State>, steps: seq<Step>, i: nat, j: nat)
    requires Run(states, steps) && i <= j <= |steps| && states[i].group.pin.PinNone?
    ensures states[j].group.pin.PinNone?
    ensures states[j].kills == states[i].kills && states[j].handleSignals == states[i].handleSignals
    decreases j
  {
    if i < j {
      assert Follows(states, steps, j - 1);
      NoneIsFinal(states, steps, i, j - 1);
      RunKeepsInv(states, steps, j - 1);
      NoneIsFinalStep(states[j - 1], steps[j - 1]);
    }
  }

  /** A finished collection is final: from then on the pin stays at none and
      nothing is sent, whatever the other goroutines and the kernel do. */
  lemma CollectionIsFinal(states: seq<State>, steps: seq<Step>, t: Tid, i: nat, j: nat)
    requires Run(states, steps) && i <= j <= |steps|
    requires t in states[i].pcs && states[i].pcs[t].Collected?
    ensures states[j].group.pin.PinNone?
    ensures states[j].kills == states[i].kills && states[j].handleSignals == states[i].handleSignals
  {
    RunKeepsInv(states, steps, i);
    assert PcOk(states[i], t, states[i].pcs[t]);
    NoneIsFinal(states, steps, i, j);
  }

  predicate RefusedSoFar(pc: Pc) {
    match pc
    case Aiming(_, _) => false
    case Leaving(op, r) => !op.OpRelease? ==> r in {ErrGroupReleased, ErrGroupClosed}
    case Finished(op, r) => r in {ErrGroupReleased, ErrGroupClosed}
    case _ => true
  }

  /** t has not started, or cannot get its signal out. */
  predicate StillRefused(s: State, t: Tid) { t in s.pcs ==> RefusedSoFar(s.pcs[t]) }

  lemma ReleasedGroupRefuses(s: State, step: Step, t: Tid)
    requires Inv(s) && Enabled(s, step) && s.group.pin.PinNone? && StillRefused(s, t)
    ensures StillRefused(Apply(s, step), t)
  {
    if step.Go? {
      assert PcOk(s, step.t, s.pcs[step.t]);
    }
  }

  /** Every signal that starts after a collection has finished is refused. */
  lemma {:induction false} LaterSignalsAreRefused(states: seq<State>, steps: seq<Step>, c: Tid, t: Tid, i: nat, j: nat)
    requires Run(states, steps) && i <= j <= |steps|
    requires c in states[i].pcs && states[i].pcs[c].Collected? && t !in states[i].pcs
    ensures StillRefused(states[j], t)
    decreases j
  {
    if i < j {
      LaterSignalsAreRefused(states, steps, c, t, i, j - 1);
      assert Follows(states, steps, j - 1);
      CollectionIsFinal(states, steps, c, i, j - 1);
      RunKeepsInv(states, steps, j - 1);
      ReleasedGroupRefuses(states[j - 1], steps[j - 1], t);
    }
  }

  /** The lock is never stuck: its holder always has a step of its own. */
  lemma LockHolderCanStep(states: seq<State>, steps: seq<Step>, i: nat)
    requires Run(states, steps) && i <= |steps| && states[i].lock.Some?
    ensures exists g :: GoEnabled(states[i], states[i].lock.value, g)
  {
    RunKeepsInv(states, steps, i);
    var s, t := states[i], states[i].lock.value;
    assert s.pcs[t].HoldsLock();
    assert GoEnabled(s, t, if s.pcs[t].Checking? then Check else if s.pcs[t].Aiming? then Deliver(NoSuchProcess) else Leave);
  }

  /** Why the refusal matters: once the leader is reaped and nothing else carries
      the number, the kernel may give it to any process that forks. */
  lemma ReapedNumberIsReissued(s: State, stranger: int)
    requires Inv(s) && !s.held && Free(s.table, s.leader)
    requires stranger in s.table && !s.table[stranger].zombie && !s.table[stranger].ours
    ensures Enabled(s, Kernel(Fork(stranger, s.leader)))
    ensures var s' := Apply(s, Kernel(Fork(stranger, s.leader)));
            Enabled(s', Kernel(Setsid(s.leader)))
            && KillNow(Apply(s', Kernel(Setsid(s.leader))), s.leader).strangers == {s.leader}
  {
    var s' := Apply(s, Kernel(Fork(stranger, s.leader)));
    assert s.table[stranger].group != s.leader;
    assert forall p :: p in s'.table ==> s'.table[p].group != s.leader;
    assert Members(s'.table, s.leader) == {};
    var s'' := Apply(s', Kernel(Setsid(s.leader)));
    assert Members(s''.table, s.leader) == {s.leader};
  }
}
