/** internal/platform/group_unix.go: that an adopted group is named, and killed.
    GroupProtocol says what a kill may reach; this says when one goes out.
  */
module GroupReach {
  import opened Optional
  import opened GroupPin
  import opened GroupProtocol

  /** The step closes the group, or a collector gives its id up, releases it or
      marks it collected. */
  predicate LetsGo(s: State, step: Step) {
    || step.CloseGroup?
    || (step.Go? && (step.g.GiveUp? || step.g.Mark?))
    || (step.Go? && step.g.Leave? && step.t in s.pcs && s.pcs[step.t].Leaving? && s.pcs[step.t].op.OpRelease?)
  }

  /** No step from i up to j lets the group go. */
  ghost predicate Kept(states: seq<State>, steps: seq<Step>, i: nat, j: nat) {
    forall k :: i <= k < j && k < |steps| && k < |states| ==> !LetsGo(states[k], steps[k])
  }

  predicate Own(step: Step, t: Tid) { step.Go? && step.t == t }

  /** From i up to j goroutine t takes no step. */
  ghost predicate Rests(steps: seq<Step>, t: Tid, i: nat, j: nat) {
    forall k :: i <= k < j && k < |steps| ==> !Own(steps[k], t)
  }

  // --------------------------------------------------------- what stands

  /** After adoption only letting go changes the group's fields. */
  lemma GroupStands(s: State, step: Step)
    requires Inv(s) && Enabled(s, step) && s.group.pid != 0 && !LetsGo(s, step)
    ensures Apply(s, step).group == s.group && Apply(s, step).leader == s.leader
  {
    if step.Go? {
      assert PcOk(s, step.t, s.pcs[step.t]);
    }
  }

  lemma {:induction false} GroupStandsUntil(states: seq<State>, steps: seq<Step>, i: nat, j: nat)
    requires Run(states, steps) && i <= j <= |steps| && states[i].group.pid != 0 && Kept(states, steps, i, j)
    ensures states[j].group == states[i].group && states[j].leader == states[i].leader
    decreases j
  {
    if i < j {
      GroupStandsUntil(states, steps, i, j - 1);
      assert Follows(states, steps, j - 1);
      RunKeepsInv(states, steps, j - 1);
      assert !LetsGo(states[j - 1], steps[j - 1]);
      GroupStands(states[j - 1], steps[j - 1]);
    }
  }

  /** A goroutine is moved by its own steps only. */
  lemma PcStands(s: State, step: Step, t: Tid)
    requires Enabled(s, step) && t in s.pcs && !Own(step, t)
    ensures t in Apply(s, step).pcs && Apply(s, step).pcs[t] == s.pcs[t] && Apply(s, step).leader == s.leader
  {
    if step.Go? {
      OthersPcStands(s, step.t, step.g, t);
    }
  }

  lemma OthersPcStands(s: State, u: Tid, g: GoStep, t: Tid)
    requires GoEnabled(s, u, g) && t in s.pcs && u != t
    ensures t in GoApply(s, u, g).pcs && GoApply(s, u, g).pcs[t] == s.pcs[t] && GoApply(s, u, g).leader == s.leader
  {
    match g
    case Acquire =>
    case Check =>
    case Deliver(_) =>
    case Leave =>
    case ReadPin =>
    case AwaitOk =>
    case AwaitFailed =>
    case GiveUp =>
    case Wait(_) =>
    case Mark =>
    case AdoptBegin =>
    case Poll(_, _) =>
    case Commit =>
  }

  lemma {:induction false} PcStandsUntil(states: seq<State>, steps: seq<Step>, t: Tid, i: nat, j: nat)
    requires Run(states, steps) && i <= j <= |steps| && t in states[i].pcs && Rests(steps, t, i, j)
    ensures t in states[j].pcs && states[j].pcs[t] == states[i].pcs[t] && states[j].leader == states[i].leader
    decreases j
  {
    if i < j {
      PcStandsUntil(states, steps, t, i, j - 1);
      assert Follows(states, steps, j - 1);
      assert !Own(steps[j - 1], t);
      PcStands(states[j - 1], steps[j - 1], t);
    }
  }

  // ------------------------------------------------------------ adoption

  /** What getpgid says at a poll: the leader's own group, or, the leader gone, that
      a session was configured for it. */
  predicate ReadsItsOwn(s: State, gone: bool) {
    s.leader in s.table && if gone then s.group.configured else s.table[s.leader].group == s.leader
  }

  /** A poll that reads the child's own group settles on an isolated adoption, and
      one that settles on another group on one that is not. */
  lemma PollSettles(s: State, t: Tid, gone: bool, expired: bool)
    requires Inv(s) && GoEnabled(s, t, Poll(gone, expired))
    ensures var pc := GoApply(s, t, Poll(gone, expired)).pcs[t];
            && (ReadsItsOwn(s, gone) ==> pc.Committing? && pc.adoption.isolated && pc.adoption.pgid == s.leader)
            && (pc.Committing? && pc.adoption.isolated ==> ReadsItsOwn(s, gone))
  {
  }

  /** The adopter polls at i, reads the child's own group, and records it at j. */
  ghost predicate AdoptsItsOwn(states: seq<State>, steps: seq<Step>, t: Tid, i: nat, j: nat) {
    && i < j < |steps| && j < |states|
    && steps[i].Go? && steps[i].t == t && steps[i].g.Poll? && ReadsItsOwn(states[i], steps[i].g.gone)
    && Rests(steps, t, i + 1, j) && steps[j] == Go(t, Commit) && !states[j].group.closed
  }

  predicate AimsAtTheGroup(s: State) {
    s.group.pin.PinGroup? && s.group.isolated && !s.group.closed && Aim(s.group) == KillGroup(s.leader)
  }

  lemma CommitNames(s: State, t: Tid)
    requires Inv(s) && GoEnabled(s, t, Commit) && s.pcs[t].adoption.isolated && !s.group.closed
    ensures GoApply(s, t, Commit).group.pid == s.leader && AimsAtTheGroup(GoApply(s, t, Commit))
  {
    assert PcOk(s, t, s.pcs[t]);
  }

  /** Once a group of the child's own has been adopted it is what every signal aims
      at, until it is closed or a collector lets it go. */
  lemma AdoptedGroupIsNamed(states: seq<State>, steps: seq<Step>, t: Tid, i: nat, j: nat, k: nat)
    requires Run(states, steps) && AdoptsItsOwn(states, steps, t, i, j) && j < k <= |steps|
    requires Kept(states, steps, j + 1, k)
    ensures AimsAtTheGroup(states[k])
  {
    RunKeepsInv(states, steps, i);
    RunKeepsInv(states, steps, j);
    assert Follows(states, steps, i) && Follows(states, steps, j);
    PollSettles(states[i], t, steps[i].g.gone, steps[i].g.expired);
    PcStandsUntil(states, steps, t, i + 1, j);
    CommitNames(states[j], t);
    assert states[j + 1].leader == states[j].leader > 0;
    GroupStandsUntil(states, steps, j + 1, k);
  }

  // --------------------------------------------------------------- kills

  /** Signal, Sweep, and the sweep a collector makes. */
  predicate Reaches(op: Op) { op.OpSignal? || op.OpSweep? || op == OpRelease(true) }

  lemma CheckAims(s: State, t: Tid)
    requires GoEnabled(s, t, Check) && Reaches(s.pcs[t].op) && AimsAtTheGroup(s)
    ensures GoApply(s, t, Check).pcs[t] == Aiming(s.pcs[t].op, KillGroup(s.leader))
  {
  }

  /** What a delivery adds to the log. */
  predicate OneKillMore(s: State, s': State) {
    && |s'.kills| == |s.kills| + 1 && s'.kills[..|s.kills|] == s.kills
    && s'.kills[|s.kills|].number == s.leader && s'.kills[|s.kills|].leaderHeld
  }

  lemma DeliveryKills(s: State, t: Tid, a: Answer)
    requires Inv(s) && GoEnabled(s, t, Deliver(a)) && s.pcs[t].target == KillGroup(s.leader)
    ensures OneKillMore(s, GoApply(s, t, Deliver(a)))
  {
    KillIsSafe(s, t);
  }

  /** Every Signal and Sweep that decides while the adopted group is kept kills the
      whole group, by the number its unreaped leader holds, whatever happens between
      the decision and the call. */
  lemma SignalKillsTheGroup(states: seq<State>, steps: seq<Step>, t: Tid, i: nat, j: nat, u: Tid, k: nat, m: nat, a: Answer)
    requires Run(states, steps) && AdoptsItsOwn(states, steps, t, i, j) && j < k < m < |steps|
    requires Kept(states, steps, j + 1, k)
    requires steps[k] == Go(u, Check) && u in states[k].pcs && states[k].pcs[u].Checking? && Reaches(states[k].pcs[u].op)
    requires Rests(steps, u, k + 1, m) && steps[m] == Go(u, Deliver(a))
    ensures OneKillMore(states[m], states[m + 1])
  {
    AdoptedGroupIsNamed(states, steps, t, i, j, k);
    assert Follows(states, steps, k) && Follows(states, steps, m);
    CheckAims(states[k], u);
    PcStandsUntil(states, steps, u, k + 1, m);
    RunKeepsInv(states, steps, m);
    DeliveryKills(states[m], u, a);
  }

  /** What the kernel answered is what the signaller is told: a sweep, and only a
      sweep, takes a refusal of permission to mean that nothing is left. */
  lemma AnswerIsPassedOn(s: State, t: Tid, a: Answer)
    requires GoEnabled(s, t, Deliver(a)) && !s.pcs[t].target.Refuse?
    ensures var pc := GoApply(s, t, Deliver(a)).pcs[t];
            && pc.Leaving? && pc.op == s.pcs[t].op && (pc.result == Sent <==> a == Delivered)
            && (pc.result == ErrProcessNotFound <==>
                  a == NoSuchProcess || (a == NotPermitted && (pc.op.OpSweep? || pc.op.OpRelease?)))
            && (pc.result == ErrPermission <==> a == NotPermitted && !pc.op.OpSweep? && !pc.op.OpRelease?)
    ensures !s.pcs[t].op.OpRelease? && s.lock == Some(t) ==>
              GoApply(GoApply(s, t, Deliver(a)), t, GoStep.Leave).pcs[t] == Finished(s.pcs[t].op, GoApply(s, t, Deliver(a)).pcs[t].result)
  {
  }

  /** A collector that waits for the exit of a leader that has exited goes on to sweep
      and release; every section it needs on the way is open once the mutex is free, and
      the wait itself reaps the leader. */
  lemma CollectorCanGoOn(s: State, t: Tid)
    requires Inv(s) && t in s.pcs && s.lock.None? && s.held && s.table[s.leader].zombie
    requires s.pcs[t].CollectStart? || s.pcs[t].Awaiting? || s.pcs[t].GivingUp? || s.pcs[t].Reaping? || s.pcs[t].LeaderReaping? || s.pcs[t].Marking?
    ensures s.pcs[t].CollectStart? && s.group.pin.PinGroup? ==>
              GoEnabled(s, t, ReadPin) && GoApply(s, t, ReadPin).pcs[t] == Awaiting(s.pcs[t].sweep)
    ensures s.pcs[t].Awaiting? ==> GoEnabled(s, t, AwaitOk) && GoApply(s, t, AwaitOk).pcs[t] == Want(OpRelease(s.pcs[t].sweep))
    ensures s.pcs[t].GivingUp? ==> GoEnabled(s, t, GiveUp) && !GoApply(s, t, GiveUp).group.pin.PinGroup?
    ensures s.pcs[t].Reaping? || s.pcs[t].LeaderReaping? ==>
              GoEnabled(s, t, Wait(true)) && !GoApply(s, t, Wait(true)).held && s.leader !in GoApply(s, t, Wait(true)).table
    ensures s.pcs[t].Marking? ==> GoEnabled(s, t, Mark) && GoApply(s, t, Mark).pcs[t] == Collected
  {
    assert PcOk(s, t, s.pcs[t]);
  }

  // ------------------------------------------------------ such a run exists

  const Leader: int := 2

  /** The configured child in its parent's group, and after setsid. */
  function Forked(own: bool): Table { map[Leader := if own then Proc(Leader, Leader, false, true) else Proc(1, 1, false, true)] }

  const Configured: Group := FreshGroup.(configured := true)

  const Led2: Group := Group(Leader, Leader, true, true, PinGroup, false, true)

  function At(own: bool, group: Group, lock: Option<Tid>, pcs: map<Tid, Pc>, adopter: Option<Tid>, kills: seq<Kill>): State {
    State(Leader, Forked(own), true, group, lock, pcs, adopter, kills, 0)
  }

  function Adopting(pc: Pc): State { At(true, Configured, None, map[0 := pc], Some(0), []) }

  function Signalling(lock: Option<Tid>, pc: Pc, kills: seq<Kill>): State {
    At(true, Led2, lock, map[0 := AdoptDone, 1 := pc], Some(0), kills)
  }

  function Witness(): seq<State> {
    [At(false, Configured, None, map[], None, []), At(true, Configured, None, map[], None, []),
     Adopting(AdoptStart), Adopting(Polling), Adopting(Committing(Adoption(Leader, true, false))),
     At(true, Led2, None, map[0 := AdoptDone], Some(0), []), Signalling(None, Want(OpSignal), []),
     Signalling(Some(1), Checking(OpSignal), []), Signalling(Some(1), Aiming(OpSignal, KillGroup(Leader)), []),
     Signalling(Some(1), Leaving(OpSignal, Sent), [Kill(Leader, true, {})])]
  }

  function WitnessSteps(): seq<Step> {
    [Kernel(Setsid(Leader)), Spawn(0, AdoptStart), Go(0, AdoptBegin), Go(0, Poll(false, false)), Go(0, Commit),
     Spawn(1, Want(OpSignal)), Go(1, Acquire), Go(1, Check), Go(1, Deliver(Delivered))]
  }

  predicate Leads(s: State, step: Step, s': State) { Enabled(s, step) && s' == Apply(s, step) }

  lemma AdoptingLeadsOn()
    ensures forall k :: 0 <= k < 3 ==> Leads(Witness()[k], WitnessSteps()[k], Witness()[k + 1])
  {
    assert Members(Forked(false), Leader) == {};
  }

  lemma RecordingLeadsOn()
    ensures forall k :: 3 <= k < 6 ==> Leads(Witness()[k], WitnessSteps()[k], Witness()[k + 1])
  {
  }

  lemma SignallingLeadsOn()
    ensures forall k :: 6 <= k < 9 ==> Leads(Witness()[k], WitnessSteps()[k], Witness()[k + 1])
  {
    KillsOnlyOurs(Witness()[8]);
  }

  lemma KillsOnlyOurs(s: State)
    requires s.held && forall p :: p in s.table ==> s.table[p].ours
    ensures KillNow(s, s.leader) == Kill(s.leader, true, {})
  {
    var strangers := KillNow(s, s.leader).strangers;
    Strangers(s, s.leader);
    forall p
      ensures p !in strangers
    {
      assert !Stranger(s, s.leader, p);
    }
    assert |strangers| == 0;
  }

  predicate Stranger(s: State, number: int, p: int) { p in s.table && s.table[p].group == number && !s.table[p].ours }

  /** Whom a kill reaches beyond the leader's descendants. */
  lemma Strangers(s: State, number: int)
    ensures forall p :: p in KillNow(s, number).strangers <==> Stranger(s, number, p)
  {
  }

  /** A child leaves for its own session, is adopted, signalled, and its group killed. */
  lemma SomeRunKills()
    ensures Run(Witness(), WitnessSteps()) && Witness()[9].kills == [Kill(Leader, true, {})]
    ensures AdoptsItsOwn(Witness(), WitnessSteps(), 0, 3, 4)
  {
    AdoptingLeadsOn();
    RecordingLeadsOn();
    SignallingLeadsOn();
    forall k | 0 <= k < |WitnessSteps()|
      ensures Follows(Witness(), WitnessSteps(), k)
    {
      assert Leads(Witness()[k], WitnessSteps()[k], Witness()[k + 1]);
    }
  }
}
