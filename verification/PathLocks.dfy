/** internal/agent/fs/locks.go: the reference-counted lock table under any number
    of callers of `lock` and `lockBoth`, any of them cancelled while it waits.

    Each critical section under the table's mutex, each use of an entry's one-slot
    channel and each abandonment is one step.
  */
module PathLocks {
  import opened LockKeys
  import LT = LockTable

  type Cid = int
  type Eid = nat

  /** `refs` and the one-slot channel.  `key` is what the entry was made for and
      `users` who is attached to it; the code keeps neither. */
  datatype Entry = Entry(key: Key, refs: int, full: bool, users: set<Cid>)

  datatype Phase =
    | Next                  // about to look up plan[|held|], or inside if none is left
    | Waiting(e: Eid)       // attached, in the select
    | Dropping(e: Eid)      // cancelled in the select: about to drop
    | Unwinding             // releasing what is held, last first
    | Drained(e: Eid)       // the slot is empty again: about to drop
    | Finished

  datatype Caller = Caller(plan: seq<Key>, held: seq<Eid>, phase: Phase) {
    /** The critical section the caller took the locks for. */
    predicate Inside() { phase.Next? && |held| == |plan| }

    /** Holds the entry, waits for it, or is about to drop it. */
    predicate Attached(e: Eid) {
      e in held || ((phase.Waiting? || phase.Dropping? || phase.Drained?) && phase.e == e)
    }
  }

  datatype State = State(fold: Fold, entries: map<Key, Eid>, heap: map<Eid, Entry>, next: Eid, callers: map<Cid, Caller>)

  datatype Step =
    | LockOne(c: Cid, path: string)
    | LockTwo(c: Cid, a: string, b: string)
    | Attach(c: Cid)
    | Acquire(c: Cid)
    | CtxDone(c: Cid)
    | Leave(c: Cid)
    | Drain(c: Cid)
    | Drop(c: Cid)

  predicate Live(s: State, c: Cid) { c in s.callers && !s.callers[c].phase.Finished? }

  predicate Enabled(s: State, step: Step) {
    match step
    case LockOne(c, _) => c !in s.callers
    case LockTwo(c, _, _) => c !in s.callers
    case Attach(c) =>
      && c in s.callers && s.callers[c].phase.Next? && |s.callers[c].held| < |s.callers[c].plan|
      && var key := s.callers[c].plan[|s.callers[c].held|];
      key in s.entries ==> s.entries[key] in s.heap
    case Acquire(c) =>
      c in s.callers && s.callers[c].phase.Waiting? && s.callers[c].phase.e in s.heap && !s.heap[s.callers[c].phase.e].full
    case CtxDone(c) => c in s.callers && s.callers[c].phase.Waiting?
    case Leave(c) => c in s.callers && s.callers[c].Inside()
    case Drain(c) =>
      c in s.callers && s.callers[c].phase.Unwinding?
      && (s.callers[c].held != [] ==> s.callers[c].held[|s.callers[c].held| - 1] in s.heap)
    case Drop(c) =>
      c in s.callers && (s.callers[c].phase.Dropping? || s.callers[c].phase.Drained?)
      && s.callers[c].phase.e in s.heap
  }

  function Set(s: State, c: Cid, caller: Caller): State { s.(callers := s.callers[c := caller]) }

  /** The first critical section of lock: find or make the entry, count the caller. */
  function AttachEntry(s: State, key: Key, c: Cid): (r: (State, Eid))
    requires key in s.entries ==> s.entries[key] in s.heap
  {
    var e := if key in s.entries then s.entries[key] else s.next;
    var was := if key in s.entries then s.heap[e] else Entry(key, 0, false, {});
    (s.(entries := s.entries[key := e], heap := s.heap[e := was.(refs := was.refs + 1, users := was.users + {c})],
        next := if key in s.entries then s.next else s.next + 1), e)
  }

  /** drop: the last caller takes the entry out of the table. */
  function DropEntry(s: State, e: Eid, c: Cid): State
    requires e in s.heap
  {
    var was := s.heap[e];
    s.(heap := s.heap[e := was.(refs := was.refs - 1, users := was.users - {c})],
       entries := if was.refs - 1 == 0 then s.entries - {was.key} else s.entries)
  }

  function SetSlot(s: State, e: Eid, full: bool): State
    requires e in s.heap
  {
    s.(heap := s.heap[e := s.heap[e].(full := full)])
  }

  function AttachStep(s: State, c: Cid): State
    requires Enabled(s, Attach(c))
  {
    var caller := s.callers[c];
    var (s', e) := AttachEntry(s, caller.plan[|caller.held|], c);
    Set(s', c, caller.(phase := Waiting(e)))
  }

  function AcquireStep(s: State, c: Cid): State
    requires Enabled(s, Acquire(c))
  {
    var caller := s.callers[c];
    Set(SetSlot(s, caller.phase.e, true), c, caller.(held := caller.held + [caller.phase.e], phase := Next))
  }

  function DrainStep(s: State, c: Cid): State
    requires Enabled(s, Drain(c)) && s.callers[c].held != []
  {
    var caller := s.callers[c];
    var n := |caller.held| - 1;
    Set(SetSlot(s, caller.held[n], false), c, caller.(held := caller.held[..n], phase := Drained(caller.held[n])))
  }

  function DropStep(s: State, c: Cid): State
    requires Enabled(s, Drop(c))
  {
    Set(DropEntry(s, s.callers[c].phase.e, c), c, s.callers[c].(phase := Unwinding))
  }

  function Apply(s: State, step: Step): State
    requires Enabled(s, step)
  {
    match step
    case LockOne(c, path) => Set(s, c, Caller(PlanOne(s.fold, path), [], Next))
    case LockTwo(c, a, b) => Set(s, c, Caller(PlanBoth(s.fold, a, b), [], Next))
    case Attach(c) => AttachStep(s, c)
    case Acquire(c) => AcquireStep(s, c)
    case CtxDone(c) => Set(s, c, s.callers[c].(phase := Dropping(s.callers[c].phase.e)))
    case Leave(c) => Set(s, c, s.callers[c].(phase := Unwinding))
    case Drain(c) =>
      if s.callers[c].held == [] then Set(s, c, s.callers[c].(phase := Finished)) else DrainStep(s, c)
    case Drop(c) => DropStep(s, c)
  }

  ghost predicate Init(s: State) {
    s.entries == map[] && s.heap == map[] && s.callers == map[]
  }

  /** What the table is keyed by. */
  ghost predicate TableOk(s: State) {
    && (forall k :: k in s.entries ==> s.entries[k] in s.heap && s.heap[s.entries[k]].key == k)
    && (forall e :: e in s.heap ==> e < s.next)
  }

  predicate AttachedTo(s: State, e: Eid, c: Cid) { c in s.callers && s.callers[c].Attached(e) }

  ghost predicate CallerOk(s: State, c: Caller) {
    && Ascending(c.plan) && |c.held| <= |c.plan|
    && (c.phase.Waiting? ==> |c.held| < |c.plan|)
    && (c.phase.Finished? ==> c.held == [])
    && (forall i :: 0 <= i < |c.held| ==> c.held[i] in s.heap && s.heap[c.held[i]].key == c.plan[i])
    && (c.phase.Waiting? || c.phase.Dropping? || c.phase.Drained? ==>
        |c.held| < |c.plan| && c.phase.e in s.heap && s.heap[c.phase.e].key == c.plan[|c.held|])
  }

  ghost predicate CallersOk(s: State) {
    forall c :: c in s.callers ==> CallerOk(s, s.callers[c])
  }

  /** `users` are the callers attached to an entry. */
  ghost predicate UsersOk(s: State) {
    && (forall e, c :: e in s.heap ==> (c in s.heap[e].users <==> AttachedTo(s, e, c)))
    && (forall e, c :: AttachedTo(s, e, c) ==> e in s.heap)
  }

  /** `refs` counts them, and an entry is in the table exactly while there are any. */
  ghost predicate RefsOk(s: State) {
    forall e :: e in s.heap ==>
      && s.heap[e].refs == |s.heap[e].users|
      && (s.heap[e].refs > 0 <==> s.heap[e].key in s.entries && s.entries[s.heap[e].key] == e)
  }

  predicate HeldBy(s: State, e: Eid, c: Cid) { c in s.callers && e in s.callers[c].held }

  /** The slot is full exactly while one caller holds the entry. */
  ghost predicate SlotsOk(s: State) {
    && (forall e, c, d :: HeldBy(s, e, c) && HeldBy(s, e, d) ==> c == d)
    && (forall e :: e in s.heap ==> (s.heap[e].full <==> exists c :: HeldBy(s, e, c)))
  }

  ghost predicate Inv(s: State) {
    TableOk(s) && CallersOk(s) && UsersOk(s) && RefsOk(s) && SlotsOk(s)
  }

  // ---------------------------------------------------------- induction

  lemma KeysDiffer(plan: seq<Key>, i: nat, j: nat)
    requires Ascending(plan) && i < j < |plan|
    ensures plan[i] != plan[j]
  {
    LessIsIrreflexive(plan[i]);
  }

  /** A caller never attaches twice to one entry. */
  lemma FreshAttachment(s: State, c: Caller, key: Key, e: Eid)
    requires CallerOk(s, c) && |c.held| < |c.plan| && key == c.plan[|c.held|]
    requires e in s.heap ==> s.heap[e].key == key
    ensures e !in c.held
  {
    forall i | 0 <= i < |c.held|
      ensures c.held[i] != e
    {
      KeysDiffer(c.plan, i, |c.held|);
    }
  }

  /** The callers other than `c` are as they were. */
  ghost predicate OnlyCaller(s: State, s': State, c: Cid) {
    && s'.callers.Keys == s.callers.Keys + {c}
    && forall d :: d in s.callers && d != c ==> s'.callers[d] == s.callers[d]
  }

  /** Entries keep their keys. */
  ghost predicate KeysKept(s: State, s': State) {
    forall e :: e in s.heap ==> e in s'.heap && s'.heap[e].key == s.heap[e].key
  }

  lemma OthersStayOk(s: State, s': State, c: Cid)
    requires CallersOk(s) && OnlyCaller(s, s', c) && KeysKept(s, s') && CallerOk(s', s'.callers[c])
    ensures CallersOk(s')
  {
    forall d | d in s'.callers
      ensures CallerOk(s', s'.callers[d])
    {
      if d != c {
        assert CallerOk(s, s.callers[d]);
      }
    }
  }

  /** Nobody's holdings change. */
  lemma SlotsStay(s: State, s': State)
    requires SlotsOk(s)
    requires forall e, c :: HeldBy(s', e, c) == HeldBy(s, e, c)
    requires forall e :: e in s'.heap ==> if e in s.heap then s'.heap[e].full == s.heap[e].full else !s'.heap[e].full
    requires forall e, c :: e !in s.heap ==> !HeldBy(s, e, c)
    ensures SlotsOk(s')
  {
    forall e | e in s'.heap
      ensures s'.heap[e].full <==> exists c :: HeldBy(s', e, c)
    {
      if exists c :: HeldBy(s, e, c) {
        var c :| HeldBy(s, e, c);
        assert HeldBy(s', e, c);
      }
    }
  }

  lemma SlotFills(s: State, s': State, e: Eid, c: Cid)
    requires SlotsOk(s) && e in s.heap && !s.heap[e].full
    requires forall f, d :: HeldBy(s', f, d) <==> HeldBy(s, f, d) || (f == e && d == c)
    requires s'.heap == s.heap[e := s.heap[e].(full := true)]
    ensures SlotsOk(s')
  {
    assert forall d :: !HeldBy(s, e, d);
    assert HeldBy(s', e, c);
    forall f | f in s'.heap
      ensures s'.heap[f].full <==> exists d :: HeldBy(s', f, d)
    {
      if f != e && s.heap[f].full {
        var d :| HeldBy(s, f, d);
        assert HeldBy(s', f, d);
      }
    }
  }

  lemma SlotEmpties(s: State, s': State, e: Eid, c: Cid)
    requires SlotsOk(s) && e in s.heap && HeldBy(s, e, c)
    requires forall f, d :: HeldBy(s', f, d) <==> HeldBy(s, f, d) && !(f == e && d == c)
    requires s'.heap == s.heap[e := s.heap[e].(full := false)]
    ensures SlotsOk(s')
  {
    forall f | f in s'.heap
      ensures s'.heap[f].full <==> exists d :: HeldBy(s', f, d)
    {
      if f != e && s.heap[f].full {
        var d :| HeldBy(s, f, d);
        assert HeldBy(s', f, d);
      }
    }
  }

  /** Only the caller that steps changes what it is attached to. */
  lemma AttachmentsFrame(s: State, s': State, c: Cid)
    requires OnlyCaller(s, s', c)
    ensures forall e, d :: d != c ==> AttachedTo(s', e, d) == AttachedTo(s, e, d)
    ensures forall e, d :: d != c ==> HeldBy(s', e, d) == HeldBy(s, e, d)
  {
  }

  lemma AttachKeepsUsers(s: State, c: Cid)
    requires Inv(s) && Enabled(s, Attach(c))
    ensures UsersOk(AttachStep(s, c)) && !AttachedTo(s, AttachStep(s, c).callers[c].phase.e, c)
  {
    var caller, s' := s.callers[c], AttachStep(s, c);
    var e := s'.callers[c].phase.e;
    assert CallerOk(s, caller);
    FreshAttachment(s, caller, caller.plan[|caller.held|], e);
    AttachmentsFrame(s, s', c);
    assert forall f :: AttachedTo(s', f, c) <==> AttachedTo(s, f, c) || f == e;
  }

  /** A look-up that finds an entry and one that makes it, seen from the table. */
  ghost predicate Looked(s: State, s': State, key: Key, e: Eid, c: Cid) {
    && s'.entries == s.entries[key := e]
    && if key in s.entries
       then e == s.entries[key] && e in s.heap && s'.next == s.next
            && s'.heap == s.heap[e := s.heap[e].(refs := s.heap[e].refs + 1, users := s.heap[e].users + {c})]
       else e == s.next && s'.next == s.next + 1
            && s'.heap == s.heap[e := Entry(key, 1, false, {c})]
  }

  lemma LookedKeepsTable(s: State, s': State, key: Key, e: Eid, c: Cid)
    requires TableOk(s) && RefsOk(s) && Looked(s, s', key, e, c)
    requires key in s.entries ==> c !in s.heap[e].users
    ensures TableOk(s') && RefsOk(s') && KeysKept(s, s')
  {
    if key in s.entries {
      assert s'.entries == s.entries;
    } else {
      assert e !in s.heap;
      assert forall f :: f in s.heap ==> s'.heap[f] == s.heap[f];
    }
  }

  lemma AttachLooks(s: State, c: Cid)
    requires Enabled(s, Attach(c))
    ensures var s' := AttachStep(s, c);
            && s'.callers[c].phase.Waiting?
            && Looked(s, s', s.callers[c].plan[|s.callers[c].held|], s'.callers[c].phase.e, c)
            && OnlyCaller(s, s', c) && s'.callers[c].plan == s.callers[c].plan && s'.callers[c].held == s.callers[c].held
  {
    assert {} + {c} == {c};
  }

  lemma AttachKeepsInv(s: State, c: Cid)
    requires Inv(s) && Enabled(s, Attach(c))
    ensures Inv(AttachStep(s, c))
  {
    var s' := AttachStep(s, c);
    var key, e := s.callers[c].plan[|s.callers[c].held|], s'.callers[c].phase.e;
    assert CallerOk(s, s.callers[c]);
    AttachLooks(s, c);
    AttachKeepsUsers(s, c);
    LookedKeepsTable(s, s', key, e, c);
    assert CallerOk(s', s'.callers[c]) by {
      assert s'.heap[e].key == key;
    }
    OthersStayOk(s, s', c);
    AttachKeepsSlots(s, c);
  }

  lemma AttachKeepsSlots(s: State, c: Cid)
    requires SlotsOk(s) && UsersOk(s) && TableOk(s) && Enabled(s, Attach(c))
    ensures SlotsOk(AttachStep(s, c))
  {
    var s' := AttachStep(s, c);
    AttachLooks(s, c);
    AttachmentsFrame(s, s', c);
    assert forall e, d :: HeldBy(s, e, d) ==> AttachedTo(s, e, d);
    SlotsStay(s, s');
  }

  /** Filling or emptying a slot moves an attachment, and counts stay. */
  lemma SlotStepKeepsTable(s: State, s': State, c: Cid, e: Eid, full: bool)
    requires TableOk(s) && RefsOk(s) && UsersOk(s) && e in s.heap && c in s.callers
    requires s'.heap == s.heap[e := s.heap[e].(full := full)] && s'.entries == s.entries && s'.next == s.next
    requires OnlyCaller(s, s', c) && forall f :: s'.callers[c].Attached(f) == s.callers[c].Attached(f)
    ensures TableOk(s') && RefsOk(s') && UsersOk(s')
  {
    AttachmentsFrame(s, s', c);
    assert forall f, d :: AttachedTo(s', f, d) == AttachedTo(s, f, d);
  }

  lemma AcquireKeepsInv(s: State, c: Cid)
    requires Inv(s) && Enabled(s, Acquire(c))
    ensures Inv(AcquireStep(s, c))
  {
    var caller, s' := s.callers[c], AcquireStep(s, c);
    var e := caller.phase.e;
    assert CallerOk(s, caller);
    SlotStepKeepsTable(s, s', c, e, true);
    OthersStayOk(s, s', c);
    AttachmentsFrame(s, s', c);
    SlotFills(s, s', e, c);
  }

  lemma DrainKeepsInv(s: State, c: Cid)
    requires Inv(s) && Enabled(s, Drain(c)) && s.callers[c].held != []
    ensures Inv(DrainStep(s, c))
  {
    var caller, s' := s.callers[c], DrainStep(s, c);
    var n := |caller.held| - 1;
    var e := caller.held[n];
    assert CallerOk(s, caller);
    assert caller.held == caller.held[..n] + [e];
    forall i | 0 <= i < n
      ensures caller.held[i] != e
    {
      KeysDiffer(caller.plan, i, n);
    }
    assert e !in caller.held[..n];
    SlotStepKeepsTable(s, s', c, e, false);
    OthersStayOk(s, s', c);
    AttachmentsFrame(s, s', c);
    SlotEmpties(s, s', e, c);
  }

  lemma DropKeepsUsers(s: State, c: Cid)
    requires Inv(s) && Enabled(s, Drop(c))
    ensures UsersOk(DropStep(s, c)) && AttachedTo(s, s.callers[c].phase.e, c)
  {
    var caller, s' := s.callers[c], DropStep(s, c);
    var e := caller.phase.e;
    assert CallerOk(s, caller);
    FreshAttachment(s, caller, caller.plan[|caller.held|], e);
    AttachmentsFrame(s, s', c);
    assert forall f :: AttachedTo(s', f, c) <==> AttachedTo(s, f, c) && f != e;
  }

  lemma DropKeepsTable(s: State, c: Cid)
    requires Inv(s) && Enabled(s, Drop(c))
    ensures TableOk(DropStep(s, c)) && RefsOk(DropStep(s, c))
  {
    DropKeepsUsers(s, c);
    var e := s.callers[c].phase.e;
    assert c in s.heap[e].users;
    assert |s.heap[e].users - {c}| == |s.heap[e].users| - 1;
  }

  lemma DropKeepsInv(s: State, c: Cid)
    requires Inv(s) && Enabled(s, Drop(c))
    ensures Inv(DropStep(s, c))
  {
    var s' := DropStep(s, c);
    DropKeepsUsers(s, c);
    DropKeepsTable(s, c);
    AttachmentsFrame(s, s', c);
    assert CallerOk(s, s.callers[c]);
    OthersStayOk(s, s', c);
    SlotsStay(s, s');
  }

  /** Starting, cancelling, leaving and finishing touch no entry. */
  lemma QuietStepKeepsInv(s: State, s': State, c: Cid, caller: Caller)
    requires Inv(s) && s' == Set(s, c, caller) && CallerOk(s, caller)
    requires forall e :: caller.Attached(e) <==> AttachedTo(s, e, c)
    requires forall e :: e in caller.held <==> HeldBy(s, e, c)
    ensures Inv(s')
  {
    AttachmentsFrame(s, s', c);
    assert forall f, d :: AttachedTo(s', f, d) == AttachedTo(s, f, d);
    assert forall f, d :: HeldBy(s', f, d) == HeldBy(s, f, d);
    OthersStayOk(s, s', c);
    SlotsStay(s, s');
  }

  lemma StepKeepsInv(s: State, step: Step)
    requires Inv(s) && Enabled(s, step)
    ensures Inv(Apply(s, step))
  {
    var s' := Apply(s, step);
    if step.c in s.callers {
      assert CallerOk(s, s.callers[step.c]);
    }
    match step
    case Attach(c) => AttachKeepsInv(s, c);
    case Acquire(c) => AcquireKeepsInv(s, c);
    case Drop(c) => DropKeepsInv(s, c);
    case Drain(c) =>
      if s.callers[c].held == [] {
        QuietStepKeepsInv(s, s', c, s'.callers[c]);
      } else {
        DrainKeepsInv(s, c);
      }
    case LockTwo(c, a, b) =>
      PlansAreOrdered(s.fold, a, b);
      QuietStepKeepsInv(s, s', c, s'.callers[c]);
    case _ => QuietStepKeepsInv(s, s', step.c, s'.callers[step.c]);
  }

  ghost predicate Run(states: seq<State>, steps: seq<Step>) {
    && |states| == |steps| + 1
    && Init(states[0])
    && forall i :: 0 <= i < |steps| ==> Follows(states, steps, i)
  }

  ghost predicate Follows(states: seq<State>, steps: seq<Step>, i: nat)
    requires i < |steps| && |states| == |steps| + 1
  {
    Enabled(states[i], steps[i]) && states[i + 1] == Apply(states[i], steps[i])
  }

  lemma {:induction false} RunKeepsInv(states: seq<State>, steps: seq<Step>, i: nat)
    requires Run(states, steps) && i <= |steps|
    ensures Inv(states[i])
  {
    if i > 0 {
      assert Follows(states, steps, i - 1);
      RunKeepsInv(states, steps, i - 1);
      StepKeepsInv(states[i - 1], steps[i - 1]);
    }
  }

  // ---------------------------------------------------------- theorems

  predicate HoldsKey(s: State, c: Cid, key: Key) {
    c in s.callers && exists i :: 0 <= i < |s.callers[c].held| && i < |s.callers[c].plan| && s.callers[c].plan[i] == key
  }

  /** The count is the callers attached, and the table holds an entry exactly
      while that is not zero. */
  lemma RefsCountTheAttached(states: seq<State>, steps: seq<Step>, i: nat, e: Eid)
    requires Run(states, steps) && i <= |steps| && e in states[i].heap
    ensures var s := states[i];
            && s.heap[e].refs == |set c | c in s.callers && s.callers[c].Attached(e)|
            && (s.heap[e].refs > 0 <==> s.heap[e].key in s.entries && s.entries[s.heap[e].key] == e)
  {
    RunKeepsInv(states, steps, i);
    var s := states[i];
    forall c
      ensures c in s.heap[e].users <==> c in (set c | c in s.callers && s.callers[c].Attached(e))
    {
      assert AttachedTo(s, e, c) <==> c in s.callers && s.callers[c].Attached(e);
    }
    assert s.heap[e].users == set c | c in s.callers && s.callers[c].Attached(e);
  }

  lemma AttachedIsCurrent(s: State, c: Cid, e: Eid)
    requires Inv(s) && AttachedTo(s, e, c)
    ensures e in s.heap && s.heap[e].key in s.entries && s.entries[s.heap[e].key] == e
  {
    assert c in s.heap[e].users;
    assert s.heap[e].refs > 0;
  }

  /** All callers of a key meet at one entry, even when the table has dropped and
      remade that key in between. */
  lemma OneEntryPerKey(states: seq<State>, steps: seq<Step>, i: nat, c: Cid, d: Cid, e: Eid, f: Eid)
    requires Run(states, steps) && i <= |steps|
    requires AttachedTo(states[i], e, c) && AttachedTo(states[i], f, d)
    requires e in states[i].heap && f in states[i].heap && states[i].heap[e].key == states[i].heap[f].key
    ensures e == f
  {
    RunKeepsInv(states, steps, i);
    AttachedIsCurrent(states[i], c, e);
    AttachedIsCurrent(states[i], d, f);
  }

  /** At most one caller holds a path. */
  lemma AtMostOneHolder(states: seq<State>, steps: seq<Step>, i: nat, c: Cid, d: Cid, key: Key)
    requires Run(states, steps) && i <= |steps|
    requires HoldsKey(states[i], c, key) && HoldsKey(states[i], d, key)
    ensures c == d
  {
    RunKeepsInv(states, steps, i);
    var s := states[i];
    var a :| 0 <= a < |s.callers[c].held| && a < |s.callers[c].plan| && s.callers[c].plan[a] == key;
    var b :| 0 <= b < |s.callers[d].held| && b < |s.callers[d].plan| && s.callers[d].plan[b] == key;
    assert CallerOk(s, s.callers[c]) && CallerOk(s, s.callers[d]);
    OneEntryPerKey(states, steps, i, c, d, s.callers[c].held[a], s.callers[d].held[b]);
    assert HeldBy(s, s.callers[c].held[a], c) && HeldBy(s, s.callers[d].held[b], d);
  }

  /** A caller inside its critical section holds, for every key it asked for, the full
      slot of the entry the table has for that key now, and nobody else holds it. */
  lemma InsideHoldsAll(states: seq<State>, steps: seq<Step>, i: nat, c: Cid, key: Key)
    requires Run(states, steps) && i <= |steps|
    requires c in states[i].callers && states[i].callers[c].Inside() && key in states[i].callers[c].plan
    ensures var s := states[i];
            && key in s.entries && s.entries[key] in s.heap && s.heap[s.entries[key]].full
            && s.entries[key] in s.callers[c].held
            && forall d :: d in s.callers && s.entries[key] in s.callers[d].held ==> d == c
  {
    RunKeepsInv(states, steps, i);
    var s := states[i];
    var caller := s.callers[c];
    var k :| 0 <= k < |caller.plan| && caller.plan[k] == key;
    assert CallerOk(s, caller);
    var e := caller.held[k];
    assert AttachedTo(s, e, c) && HeldBy(s, e, c);
    AttachedIsCurrent(s, c, e);
    forall d | d in s.callers && e in s.callers[d].held
      ensures d == c
    {
      assert HeldBy(s, e, d);
    }
  }

  /** c alone holds the full slot of the entry the table has for the key. */
  ghost predicate HoldsAlone(s: State, c: Cid, key: Key) {
    && c in s.callers && key in s.entries && s.entries[key] in s.heap && s.heap[s.entries[key]].full
    && s.entries[key] in s.callers[c].held
    && forall d :: d in s.callers && s.entries[key] in s.callers[d].held ==> d == c
  }

  lemma PlanStands(s: State, step: Step, c: Cid)
    requires Enabled(s, step) && c in s.callers
    ensures c in Apply(s, step).callers && Apply(s, step).callers[c].plan == s.callers[c].plan
  {
  }

  lemma FoldStands(s: State, step: Step)
    requires Enabled(s, step)
    ensures Apply(s, step).fold == s.fold
  {
  }

  lemma {:induction false} OneFold(states: seq<State>, steps: seq<Step>, i: nat)
    requires Run(states, steps) && i <= |steps|
    ensures states[i].fold == states[0].fold
  {
    if i > 0 {
      OneFold(states, steps, i - 1);
      assert Follows(states, steps, i - 1);
      FoldStands(states[i - 1], steps[i - 1]);
    }
  }

  lemma {:induction false} PlanIsKept(states: seq<State>, steps: seq<Step>, c: Cid, i: nat, j: nat)
    requires Run(states, steps) && i <= j <= |steps| && c in states[i].callers
    ensures c in states[j].callers && states[j].callers[c].plan == states[i].callers[c].plan
    decreases j
  {
    if i < j {
      PlanIsKept(states, steps, c, i, j - 1);
      assert Follows(states, steps, j - 1);
      PlanStands(states[j - 1], steps[j - 1], c);
    }
  }

  /** What a call of lock or lockBoth asks for. */
  predicate AsksFor(step: Step, c: Cid, path: string) {
    step == LockOne(c, path) || (step.LockTwo? && step.c == c && path in {step.a, step.b})
  }

  lemma AskedIsPlanned(s: State, step: Step, c: Cid, path: string)
    requires Enabled(s, step) && AsksFor(step, c, path)
    ensures c in Apply(s, step).callers && LockKey(s.fold, path) in Apply(s, step).callers[c].plan
  {
    if step.LockTwo? {
      PlansAreOrdered(s.fold, step.a, step.b);
    }
  }

  /** From the call to its critical section: inside, the caller of lock(path), or of
      lockBoth with path for one of its two, alone holds the lock of that path, whatever
      spelling the path came in. */
  lemma AskedIsHeld(states: seq<State>, steps: seq<Step>, j: nat, i: nat, c: Cid, path: string)
    requires Run(states, steps) && j < i <= |steps| && AsksFor(steps[j], c, path)
    requires c in states[i].callers && states[i].callers[c].Inside()
    ensures HoldsAlone(states[i], c, states[0].fold(path))
  {
    assert Follows(states, steps, j);
    OneFold(states, steps, j);
    AskedIsPlanned(states[j], steps[j], c, path);
    PlanIsKept(states, steps, c, j + 1, i);
    InsideHoldsAll(states, steps, i, c, LockKey(states[0].fold, path));
  }

  lemma PlannedIsAsked(s: State, step: Step, c: Cid, key: Key)
    requires Enabled(s, step) && c !in s.callers && c in Apply(s, step).callers && key in Apply(s, step).callers[c].plan
    ensures exists path :: AsksFor(step, c, path) && LockKey(s.fold, path) == key
  {
    match step
    case LockOne(_, path) =>
      assert AsksFor(step, c, path);
    case LockTwo(_, a, b) =>
      PlansAreOrdered(s.fold, a, b);
      assert AsksFor(step, c, a) && AsksFor(step, c, b);
  }

  /** So two calls for one file, in whatever spelling, are never inside at once. */
  lemma OneInsidePerPath(states: seq<State>, steps: seq<Step>, i: nat, j: nat, c: Cid, path: string, k: nat, d: Cid, path': string)
    requires Run(states, steps) && j < i <= |steps| && k < i && AsksFor(steps[j], c, path) && AsksFor(steps[k], d, path')
    requires states[0].fold(path) == states[0].fold(path')
    requires c in states[i].callers && states[i].callers[c].Inside() && d in states[i].callers && states[i].callers[d].Inside()
    ensures c == d
  {
    AskedIsHeld(states, steps, j, i, c, path);
    AskedIsHeld(states, steps, k, i, d, path');
  }

  /** Nor does a call take more: every key in its plan is that of a path it named. */
  lemma {:induction false} PlannedWasAsked(states: seq<State>, steps: seq<Step>, i: nat, c: Cid, key: Key)
    requires Run(states, steps) && i <= |steps| && c in states[i].callers && key in states[i].callers[c].plan
    ensures exists j, path :: 0 <= j < i && AsksFor(steps[j], c, path) && states[0].fold(path) == key
  {
    if i > 0 {
      assert Follows(states, steps, i - 1);
      if c in states[i - 1].callers {
        PlanStands(states[i - 1], steps[i - 1], c);
        PlannedWasAsked(states, steps, i - 1, c, key);
        var j, path :| 0 <= j < i - 1 && AsksFor(steps[j], c, path) && states[0].fold(path) == key;
        assert 0 <= j < i && AsksFor(steps[j], c, path);
      } else {
        OneFold(states, steps, i - 1);
        PlannedIsAsked(states[i - 1], steps[i - 1], c, key);
        var path :| AsksFor(steps[i - 1], c, path) && states[0].fold(path) == key;
        assert AsksFor(steps[i - 1], c, path);
      }
    }
  }

  lemma FinishedCallersAreDetached(s: State, e: Eid)
    requires Inv(s) && e in s.heap
    requires forall c :: c in s.callers ==> s.callers[c].phase.Finished?
    ensures s.heap[e].refs == 0
  {
    forall c
      ensures c !in s.heap[e].users
    {
      if c in s.callers {
        assert CallerOk(s, s.callers[c]);
      }
      assert !AttachedTo(s, e, c);
    }
    assert s.heap[e].users == {};
  }

  /** Nothing is left behind: with every caller finished the table is empty. */
  lemma EmptyAtQuiescence(states: seq<State>, steps: seq<Step>, i: nat)
    requires Run(states, steps) && i <= |steps|
    requires forall c :: c in states[i].callers ==> states[i].callers[c].phase.Finished?
    ensures states[i].entries == map[]
  {
    RunKeepsInv(states, steps, i);
    forall key
      ensures key !in states[i].entries
    {
      if key in states[i].entries {
        FinishedCallersAreDetached(states[i], states[i].entries[key]);
        assert false;
      }
    }
  }

  // ----------------------------------------------------------- no deadlock

  predicate IsWaiting(s: State, c: Cid) {
    c in s.callers && s.callers[c].phase.Waiting? && |s.callers[c].held| < |s.callers[c].plan|
  }

  function WaitKey(s: State, c: Cid): Key
    requires IsWaiting(s, c)
  {
    s.callers[c].plan[|s.callers[c].held|]
  }

  /** `c` waits for an entry `d` holds. */
  predicate WaitsFor(s: State, c: Cid, d: Cid) {
    IsWaiting(s, c) && HeldBy(s, s.callers[c].phase.e, d)
  }

  /** Waiting only ever goes up the order of the keys. */
  lemma WaitsUpward(s: State, c: Cid, d: Cid)
    requires Inv(s) && WaitsFor(s, c, d) && IsWaiting(s, d)
    ensures Less(WaitKey(s, c), WaitKey(s, d))
  {
    assert CallerOk(s, s.callers[c]) && CallerOk(s, s.callers[d]);
    var i :| 0 <= i < |s.callers[d].held| && s.callers[d].held[i] == s.callers[c].phase.e;
  }

  ghost predicate Chain(s: State, cs: seq<Cid>) {
    forall i :: 0 <= i < |cs| - 1 ==> WaitsFor(s, cs[i], cs[i + 1])
  }

  lemma {:induction false} ChainAscends(s: State, cs: seq<Cid>)
    requires Inv(s) && |cs| >= 2 && Chain(s, cs) && IsWaiting(s, cs[|cs| - 1])
    ensures IsWaiting(s, cs[0]) && Less(WaitKey(s, cs[0]), WaitKey(s, cs[|cs| - 1]))
  {
    assert WaitsFor(s, cs[0], cs[1]);
    if |cs| == 2 {
      WaitsUpward(s, cs[0], cs[1]);
    } else {
      var rest := cs[1..];
      forall i | 0 <= i < |rest| - 1
        ensures WaitsFor(s, rest[i], rest[i + 1])
      {
        assert WaitsFor(s, cs[i + 1], cs[i + 1 + 1]);
      }
      ChainAscends(s, rest);
      WaitsUpward(s, cs[0], cs[1]);
      LessIsTransitive(WaitKey(s, cs[0]), WaitKey(s, rest[0]), WaitKey(s, cs[|cs| - 1]));
    }
  }

  /** The wait-for relation has no cycle. */
  lemma NoWaitCycle(states: seq<State>, steps: seq<Step>, i: nat, cs: seq<Cid>)
    requires Run(states, steps) && i <= |steps| && |cs| >= 2 && Chain(states[i], cs)
    ensures cs[0] != cs[|cs| - 1]
  {
    RunKeepsInv(states, steps, i);
    if cs[0] == cs[|cs| - 1] {
      assert WaitsFor(states[i], cs[0], cs[1]);
      ChainAscends(states[i], cs);
      LessIsIrreflexive(WaitKey(states[i], cs[0]));
    }
  }

  /** Of finitely many waiters, one waits for a key no other waits above. */
  lemma {:induction false} GreatestWaiter(s: State, waiters: set<Cid>, m: Cid) returns (r: Cid)
    requires m in waiters && forall c :: c in waiters ==> IsWaiting(s, c)
    ensures r in waiters && forall c :: c in waiters ==> !Less(WaitKey(s, r), WaitKey(s, c))
    ensures r == m || Less(WaitKey(s, m), WaitKey(s, r))
    decreases |waiters|
  {
    if c :| c in waiters && Less(WaitKey(s, m), WaitKey(s, c)) {
      var above := set d | d in waiters && Less(WaitKey(s, m), WaitKey(s, d));
      LessIsIrreflexive(WaitKey(s, m));
      assert above <= waiters - {m} && |waiters - {m}| == |waiters| - 1;
      SubsetSize(above, waiters - {m});
      r := GreatestWaiter(s, above, c);
      forall d | d in waiters
        ensures !Less(WaitKey(s, r), WaitKey(s, d))
      {
        if Less(WaitKey(s, r), WaitKey(s, d)) {
          LessIsTransitive(WaitKey(s, m), WaitKey(s, r), WaitKey(s, d));
          assert false;
        }
      }
    } else {
      r := m;
    }
  }

  lemma SubsetSize(a: set<Cid>, b: set<Cid>)
    requires a <= b
    ensures |a| <= |b|
  {
    assert b == a + (b - a);
  }

  /** A step a caller takes without anybody's context ending. */
  predicate Progress(s: State, step: Step) {
    (step.Attach? || step.Acquire? || step.Leave? || step.Drain? || step.Drop?) && Enabled(s, step)
  }

  lemma NotWaitingCanStep(s: State, c: Cid)
    requires Inv(s) && Live(s, c) && !s.callers[c].phase.Waiting?
    ensures exists step :: Progress(s, step)
  {
    assert CallerOk(s, s.callers[c]);
    var caller := s.callers[c];
    var step :=
      if caller.phase.Next? then if caller.Inside() then Leave(c) else Attach(c)
      else if caller.phase.Unwinding? then Drain(c) else Drop(c);
    assert Progress(s, step);
  }

  /** lock and lockBoth cannot deadlock: while any caller is unfinished, some
      caller has a step, without waiting for a cancellation. */
  lemma NeverDeadlocked(states: seq<State>, steps: seq<Step>, i: nat)
    requires Run(states, steps) && i <= |steps| && exists c :: Live(states[i], c)
    ensures exists step :: Progress(states[i], step)
  {
    RunKeepsInv(states, steps, i);
    var s := states[i];
    var c :| Live(s, c);
    if d :| Live(s, d) && !s.callers[d].phase.Waiting? {
      NotWaitingCanStep(s, d);
    } else {
      var waiters := set d | d in s.callers && Live(s, d);
      assert c in waiters;
      forall d | d in waiters
        ensures IsWaiting(s, d)
      {
        assert CallerOk(s, s.callers[d]);
      }
      var m := GreatestWaiter(s, waiters, c);
      assert CallerOk(s, s.callers[m]);
      var e := s.callers[m].phase.e;
      if s.heap[e].full {
        var d :| HeldBy(s, e, d);
        assert CallerOk(s, s.callers[d]);
        assert Live(s, d) && d in waiters;
        WaitsUpward(s, m, d);
        assert false;
      }
      assert Progress(s, Acquire(m));
    }
  }

  /** What a caller has left to do, cancelled or not. */
  function StepsLeft(c: Caller): int {
    match c.phase
    case Next => 2 * (|c.plan| - |c.held|) + 2 * |c.plan| + 2
    case Waiting(_) => 2 * (|c.plan| - |c.held|) + 2 * |c.plan| + 1
    case Dropping(_) => 2 * |c.held| + 2
    case Drained(_) => 2 * |c.held| + 2
    case Unwinding => 2 * |c.held| + 1
    case Finished => 0
  }

  /** Every step of a started caller brings that caller closer to its end and
      moves nobody else, so with NeverDeadlocked every caller finishes. */
  lemma CallersFinish(states: seq<State>, steps: seq<Step>, i: nat)
    requires Run(states, steps) && i < |steps| && steps[i].c in states[i].callers
    ensures Follows(states, steps, i)
    ensures var c := steps[i].c;
            && 0 <= StepsLeft(states[i + 1].callers[c]) < StepsLeft(states[i].callers[c]) <= 4 * |states[i].callers[c].plan| + 2
            && forall d :: d in states[i].callers && d != c ==> states[i + 1].callers[d] == states[i].callers[d]
  {
    RunKeepsInv(states, steps, i);
    assert Follows(states, steps, i);
    StepShortens(states[i], steps[i]);
  }

  lemma StepShortens(s: State, step: Step)
    requires Inv(s) && Enabled(s, step) && step.c in s.callers
    ensures var c, s' := step.c, Apply(s, step);
            && OnlyCaller(s, s', c)
            && 0 <= StepsLeft(s'.callers[c]) < StepsLeft(s.callers[c]) <= 4 * |s.callers[c].plan| + 2
  {
    assert CallerOk(s, s.callers[step.c]);
    match step
    case Attach(c) => AttachLooks(s, c);
    case Acquire(_) =>
    case CtxDone(_) =>
    case Leave(_) =>
    case Drain(_) =>
    case Drop(_) =>
  }

  /** A caller that waits can always give up, and then leaves its entry. */
  lemma WaiterCanGiveUp(states: seq<State>, steps: seq<Step>, i: nat, c: Cid)
    requires Run(states, steps) && i <= |steps| && c in states[i].callers && states[i].callers[c].phase.Waiting?
    ensures Enabled(states[i], CtxDone(c)) && Enabled(Apply(states[i], CtxDone(c)), Drop(c))
    ensures !AttachedTo(Apply(Apply(states[i], CtxDone(c)), Drop(c)), states[i].callers[c].phase.e, c)
  {
    RunKeepsInv(states, steps, i);
    var s := states[i];
    assert CallerOk(s, s.callers[c]);
    FreshAttachment(s, s.callers[c], s.callers[c].plan[|s.callers[c].held|], s.callers[c].phase.e);
  }

  // ------------------------------------------------- the object underneath

  /** What the object LockTable.PathLocks shows of a state. */
  function TableOf(s: State): LT.Table
    requires forall k :: k in s.entries ==> s.entries[k] in s.heap
  {
    map k | k in s.entries :: LT.Slot(s.heap[s.entries[k]].refs, s.heap[s.entries[k]].full)
  }

  /** The protocol's look-up and drop are the object's Attach and Drop. */
  lemma StepsAreTheObjects(states: seq<State>, steps: seq<Step>, i: nat)
    requires Run(states, steps) && i < |steps|
    ensures Follows(states, steps, i)
    ensures TableOk(states[i]) && TableOk(states[i + 1])
    ensures steps[i].Attach? ==>
      TableOf(states[i + 1]) == LT.Attached(TableOf(states[i]), WaitKey'(states[i], steps[i].c))
    ensures steps[i].Drop? ==>
      var key := states[i].heap[states[i].callers[steps[i].c].phase.e].key;
      key in TableOf(states[i]) && TableOf(states[i + 1]) == LT.Dropped(TableOf(states[i]), key)
  {
    RunKeepsInv(states, steps, i);
    RunKeepsInv(states, steps, i + 1);
    assert Follows(states, steps, i);
    var s, s', c := states[i], states[i + 1], steps[i].c;
    if steps[i].Attach? {
      AttachLooks(s, c);
      LookShows(s, s', WaitKey'(s, c), s'.callers[c].phase.e, c);
    } else if steps[i].Drop? {
      DropKeepsUsers(s, c);
      AttachedIsCurrent(s, c, s.callers[c].phase.e);
      DropShows(s, s.callers[c].phase.e, c);
    }
  }

  function WaitKey'(s: State, c: Cid): Key
    requires Enabled(s, Attach(c))
  {
    s.callers[c].plan[|s.callers[c].held|]
  }

  lemma OthersLookTheSame(s: State, s': State, key: Key, e: Eid, c: Cid, k: Key)
    requires TableOk(s) && TableOk(s') && Looked(s, s', key, e, c) && k in s.entries && k != key
    ensures k in s'.entries && s'.entries[k] == s.entries[k] && s'.heap[s.entries[k]] == s.heap[s.entries[k]]
  {
    assert s.heap[s.entries[k]].key == k;
  }

  lemma TheKeyShows(s: State, s': State, key: Key, e: Eid, c: Cid)
    requires TableOk(s) && TableOk(s') && Looked(s, s', key, e, c)
    ensures key in s'.entries && s'.entries[key] == e
    ensures LT.Slot(s'.heap[e].refs, s'.heap[e].full)
            == if key in s.entries then LT.Slot(s.heap[e].refs + 1, s.heap[e].full) else LT.Slot(1, false)
  {
  }

  predicate SameAt(t: LT.Table, t': LT.Table, k: Key) { (k in t' <==> k in t) && (k in t ==> t'[k] == t[k]) }

  lemma OneKeyUpdated(t: LT.Table, t': LT.Table, key: Key, slot: LT.Slot)
    requires key in t' && t'[key] == slot && forall k :: k != key ==> SameAt(t, t', k)
    ensures t' == t[key := slot]
  {
    var u := t[key := slot];
    forall k | k in t'.Keys + u.Keys
      ensures k in t' && k in u && t'[k] == u[k]
    {
      assert k != key ==> SameAt(t, t', k);
    }
    assert t'.Keys == u.Keys;
  }

  lemma LookShowsTheSame(s: State, s': State, key: Key, e: Eid, c: Cid, k: Key)
    requires TableOk(s) && TableOk(s') && Looked(s, s', key, e, c) && k != key
    ensures SameAt(TableOf(s), TableOf(s'), k)
  {
    if k in s.entries {
      OthersLookTheSame(s, s', key, e, c, k);
    }
  }

  lemma LookShows(s: State, s': State, key: Key, e: Eid, c: Cid)
    requires TableOk(s) && TableOk(s') && Looked(s, s', key, e, c)
    ensures TableOf(s') == LT.Attached(TableOf(s), key)
  {
    TheKeyShows(s, s', key, e, c);
    forall k | k != key
      ensures SameAt(TableOf(s), TableOf(s'), k)
    {
      LookShowsTheSame(s, s', key, e, c, k);
    }
    OneKeyUpdated(TableOf(s), TableOf(s'), key, TableOf(s')[key]);
  }

  lemma DropShows(s: State, e: Eid, c: Cid)
    requires TableOk(s) && e in s.heap && s.heap[e].key in s.entries && s.entries[s.heap[e].key] == e
    requires TableOk(DropEntry(s, e, c))
    ensures TableOf(DropEntry(s, e, c)) == LT.Dropped(TableOf(s), s.heap[e].key)
  {
    var s' := DropEntry(s, e, c);
    forall k | k in s.entries && k != s.heap[e].key
      ensures k in s'.entries && s'.heap[s'.entries[k]] == s.heap[s.entries[k]]
    {
      assert s.heap[s.entries[k]].key == k;
    }
  }
}
