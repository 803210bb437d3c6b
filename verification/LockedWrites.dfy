/** internal/agent/fs/locks.go under edit.go and write.go: WriteProtocol's lock is
    what PathLocks shows of one key. The two run together; a step of the lock table
    that gives the key, takes it back or gives up waiting for it is at the same time
    the writers' Lock, Unlock or CancelQueued.
  */
module LockedWrites {
  import opened Optional
  import opened LockKeys
  import P = PathLocks
  import W = WriteProtocol

  datatype Joint = Joint(locks: P.State, files: W.State)

  datatype Move = LockMove(lock: P.Step) | FileMove(file: W.Step)

  /** The writers' holder is whoever holds the key in the table, and nobody else. */
  ghost predicate Shows(s: P.State, key: Key, w: W.State) {
    forall c :: P.HoldsKey(s, c, key) <==> w.holder == Some(c)
  }

  predicate WaitsForKey(s: P.State, c: P.Cid, key: Key) { P.IsWaiting(s, c) && P.WaitKey(s, c) == key }

  /** The next key c releases. */
  predicate GivesBack(s: P.State, c: P.Cid, key: Key) {
    && c in s.callers && var caller := s.callers[c];
    caller.held != [] && |caller.held| <= |caller.plan| && caller.plan[|caller.held| - 1] == key
  }

  /** What a step of the table is to the writers of this key. */
  function Echo(s: P.State, key: Key, step: P.Step): (echo: Option<W.Step>)
    ensures echo.Some? ==> !echo.value.Crash?
  {
    match step
    case Acquire(c) => if WaitsForKey(s, c, key) then Some(W.Lock(c)) else None
    case CtxDone(c) => if WaitsForKey(s, c, key) then Some(W.CancelQueued(c)) else None
    case Drain(c) => if GivesBack(s, c, key) then Some(W.Unlock(c)) else None
    case _ => None
  }

  /** The writer has got as far as the step; that the lock is free is not asked. */
  predicate InPlace(w: W.State, step: W.Step)
    requires !step.Crash?
  {
    && w.alive && W.In(w, step.c)
    && if step.Unlock? then w.callers[step.c].phase.Leaving? else w.callers[step.c].phase.Queued?
  }

  predicate Enabled(j: Joint, key: Key, m: Move) {
    match m
    case LockMove(step) =>
      && j.files.alive && P.Enabled(j.locks, step)
      && (Echo(j.locks, key, step).Some? ==> InPlace(j.files, Echo(j.locks, key, step).value))
    case FileMove(w) => !w.Lock? && !w.Unlock? && !w.CancelQueued? && W.Enabled(j.files, w)
  }

  function Apply(j: Joint, key: Key, m: Move): Joint
    requires Enabled(j, key, m)
  {
    match m
    case LockMove(step) =>
      var echo := Echo(j.locks, key, step);
      Joint(P.Apply(j.locks, step), if echo.Some? && W.Enabled(j.files, echo.value) then W.Apply(j.files, echo.value) else j.files)
    case FileMove(w) => Joint(j.locks, W.Apply(j.files, w))
  }

  ghost predicate Inv(j: Joint, key: Key) { P.Inv(j.locks) && W.Inv(j.files) && Shows(j.locks, key, j.files) }

  // ------------------------------------------------- who holds the key

  lemma OthersHoldAsBefore(s: P.State, step: P.Step, d: P.Cid, key: Key)
    requires P.Inv(s) && P.Enabled(s, step) && step.c != d
    ensures P.HoldsKey(P.Apply(s, step), d, key) <==> P.HoldsKey(s, d, key)
  {
    assert d in P.Apply(s, step).callers <==> d in s.callers;
    assert d in s.callers ==> P.Apply(s, step).callers[d] == s.callers[d];
  }

  lemma AcquireGives(s: P.State, c: P.Cid, key: Key)
    requires P.Inv(s) && P.Enabled(s, P.Acquire(c))
    ensures P.HoldsKey(P.Apply(s, P.Acquire(c)), c, key) <==> P.HoldsKey(s, c, key) || WaitsForKey(s, c, key)
  {
    var s' := P.Apply(s, P.Acquire(c));
    var held, held' := s.callers[c].held, s'.callers[c].held;
    assert P.CallerOk(s, s.callers[c]);
    assert held' == held + [s.callers[c].phase.e] && s'.callers[c].plan == s.callers[c].plan;
    if P.HoldsKey(s, c, key) {
      var i :| 0 <= i < |held| && i < |s.callers[c].plan| && s.callers[c].plan[i] == key;
      assert s'.callers[c].plan[i] == key;
    }
    if WaitsForKey(s, c, key) {
      assert s'.callers[c].plan[|held|] == key;
    }
  }

  predicate AmongFirst(plan: seq<Key>, n: nat, key: Key) { exists i :: 0 <= i < n && i < |plan| && plan[i] == key }

  lemma OneFewer(plan: seq<Key>, n: nat, key: Key)
    requires Ascending(plan) && 0 < n <= |plan|
    ensures AmongFirst(plan, n - 1, key) <==> AmongFirst(plan, n, key) && plan[n - 1] != key
  {
    forall i | 0 <= i < n - 1
      ensures plan[i] != plan[n - 1]
    {
      P.KeysDiffer(plan, i, n - 1);
    }
  }

  lemma DrainTakes(s: P.State, c: P.Cid, key: Key)
    requires P.Inv(s) && P.Enabled(s, P.Drain(c))
    ensures P.HoldsKey(P.Apply(s, P.Drain(c)), c, key) <==> P.HoldsKey(s, c, key) && !GivesBack(s, c, key)
  {
    var s' := P.Apply(s, P.Drain(c));
    var caller, caller' := s.callers[c], s'.callers[c];
    assert P.CallerOk(s, caller);
    if caller.held != [] {
      assert caller'.plan == caller.plan && |caller'.held| == |caller.held| - 1;
      OneFewer(caller.plan, |caller.held|, key);
      assert P.HoldsKey(s, c, key) <==> AmongFirst(caller.plan, |caller.held|, key);
      assert P.HoldsKey(s', c, key) <==> AmongFirst(caller.plan, |caller.held| - 1, key);
    }
  }

  lemma OtherStepsKeepHeld(s: P.State, step: P.Step, key: Key)
    requires P.Inv(s) && P.Enabled(s, step) && !step.Acquire? && !step.Drain?
    ensures P.HoldsKey(P.Apply(s, step), step.c, key) <==> P.HoldsKey(s, step.c, key)
  {
    var s' := P.Apply(s, step);
    if step.c in s.callers {
      assert s'.callers[step.c].held == s.callers[step.c].held && s'.callers[step.c].plan == s.callers[step.c].plan;
    } else {
      assert s'.callers[step.c].held == [];
    }
  }

  /** What each step of the table does to a key's holders. */
  lemma HoldersAfter(s: P.State, step: P.Step, d: P.Cid, key: Key)
    requires P.Inv(s) && P.Enabled(s, step)
    ensures P.HoldsKey(P.Apply(s, step), d, key) <==>
            if d != step.c then P.HoldsKey(s, d, key)
            else if step.Acquire? then P.HoldsKey(s, d, key) || WaitsForKey(s, d, key)
            else if step.Drain? then P.HoldsKey(s, d, key) && !GivesBack(s, d, key)
            else P.HoldsKey(s, d, key)
  {
    if d != step.c {
      OthersHoldAsBefore(s, step, d, key);
    } else if step.Acquire? {
      AcquireGives(s, d, key);
    } else if step.Drain? {
      DrainTakes(s, d, key);
    } else {
      OtherStepsKeepHeld(s, step, key);
    }
  }

  /** A slot that can be taken means that nobody holds the key. */
  lemma TakenSlotWasFree(s: P.State, c: P.Cid, key: Key, d: P.Cid)
    requires P.Inv(s) && P.Enabled(s, P.Acquire(c)) && WaitsForKey(s, c, key)
    ensures !P.HoldsKey(s, d, key)
  {
    if P.HoldsKey(s, d, key) {
      var e := s.callers[c].phase.e;
      var i :| 0 <= i < |s.callers[d].held| && i < |s.callers[d].plan| && s.callers[d].plan[i] == key;
      assert P.CallerOk(s, s.callers[c]) && P.CallerOk(s, s.callers[d]);
      assert P.AttachedTo(s, s.callers[d].held[i], d) && P.AttachedTo(s, e, c);
      P.AttachedIsCurrent(s, d, s.callers[d].held[i]);
      P.AttachedIsCurrent(s, c, e);
      assert P.HeldBy(s, e, d);
    }
  }

  /** What is given back was held. */
  lemma GivenBackWasHeld(s: P.State, c: P.Cid, key: Key)
    requires GivesBack(s, c, key)
    ensures P.HoldsKey(s, c, key)
  {
    assert s.callers[c].plan[|s.callers[c].held| - 1] == key;
  }

  lemma HolderHolds(s: P.State, key: Key, w: W.State)
    requires Shows(s, key, w) && w.holder.Some?
    ensures P.HoldsKey(s, w.holder.value, key)
  {
  }

  // -------------------------------------------------------- the composition

  /** The table's own rules make every echo a step WriteProtocol allows: the lock is
      free when the key is given, and its holder is the one that gives it back. */
  lemma EchoIsEnabled(j: Joint, key: Key, step: P.Step)
    requires Inv(j, key) && Enabled(j, key, LockMove(step)) && Echo(j.locks, key, step).Some?
    ensures W.Enabled(j.files, Echo(j.locks, key, step).value)
  {
    if step.Acquire? && j.files.holder.Some? {
      HolderHolds(j.locks, key, j.files);
      TakenSlotWasFree(j.locks, step.c, key, j.files.holder.value);
    }
  }

  lemma LockMoveShows(j: Joint, key: Key, step: P.Step)
    requires Inv(j, key) && Enabled(j, key, LockMove(step))
    ensures Shows(P.Apply(j.locks, step), key, Apply(j, key, LockMove(step)).files)
  {
    var j' := Apply(j, key, LockMove(step));
    var echo := Echo(j.locks, key, step);
    if echo.Some? {
      EchoIsEnabled(j, key, step);
    }
    if step.Drain? && GivesBack(j.locks, step.c, key) {
      GivenBackWasHeld(j.locks, step.c, key);
    }
    forall d
      ensures P.HoldsKey(j'.locks, d, key) <==> j'.files.holder == Some(d)
    {
      HoldersAfter(j.locks, step, d, key);
      assert P.HoldsKey(j.locks, d, key) <==> j.files.holder == Some(d);
    }
  }

  lemma MoveKeepsInv(j: Joint, key: Key, m: Move)
    requires Inv(j, key) && Enabled(j, key, m)
    ensures Inv(Apply(j, key, m), key)
  {
    match m
    case LockMove(step) =>
      P.StepKeepsInv(j.locks, step);
      LockMoveShows(j, key, step);
      if Echo(j.locks, key, step).Some? {
        EchoIsEnabled(j, key, step);
        W.StepKeepsInv(j.files, Echo(j.locks, key, step).value);
      }
    case FileMove(w) =>
      W.StepKeepsInv(j.files, w);
  }

  ghost predicate Run(js: seq<Joint>, ms: seq<Move>, key: Key) {
    && |js| == |ms| + 1 && P.Init(js[0].locks)
    && js[0].files == W.Init(js[0].files.target, js[0].files.max, js[0].files.base)
    && forall i :: 0 <= i < |ms| ==> Follows(js, ms, key, i)
  }

  ghost predicate Follows(js: seq<Joint>, ms: seq<Move>, key: Key, i: nat)
    requires i < |ms| && |js| == |ms| + 1
  {
    Enabled(js[i], key, ms[i]) && js[i + 1] == Apply(js[i], key, ms[i])
  }

  /** Over every run of both together, the one holder WriteProtocol reasons about is
      the one caller that holds the key in the lock table. */
  lemma {:induction false} OneLock(js: seq<Joint>, ms: seq<Move>, key: Key, i: nat)
    requires Run(js, ms, key) && i <= |ms|
    ensures Inv(js[i], key)
  {
    if i == 0 {
      W.InitOk(js[0].files.target, js[0].files.max, js[0].files.base);
    } else {
      OneLock(js, ms, key, i - 1);
      assert Follows(js, ms, key, i - 1);
      MoveKeepsInv(js[i - 1], key, ms[i - 1]);
    }
  }

  /** So whenever the table gives this key the file is free, and every move of the
      table that concerns the key is a step WriteProtocol takes. */
  lemma TheTableIsTheLock(js: seq<Joint>, ms: seq<Move>, key: Key, i: nat)
    requires Run(js, ms, key) && i < |ms| && ms[i].LockMove? && Echo(js[i].locks, key, ms[i].lock).Some?
    ensures W.Enabled(js[i].files, Echo(js[i].locks, key, ms[i].lock).value)
    ensures js[i + 1].files == W.Apply(js[i].files, Echo(js[i].locks, key, ms[i].lock).value)
    ensures ms[i].lock.Acquire? ==> js[i].files.holder == None && js[i + 1].files.holder == Some(ms[i].lock.c)
  {
    OneLock(js, ms, key, i);
    assert Follows(js, ms, key, i);
    EchoIsEnabled(js[i], key, ms[i].lock);
  }

  // ------------------------------------------------------ such a run exists

  function Locking(fold: Fold, entries: map<Key, P.Eid>, heap: map<P.Eid, P.Entry>, next: P.Eid, callers: map<P.Cid, P.Caller>): P.State {
    P.State(fold, entries, heap, next, callers)
  }

  function OneCaller(key: Key, held: seq<P.Eid>, phase: P.Phase): map<P.Cid, P.Caller> { map[0 := P.Caller([key], held, phase)] }

  function WriterIn(w: W.State, holder: Option<W.Cid>, op: W.Op, phase: W.Phase): W.State {
    w.(holder := holder, callers := map[0 := W.Caller(op, phase)])
  }

  /** A first caller of lock comes, is counted on a new entry, and takes its slot. */
  function GettingIn(fold: Fold, path: string, w: W.State, op: W.Op): seq<Joint> {
    var key := fold(path);
    [Joint(Locking(fold, map[], map[], 0, map[]), w),
     Joint(Locking(fold, map[], map[], 0, OneCaller(key, [], P.Next)), w),
     Joint(Locking(fold, map[], map[], 0, OneCaller(key, [], P.Next)), WriterIn(w, None, op, W.Queued)),
     Joint(Locking(fold, map[key := 0], map[0 := P.Entry(key, 1, false, {0})], 1, OneCaller(key, [], P.Waiting(0))), WriterIn(w, None, op, W.Queued)),
     Joint(Locking(fold, map[key := 0], map[0 := P.Entry(key, 1, true, {0})], 1, OneCaller(key, [0], P.Next)), WriterIn(w, Some(0), op, W.Holding))]
  }

  function GettingInMoves(path: string, op: W.Op): seq<Move> {
    [LockMove(P.LockOne(0, path)), FileMove(W.Arrive(0, op)), LockMove(P.Attach(0)), LockMove(P.Acquire(0))]
  }

  lemma ArrivingFollows(fold: Fold, path: string, w: W.State, op: W.Op)
    requires w == W.Init(w.target, w.max, w.base)
    ensures Follows(GettingIn(fold, path, w, op), GettingInMoves(path, op), fold(path), 0)
    ensures Follows(GettingIn(fold, path, w, op), GettingInMoves(path, op), fold(path), 1)
  {
  }

  lemma AttachingFollows(fold: Fold, path: string, w: W.State, op: W.Op)
    requires w == W.Init(w.target, w.max, w.base)
    ensures Follows(GettingIn(fold, path, w, op), GettingInMoves(path, op), fold(path), 2)
  {
    assert {} + {0} == {0};
  }

  lemma FirstTakesTheSlot(fold: Fold, key: Key)
    ensures var s := Locking(fold, map[key := 0], map[0 := P.Entry(key, 1, false, {0})], 1, OneCaller(key, [], P.Waiting(0)));
            && P.Enabled(s, P.Acquire(0)) && WaitsForKey(s, 0, key)
            && P.Apply(s, P.Acquire(0)) == Locking(fold, map[key := 0], map[0 := P.Entry(key, 1, true, {0})], 1, OneCaller(key, [0], P.Next))
  {
    assert [] + [0] == [0];
  }

  lemma FirstIsInside(w: W.State, op: W.Op)
    requires w == W.Init(w.target, w.max, w.base)
    ensures W.Enabled(WriterIn(w, None, op, W.Queued), W.Lock(0))
    ensures W.Apply(WriterIn(w, None, op, W.Queued), W.Lock(0)) == WriterIn(w, Some(0), op, W.Holding)
  {
  }

  lemma AcquiringFollows(fold: Fold, path: string, w: W.State, op: W.Op)
    requires w == W.Init(w.target, w.max, w.base)
    ensures Follows(GettingIn(fold, path, w, op), GettingInMoves(path, op), fold(path), 3)
  {
    FirstTakesTheSlot(fold, fold(path));
    FirstIsInside(w, op);
  }

  /** Any writer can be the first inside, by the table giving it the key. */
  lemma SomeWriterGetsIn(fold: Fold, path: string, w: W.State, op: W.Op)
    requires w == W.Init(w.target, w.max, w.base)
    ensures var js, ms := GettingIn(fold, path, w, op), GettingInMoves(path, op);
            Run(js, ms, fold(path)) && js[|ms|].files.holder == Some(0) && js[|ms|].files.callers[0].phase == W.Holding
  {
    ArrivingFollows(fold, path, w, op);
    AttachingFollows(fold, path, w, op);
    AcquiringFollows(fold, path, w, op);
  }
}
