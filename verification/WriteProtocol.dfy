/** internal/agent/fs/edit.go and write.go: any number of EditFile and WriteFile
    calls on one path, each step of each its own atomic step, any of them
    cancelled, failing or cut off by a crash.

    The path's lock is the one PathLocks is about: at most one caller inside.
  */
module WriteProtocol {
  import opened Optional
  import opened Bytes
  import opened AtomicFile
  import EditFile

  type Cid = int

  datatype Op = EditOp(req: EditFile.Request) | WriteOp(header: Header, payload: Bytes)

  /** What an operation makes of the file as it stands; None when it refuses. */
  function Result(max: nat, op: Op, was: Option<Node>): Option<Node> {
    match op
    case WriteOp(h, payload) => Wanted(was, h, payload).1
    case EditOp(req) =>
      if was.Some? && was.value.File? then
        match EditFile.Edit(max, was.value.content, req)
        case Edited(updated, _) => Some(File(updated, Perm(was.value.mode)))
        case Refused(_) => None
      else None
  }

  /** What a caller means to put in its temp file: a copy of the target first, if
      it appends, and then data. */
  datatype Plan = Plan(copy: bool, data: Bytes, mode: nat)

  datatype Phase =
    | Queued                                            // waiting for the path's lock
    | Holding                                           // has it, and has read nothing
    | Planned(plan: Plan)                               // has read or examined the target
    | Writing(plan: Plan, tmp: Path, copied: nat, n: nat)
    | Replying(tmp: Path)                               // has renamed, and is about to answer
    | Closing(tmp: Path, committed: bool, ok: bool)     // about to run the deferred Close
    | Leaving(committed: bool, ok: bool)                // about to release the lock
    | Returned(committed: bool, ok: bool)               // `ok` is what the caller was told

  datatype Caller = Caller(op: Op, phase: Phase)

  /** One committed version: who made it, and of what. */
  datatype Version = Version(who: Cid, before: Option<Node>, after: Node)

  datatype State = State(target: Path, max: nat, base: Files, files: Files, alive: bool, holder: Option<Cid>,
                         callers: map<Cid, Caller>, log: seq<Version>, leaked: set<Path>)

  datatype Step =
    | Arrive(c: Cid, op: Op)
    | Lock(c: Cid)
    | CancelQueued(c: Cid)
    | Examine(c: Cid)
    | Create(c: Cid, name: Path)
    | CreateFails(c: Cid)
    | Copy(c: Cid, k: nat)
    | WriteSome(c: Cid, k: nat)
    | Commit(c: Cid)
    | Reply(c: Cid, sent: bool)
    | Abandon(c: Cid)
    | Close(c: Cid, removed: bool)
    | Unlock(c: Cid)
    | Crash

  function Init(target: Path, max: nat, files: Files): State {
    State(target, max, files, files, true, None, map[], [], {})
  }

  predicate In(s: State, c: Cid) { c in s.callers }

  function ContentOf(n: Option<Node>): Bytes { if n.Some? && n.value.File? then n.value.content else [] }

  function Ahead(plan: Plan, now: Option<Node>): Bytes { if plan.copy then ContentOf(now) else [] }

  /** What goes ahead of the data: the target's bytes for an append, else none. */
  function ToCopy(s: State, plan: Plan): Bytes { Ahead(plan, At(s.files, s.target)) }

  predicate Enabled(s: State, step: Step) {
    s.alive &&
    match step
    case Arrive(c, _) => c !in s.callers
    case Lock(c) => In(s, c) && s.callers[c].phase.Queued? && s.holder == None
    case CancelQueued(c) => In(s, c) && s.callers[c].phase.Queued?
    case Examine(c) => In(s, c) && s.callers[c].phase.Holding?
    case Create(c, name) => In(s, c) && s.callers[c].phase.Planned? && name !in s.files && name != s.target
    case CreateFails(c) => In(s, c) && s.callers[c].phase.Planned?
    case Copy(c, k) =>
      In(s, c) && s.callers[c].phase.Writing?
      && var p := s.callers[c].phase;
      p.n == 0 && p.copied + k <= |ToCopy(s, p.plan)| && IsFile(s.files, p.tmp)
    case WriteSome(c, k) =>
      In(s, c) && s.callers[c].phase.Writing?
      && var p := s.callers[c].phase;
      p.copied == |ToCopy(s, p.plan)| && p.n + k <= |p.plan.data| && IsFile(s.files, p.tmp)
    case Commit(c) =>
      In(s, c) && s.callers[c].phase.Writing?
      && var p := s.callers[c].phase;
      p.copied == |ToCopy(s, p.plan)| && p.n == |p.plan.data| && IsFile(s.files, p.tmp)
    case Reply(c, _) => In(s, c) && s.callers[c].phase.Replying?
    case Abandon(c) => In(s, c) && (s.callers[c].phase.Writing? || s.callers[c].phase.Holding?)
    case Close(c, _) => In(s, c) && s.callers[c].phase.Closing?
    case Unlock(c) => In(s, c) && s.callers[c].phase.Leaving?
    case Crash => true
  }

  function Go(s: State, c: Cid, phase: Phase): State
    requires In(s, c)
  {
    s.(callers := s.callers[c := s.callers[c].(phase := phase)])
  }

  /** What loadForEdit and the checks, or WriteFile's Lstat, decide. */
  function PlanOf(max: nat, op: Op, now: Option<Node>): Option<Plan> {
    if Result(max, op, now) == None then None
    else match op
      case EditOp(_) => Some(Plan(false, Result(max, op, now).value.content, Result(max, op, now).value.mode))
      case WriteOp(h, payload) => Some(Plan(h.append && now.Some?, payload, Result(max, op, now).value.mode))
  }

  function ExamineStep(s: State, c: Cid): State
    requires Enabled(s, Examine(c))
  {
    match PlanOf(s.max, s.callers[c].op, At(s.files, s.target))
    case Some(plan) => Go(s, c, Planned(plan))
    case None => Go(s, c, Leaving(false, false))
  }

  function CreateStep(s: State, c: Cid, name: Path): State
    requires Enabled(s, Create(c, name))
  {
    Go(s, c, Writing(s.callers[c].phase.plan, name, 0, 0)).(files := Created(s.files, name))
  }

  /** copyExisting, a piece at a time, of the file as it is then. */
  function CopyStep(s: State, c: Cid, k: nat): State
    requires Enabled(s, Copy(c, k))
  {
    var p := s.callers[c].phase;
    var data := ToCopy(s, p.plan)[p.copied..p.copied + k];
    Go(s, c, p.(copied := p.copied + k)).(files := Appended(s.files, p.tmp, data))
  }

  function WriteStep(s: State, c: Cid, k: nat): State
    requires Enabled(s, WriteSome(c, k))
  {
    var p := s.callers[c].phase;
    Go(s, c, p.(n := p.n + k)).(files := Appended(s.files, p.tmp, p.plan.data[p.n..p.n + k]))
  }

  /** A rename that succeeds; one that fails is an Abandon. EditFile then returns its
      answer; WriteFile still has to send it. */
  function CommitStep(s: State, c: Cid): State
    requires Enabled(s, Commit(c))
  {
    var p := s.callers[c].phase;
    var ready := Chmodded(s.files, p.tmp, p.plan.mode);
    var next := if s.callers[c].op.WriteOp? then Replying(p.tmp) else Closing(p.tmp, true, true);
    Go(s, c, next).(files := Renamed(ready, p.tmp, s.target),
                    log := s.log + [Version(c, At(s.files, s.target), ready[p.tmp])])
  }

  function AbandonStep(s: State, c: Cid): State
    requires Enabled(s, Abandon(c))
  {
    var p := s.callers[c].phase;
    Go(s, c, if p.Writing? then Closing(p.tmp, false, false) else Leaving(false, false))
  }

  function CloseStep(s: State, c: Cid, removed: bool): State
    requires Enabled(s, Close(c, removed))
  {
    var p := s.callers[c].phase;
    var s' := Go(s, c, Leaving(p.committed, p.ok));
    if p.committed then s'
    else if removed then s'.(files := s.files - {p.tmp})
    else s'.(leaked := s.leaked + {p.tmp})
  }

  function Apply(s: State, step: Step): State
    requires Enabled(s, step)
  {
    match step
    case Arrive(c, op) => s.(callers := s.callers[c := Caller(op, Queued)])
    case Lock(c) => Go(s, c, Holding).(holder := Some(c))
    case CancelQueued(c) => Go(s, c, Returned(false, false))
    case Examine(c) => ExamineStep(s, c)
    case Create(c, name) => CreateStep(s, c, name)
    case CreateFails(c) => Go(s, c, Leaving(false, false))
    case Copy(c, k) => CopyStep(s, c, k)
    case WriteSome(c, k) => WriteStep(s, c, k)
    case Commit(c) => CommitStep(s, c)
    case Reply(c, sent) => Go(s, c, Closing(s.callers[c].phase.tmp, true, sent))
    case Abandon(c) => AbandonStep(s, c)
    case Close(c, removed) => CloseStep(s, c, removed)
    case Unlock(c) => Go(s, c, Returned(s.callers[c].phase.committed, s.callers[c].phase.ok)).(holder := None)
    case Crash => s.(alive := false)
  }

  // ------------------------------------------------------------ invariants

  predicate Inside(p: Phase) { !p.Queued? && !p.Returned? }

  predicate HasCommitted(p: Phase) { p.Replying? || ((p.Closing? || p.Leaving? || p.Returned?) && p.committed) }

  /** The temp file the caller still has to clean up. */
  function TempOf(p: Phase): set<Path> {
    if p.Writing? || (p.Closing? && !p.committed) then {p.tmp} else {}
  }

  /** The lock: whoever is past the queue and has not returned holds it. */
  ghost predicate LockOk(s: State) {
    && (forall c :: c in s.callers && Inside(s.callers[c].phase) ==> s.holder == Some(c))
    && (s.holder.Some? ==> s.holder.value in s.callers && Inside(s.callers[s.holder.value].phase))
  }

  /** The target before the k-th commit. */
  function VersionBefore(s: State, k: nat): Option<Node>
    requires k <= |s.log|
  {
    if k == 0 then At(s.base, s.target) else Some(s.log[k - 1].after)
  }

  function Current(s: State): Option<Node> { VersionBefore(s, |s.log|) }

  predicate EntryOk(s: State, k: nat)
    requires k < |s.log|
  {
    var v := s.log[k];
    && v.who in s.callers && HasCommitted(s.callers[v.who].phase)
    && v.before == VersionBefore(s, k) && Result(s.max, s.callers[v.who].op, v.before) == Some(v.after)
  }

  ghost predicate LogOk(s: State) {
    && (forall k :: 0 <= k < |s.log| ==> EntryOk(s, k))
    && (forall j, k :: 0 <= j < k < |s.log| ==> s.log[j].who != s.log[k].who)
    && (forall c :: c in s.callers && HasCommitted(s.callers[c].phase) ==> Logged(s, c))
  }

  ghost predicate Logged(s: State, c: Cid) { exists k :: 0 <= k < |s.log| && s.log[k].who == c }

  /** A plan made under the lock is about the current version. */
  predicate PlanOk(s: State, c: Cid, plan: Plan)
    requires c in s.callers
  {
    Result(s.max, s.callers[c].op, Current(s)) == Some(File(Ahead(plan, Current(s)) + plan.data, plan.mode))
  }

  predicate CallerOk(s: State, c: Cid)
    requires c in s.callers
  {
    match s.callers[c].phase
    case Planned(plan) => PlanOk(s, c, plan)
    case Writing(plan, tmp, copied, n) =>
      && PlanOk(s, c, plan) && copied <= |Ahead(plan, Current(s))| && n <= |plan.data|
      && (n > 0 ==> copied == |Ahead(plan, Current(s))|)
      && tmp != s.target && IsFile(s.files, tmp) && s.files[tmp].mode == 0x180
      && s.files[tmp].content == Ahead(plan, Current(s))[..copied] + plan.data[..n]
    case Closing(tmp, committed, _) => !committed ==> tmp != s.target
    case _ => true
  }

  function LiveTemp(s: State): set<Path> {
    if s.holder.Some? && s.holder.value in s.callers then TempOf(s.callers[s.holder.value].phase) else {}
  }

  /** Files other than the target: those that were there, the temp file in use, and
      any that could not be removed. */
  ghost predicate FilesOk(s: State) {
    && At(s.files, s.target) == Current(s)
    && (forall p :: p in s.base && p != s.target ==> p in s.files && s.files[p] == s.base[p])
    && (forall p :: p in s.files && p != s.target ==> p in s.base || p in LiveTemp(s) || p in s.leaked)
    && (forall p :: p in LiveTemp(s) || p in s.leaked ==> p !in s.base && p != s.target)
  }

  ghost predicate Inv(s: State) {
    LockOk(s) && LogOk(s) && FilesOk(s) && forall c :: c in s.callers ==> CallerOk(s, c)
  }

  // ------------------------------------------------------ every step keeps it

  lemma InitOk(target: Path, max: nat, files: Files)
    ensures Inv(Init(target, max, files))
  {
  }

  /** Steps that touch no file and commit nothing. */
  predicate Quiet(step: Step) {
    step.Arrive? || step.Lock? || step.CancelQueued? || step.Examine? || step.CreateFails? || step.Abandon? || step.Reply? || step.Unlock? || step.Crash?
  }

  predicate SameRecord(s: State, s': State) { s'.target == s.target && s'.max == s.max && s'.base == s.base && s'.log == s.log }

  /** Without a commit the log stands, so long as no one's part in it changes. */
  lemma LogStands(s: State, s': State)
    requires LogOk(s) && SameRecord(s, s')
    requires forall c :: c in s.callers ==>
               && c in s'.callers && s'.callers[c].op == s.callers[c].op
               && HasCommitted(s'.callers[c].phase) == HasCommitted(s.callers[c].phase)
    requires forall c :: c in s'.callers && c !in s.callers ==> !HasCommitted(s'.callers[c].phase)
    ensures LogOk(s')
  {
    forall k | 0 <= k < |s'.log|
      ensures EntryOk(s', k)
    {
      assert EntryOk(s, k);
    }
    forall c | c in s'.callers && HasCommitted(s'.callers[c].phase)
      ensures Logged(s', c)
    {
      assert Logged(s, c);
    }
  }

  /** A step changes one caller's phase, or brings a new caller. */
  predicate Moves(s: State, s': State, c: Cid) {
    c in s'.callers && s'.callers == s.callers[c := s'.callers[c]]
    && (if c in s.callers then s'.callers[c].op == s.callers[c].op else s'.callers[c].phase.Queued?)
  }

  lemma StepMoves(s: State, step: Step)
    requires Enabled(s, step) && !step.Crash?
    ensures Moves(s, Apply(s, step), step.c)
    ensures !step.Commit? ==> SameRecord(s, Apply(s, step))
    ensures !step.Commit? && step.c in s.callers ==>
              HasCommitted(Apply(s, step).callers[step.c].phase) == HasCommitted(s.callers[step.c].phase)
  {
    if !step.Commit? {
      KeepsRole(s, step);
    }
  }

  lemma KeepsRole(s: State, step: Step)
    requires Enabled(s, step) && !step.Crash? && !step.Commit?
    ensures SameRecord(s, Apply(s, step))
    ensures step.c in s.callers ==>
              HasCommitted(Apply(s, step).callers[step.c].phase) == HasCommitted(s.callers[step.c].phase)
  {
  }

  /** Only taking and returning the lock move a caller in or out. */
  lemma StaysInside(s: State, step: Step)
    requires Enabled(s, step) && !step.Crash? && !step.Lock? && !step.Unlock? && step.c in s.callers
    ensures Apply(s, step).holder == s.holder
    ensures Inside(Apply(s, step).callers[step.c].phase) == Inside(s.callers[step.c].phase)
  {
  }

  lemma MovesKeepLock(s: State, s': State, c: Cid)
    requires LockOk(s) && Moves(s, s', c) && s'.holder == s.holder
    requires c in s.callers ==> Inside(s'.callers[c].phase) == Inside(s.callers[c].phase)
    ensures LockOk(s')
  {
  }

  lemma LockChangesHands(s: State, step: Step)
    requires LockOk(s) && Enabled(s, step) && (step.Lock? || step.Unlock?)
    ensures LockOk(Apply(s, step))
  {
  }

  lemma StepLock(s: State, step: Step)
    requires Inv(s) && Enabled(s, step)
    ensures LockOk(Apply(s, step))
  {
    if step.Lock? || step.Unlock? {
      LockChangesHands(s, step);
    } else if !step.Crash? {
      StepMoves(s, step);
      if step.c in s.callers {
        StaysInside(s, step);
      }
      MovesKeepLock(s, Apply(s, step), step.c);
    }
  }

  lemma MovesKeepRoles(s: State, s': State, c: Cid)
    requires LogOk(s) && SameRecord(s, s') && Moves(s, s', c)
    requires c in s.callers ==> HasCommitted(s'.callers[c].phase) == HasCommitted(s.callers[c].phase)
    ensures LogOk(s')
  {
    LogStands(s, s');
  }

  /** A commit appends what the operation makes of the version before it. */
  lemma CommitIsTheResult(s: State, c: Cid)
    requires Inv(s) && Enabled(s, Commit(c))
    ensures var s' := Apply(s, Commit(c));
            && |s'.log| == |s.log| + 1 && s'.log[..|s.log|] == s.log
            && var v := s'.log[|s.log|];
            v.who == c && v.before == Current(s) && Result(s.max, s.callers[c].op, Current(s)) == Some(v.after)
            && At(s'.files, s.target) == Some(v.after)
  {
    assert CallerOk(s, c);
    var p := s.callers[c].phase;
    assert p.plan.data[..p.n] == p.plan.data && ToCopy(s, p.plan)[..p.copied] == ToCopy(s, p.plan);
  }

  lemma CommitKeepsEntry(s: State, c: Cid, k: nat)
    requires Inv(s) && Enabled(s, Commit(c)) && k <= |s.log|
    ensures |Apply(s, Commit(c)).log| == |s.log| + 1 && EntryOk(Apply(s, Commit(c)), k)
  {
    var s' := Apply(s, Commit(c));
    CommitIsTheResult(s, c);
    if k < |s.log| {
      assert EntryOk(s, k) && s'.log[k] == s.log[k];
    }
    assert VersionBefore(s', k) == VersionBefore(s, k);
  }

  /** One who has not committed is in no entry, so each commits at most once. */
  lemma CommitsOnce(s: State, c: Cid, j: nat, k: nat)
    requires Inv(s) && Enabled(s, Commit(c)) && j < k <= |s.log|
    ensures var log := Apply(s, Commit(c)).log; k < |log| && log[j].who != log[k].who
  {
    CommitIsTheResult(s, c);
    assert EntryOk(s, j) && Apply(s, Commit(c)).log[j] == s.log[j];
    if k < |s.log| {
      assert Apply(s, Commit(c)).log[k] == s.log[k];
    }
  }

  lemma CommittersAreLogged(s: State, c: Cid, d: Cid)
    requires Inv(s) && Enabled(s, Commit(c)) && d in s.callers && (d == c || HasCommitted(s.callers[d].phase))
    ensures Logged(Apply(s, Commit(c)), d)
  {
    var s' := Apply(s, Commit(c));
    CommitIsTheResult(s, c);
    if d == c {
      assert s'.log[|s.log|].who == d;
    } else {
      assert Logged(s, d);
      var k :| 0 <= k < |s.log| && s.log[k].who == d;
      assert s'.log[k].who == d;
    }
  }

  lemma CommitLog(s: State, c: Cid)
    requires Inv(s) && Enabled(s, Commit(c))
    ensures LogOk(Apply(s, Commit(c)))
  {
    var s' := Apply(s, Commit(c));
    StepMoves(s, Commit(c));
    forall k | 0 <= k < |s'.log|
      ensures EntryOk(s', k)
    {
      CommitKeepsEntry(s, c, k);
    }
    forall j, k | 0 <= j < k < |s'.log|
      ensures s'.log[j].who != s'.log[k].who
    {
      CommitsOnce(s, c, j, k);
    }
    forall d | d in s'.callers && HasCommitted(s'.callers[d].phase)
      ensures Logged(s', d)
    {
      CommittersAreLogged(s, c, d);
    }
  }

  lemma StepLog(s: State, step: Step)
    requires Inv(s) && Enabled(s, step)
    ensures LogOk(Apply(s, step))
  {
    if step.Commit? {
      CommitLog(s, step.c);
    } else {
      if step.Crash? {
        LogStands(s, Apply(s, step));
      } else {
        StepMoves(s, step);
        MovesKeepRoles(s, Apply(s, step), step.c);
      }
    }
  }

  lemma QuietRecord(s: State, step: Step)
    requires Enabled(s, step) && Quiet(step)
    ensures Apply(s, step).files == s.files && Apply(s, step).leaked == s.leaked && SameRecord(s, Apply(s, step))
  {
  }

  lemma QuietTemp(s: State, step: Step)
    requires Enabled(s, step) && Quiet(step) && !step.Crash? && step.c in s.callers
    ensures TempOf(Apply(s, step).callers[step.c].phase) == TempOf(s.callers[step.c].phase)
  {
  }

  lemma QuietFiles(s: State, step: Step)
    requires Inv(s) && Enabled(s, step) && Quiet(step)
    ensures var s' := Apply(s, step);
            s'.files == s.files && s'.leaked == s.leaked && SameRecord(s, s') && LiveTemp(s') == LiveTemp(s)
  {
    QuietRecord(s, step);
    if step.Lock? || step.Unlock? {
      assert LiveTemp(s) == {} && LiveTemp(Apply(s, step)) == {};
    } else if !step.Crash? {
      StepMoves(s, step);
      if step.c in s.callers {
        StaysInside(s, step);
        QuietTemp(s, step);
      } else {
        assert Apply(s, step).holder == s.holder;
      }
    }
  }

  lemma WritingFiles(s: State, s': State, c: Cid, tmp: Path)
    requires Inv(s) && SameRecord(s, s') && s'.leaked == s.leaked && Moves(s, s', c) && s'.holder == s.holder == Some(c)
    requires tmp !in s.base && tmp != s.target && tmp in s'.files && s'.files - {tmp} == s.files - {tmp}
    requires TempOf(s'.callers[c].phase) == {tmp} && LiveTemp(s) <= {tmp}
    ensures FilesOk(s')
  {
    assert LiveTemp(s') == {tmp};
    forall p: Path | p != tmp
      ensures p in s'.files <==> p in s.files
      ensures p in s.files ==> s'.files[p] == s.files[p]
    {
      assert p in s.files <==> p in s.files - {tmp};
      assert p in s'.files <==> p in s'.files - {tmp};
      assert p in s.files ==> s.files[p] == (s.files - {tmp})[p] && s'.files[p] == (s'.files - {tmp})[p];
    }
  }

  lemma WriterFiles(s: State, step: Step)
    requires Inv(s) && Enabled(s, step) && (step.Create? || step.Copy? || step.WriteSome?)
    ensures FilesOk(Apply(s, step))
  {
    var s' := Apply(s, step);
    assert CallerOk(s, step.c) && s.holder == Some(step.c);
    StepMoves(s, step);
    var tmp := s'.callers[step.c].phase.tmp;
    assert s'.files - {tmp} == s.files - {tmp};
    if step.Create? {
      assert tmp !in s.base;
    } else {
      assert tmp in LiveTemp(s);
    }
    WritingFiles(s, s', step.c, tmp);
  }

  lemma CommitFiles(s: State, c: Cid)
    requires Inv(s) && Enabled(s, Commit(c))
    ensures FilesOk(Apply(s, Commit(c)))
  {
    var s' := Apply(s, Commit(c));
    var tmp := s.callers[c].phase.tmp;
    CommitIsTheResult(s, c);
    assert CallerOk(s, c) && s.holder == Some(c) && tmp in LiveTemp(s);
    assert LiveTemp(s') == {} && LiveTemp(s) == {tmp};
    forall p | p != tmp && p != s.target
      ensures At(s'.files, p) == At(s.files, p)
    {
    }
  }

  lemma CloseFiles(s: State, c: Cid, removed: bool)
    requires Inv(s) && Enabled(s, Close(c, removed))
    ensures FilesOk(Apply(s, Close(c, removed)))
  {
    var s' := Apply(s, Close(c, removed));
    assert s.holder == Some(c);
    assert LiveTemp(s') == {} && LiveTemp(s) == TempOf(s.callers[c].phase);
    assert CallerOk(s, c);
  }

  lemma StepFiles(s: State, step: Step)
    requires Inv(s) && Enabled(s, step)
    ensures FilesOk(Apply(s, step))
  {
    if Quiet(step) {
      QuietFiles(s, step);
    } else {
      match step
      case Commit(c) => CommitFiles(s, c);
      case Close(c, removed) => CloseFiles(s, c, removed);
      case _ => WriterFiles(s, step);
    }
  }

  /** Whoever is not inside has nothing for a step to disturb. */
  lemma OthersAreFine(s: State, s': State, c: Cid, d: Cid)
    requires LockOk(s') && Moves(s, s', c) && d in s.callers && d != c && s'.holder == Some(c)
    ensures CallerOk(s', d)
  {
  }

  lemma CallerStands(s: State, s': State, d: Cid)
    requires d in s.callers && CallerOk(s, d) && d in s'.callers && s'.callers[d] == s.callers[d]
    requires SameRecord(s, s') && s'.files == s.files
    ensures CallerOk(s', d)
  {
  }

  lemma StepSubject(s: State, step: Step)
    requires Inv(s) && Enabled(s, step) && !step.Crash?
    ensures step.c in Apply(s, step).callers && CallerOk(Apply(s, step), step.c)
  {
    if step.c in s.callers {
      assert CallerOk(s, step.c);
    }
    match step
    case Copy(c, k) => CopyKeeps(s, c, k);
    case WriteSome(c, k) => WriteKeeps(s, c, k);
    case Examine(c) => ExamineKeeps(s, c);
    case Create(c, name) => CreateKeeps(s, c, name);
    case _ =>
  }

  lemma CreateKeeps(s: State, c: Cid, name: Path)
    requires Inv(s) && Enabled(s, Create(c, name))
    ensures CallerOk(Apply(s, Create(c, name)), c)
  {
    assert CallerOk(s, c);
    var plan := s.callers[c].phase.plan;
    assert Ahead(plan, Current(s))[..0] + plan.data[..0] == [];
  }

  lemma StepCallers(s: State, step: Step, d: Cid)
    requires Inv(s) && Enabled(s, step) && d in Apply(s, step).callers
    ensures CallerOk(Apply(s, step), d)
  {
    var s' := Apply(s, step);
    if step.Crash? {
      CallerStands(s, s', d);
    } else {
      StepMoves(s, step);
      if d == step.c {
        StepSubject(s, step);
      } else if Quiet(step) {
        QuietFiles(s, step);
        CallerStands(s, s', d);
      } else {
        StepLock(s, step);
        OthersAreFine(s, s', step.c, d);
      }
    }
  }

  lemma ExamineKeeps(s: State, c: Cid)
    requires Inv(s) && Enabled(s, Examine(c))
    ensures CallerOk(Apply(s, Examine(c)), c)
  {
    var was := Current(s);
    var plan := PlanOf(s.max, s.callers[c].op, was);
    if plan.Some? {
      assert [] + plan.value.data == plan.value.data;
    }
  }

  lemma CopyKeeps(s: State, c: Cid, k: nat)
    requires Inv(s) && Enabled(s, Copy(c, k))
    ensures CallerOk(Apply(s, Copy(c, k)), c)
  {
    assert CallerOk(s, c);
    var p := s.callers[c].phase;
    var front := Ahead(p.plan, Current(s));
    NextPiece([], front, p.copied, k);
    assert p.plan.data[..0] == [] && front[..p.copied] + [] == [] + front[..p.copied];
    assert front[..p.copied + k] + [] == [] + front[..p.copied + k];
  }

  lemma WriteKeeps(s: State, c: Cid, k: nat)
    requires Inv(s) && Enabled(s, WriteSome(c, k))
    ensures CallerOk(Apply(s, WriteSome(c, k)), c)
  {
    assert CallerOk(s, c);
    var p := s.callers[c].phase;
    NextPiece(Ahead(p.plan, Current(s))[..p.copied], p.plan.data, p.n, k);
  }

  lemma NextPiece(front: Bytes, data: Bytes, n: nat, k: nat)
    requires n + k <= |data|
    ensures front + data[..n] + data[n..n + k] == front + data[..n + k]
  {
    assert data[..n] + data[n..n + k] == data[..n + k];
    Assoc(front, data[..n], data[n..n + k]);
  }

  lemma StepKeepsInv(s: State, step: Step)
    requires Inv(s) && Enabled(s, step)
    ensures Inv(Apply(s, step))
  {
    StepLock(s, step);
    StepLog(s, step);
    StepFiles(s, step);
    forall c | c in Apply(s, step).callers
      ensures CallerOk(Apply(s, step), c)
    {
      StepCallers(s, step, c);
    }
  }

  // -------------------------------------------------------- whole runs

  /** A run from a quiet agent: n steps, each enabled where it is taken. */
  ghost predicate Behaviour(states: seq<State>, steps: seq<Step>, target: Path, max: nat, files: Files) {
    && |states| == |steps| + 1 && states[0] == Init(target, max, files)
    && forall i :: 0 <= i < |steps| ==> Follows(states, steps, i)
  }

  predicate Follows(states: seq<State>, steps: seq<Step>, i: nat)
    requires i < |steps| && |states| == |steps| + 1
  {
    Enabled(states[i], steps[i]) && states[i + 1] == Apply(states[i], steps[i])
  }

  lemma {:induction false} RunKeepsInv(states: seq<State>, steps: seq<Step>, target: Path, max: nat, files: Files, i: nat)
    requires Behaviour(states, steps, target, max, files) && i < |states|
    ensures Inv(states[i]) && states[i].target == target && states[i].max == max && states[i].base == files
  {
    if i == 0 {
      InitOk(target, max, files);
    } else {
      RunKeepsInv(states, steps, target, max, files, i - 1);
      assert Follows(states, steps, i - 1);
      StepKeepsInv(states[i - 1], steps[i - 1]);
      StepKeepsSetting(states[i - 1], steps[i - 1]);
    }
  }

  lemma StepKeepsSetting(s: State, step: Step)
    requires Enabled(s, step)
    ensures var s' := Apply(s, step); s'.target == s.target && s'.max == s.max && s'.base == s.base
  {
  }

  /** At every moment of every run, crash or no crash, the target is what was
      there at first or exactly one committed version, whole. */
  lemma TargetIsAWholeVersion(states: seq<State>, steps: seq<Step>, target: Path, max: nat, files: Files, i: nat)
    requires Behaviour(states, steps, target, max, files) && i < |states|
    ensures At(states[i].files, target) == (if states[i].log == [] then At(files, target) else Some(states[i].log[|states[i].log| - 1].after))
  {
    RunKeepsInv(states, steps, target, max, files, i);
  }

  /** No update is lost: every committed version is its caller's own operation
      applied to the version just before it, and no caller commits twice. */
  lemma NoUpdateIsLost(states: seq<State>, steps: seq<Step>, target: Path, max: nat, files: Files, i: nat, k: nat)
    requires Behaviour(states, steps, target, max, files) && i < |states| && k < |states[i].log|
    ensures var s := states[i]; var v := s.log[k];
            && v.who in s.callers
            && v.before == (if k == 0 then At(files, target) else Some(s.log[k - 1].after))
            && Result(max, s.callers[v.who].op, v.before) == Some(v.after)
            && forall j :: 0 <= j < |s.log| && j != k ==> s.log[j].who != v.who
  {
    RunKeepsInv(states, steps, target, max, files, i);
    assert EntryOk(states[i], k);
  }

  /** A write's version, said of the files themselves: what LeftBy says. */
  lemma WriteVersionsAre(states: seq<State>, steps: seq<Step>, target: Path, max: nat, files: Files, i: nat, k: nat)
    requires Behaviour(states, steps, target, max, files) && i < |states| && k < |states[i].log|
    ensures var s, v := states[i], states[i].log[k];
            && v.who in s.callers
            && (s.callers[v.who].op.WriteOp? ==>
                  LeftBy(s.callers[v.who].op.header, s.callers[v.who].op.payload, v.before, Some(v.after)))
  {
    NoUpdateIsLost(states, steps, target, max, files, i, k);
    var v := states[i].log[k];
    if states[i].callers[v.who].op.WriteOp? {
      WantedIsLeft(v.before, states[i].callers[v.who].op.header, states[i].callers[v.who].op.payload);
    }
  }

  /** An edit's: the file was there, the edit was allowed, and only the text changed. */
  lemma EditVersionsAre(states: seq<State>, steps: seq<Step>, target: Path, max: nat, files: Files, i: nat, k: nat)
    requires Behaviour(states, steps, target, max, files) && i < |states| && k < |states[i].log|
    ensures var s, v := states[i], states[i].log[k];
            && v.who in s.callers
            && (s.callers[v.who].op.EditOp? ==>
                  && v.before.Some? && v.before.value.File? && v.after.File? && v.after.mode == v.before.value.mode % 512
                  && var r := EditFile.Edit(max, v.before.value.content, s.callers[v.who].op.req);
                     r.Edited? && r.updated == v.after.content)
  {
    NoUpdateIsLost(states, steps, target, max, files, i, k);
  }

  // ------------------------------------------------- what callers are told

  /** Some answer to c, sent after its commit, was lost. */
  ghost predicate ReplyLost(steps: seq<Step>, n: nat, c: Cid) {
    exists j :: 0 <= j < n && j < |steps| && steps[j] == Reply(c, false)
  }

  /** `ok` on its way to the caller: only a lost answer makes it differ from
      `committed`. */
  predicate ToldOk(caller: Caller, lost: bool) {
    match caller.phase
    case Replying(_) => caller.op.WriteOp? && !lost
    case Closing(_, committed, ok) => ok == (committed && !lost) && (lost ==> committed && caller.op.WriteOp?)
    case Leaving(committed, ok) => ok == (committed && !lost) && (lost ==> committed && caller.op.WriteOp?)
    case Returned(committed, ok) => ok == (committed && !lost) && (lost ==> committed && caller.op.WriteOp?)
    case _ => !lost
  }

  lemma StepTells(s: State, step: Step, c: Cid, lost: bool)
    requires Enabled(s, step) && c in Apply(s, step).callers
    requires if c in s.callers then ToldOk(s.callers[c], lost) else !lost
    ensures ToldOk(Apply(s, step).callers[c], lost || step == Reply(c, false))
  {
    if !step.Crash? {
      StepMoves(s, step);
    }
    if step.Crash? || step.c != c {
      assert Apply(s, step).callers[c] == s.callers[c];
    } else {
      StepTellsItsCaller(s, step, lost);
    }
  }

  lemma StepTellsItsCaller(s: State, step: Step, lost: bool)
    requires Enabled(s, step) && !step.Crash? && step.c in Apply(s, step).callers
    requires if step.c in s.callers then ToldOk(s.callers[step.c], lost) else !lost
    ensures ToldOk(Apply(s, step).callers[step.c], lost || step == Reply(step.c, false))
  {
    match step
    case Arrive(_, _) =>
    case Commit(_) =>
    case Reply(_, _) =>
    case Close(_, _) =>
    case Unlock(_) =>
    case _ =>
  }

  /** Nobody is answered before arriving. */
  lemma {:induction false} CallersAreTold(states: seq<State>, steps: seq<Step>, target: Path, max: nat, files: Files, i: nat, c: Cid)
    requires Behaviour(states, steps, target, max, files) && i < |states|
    ensures if c in states[i].callers then ToldOk(states[i].callers[c], ReplyLost(steps, i, c)) else !ReplyLost(steps, i, c)
  {
    if i > 0 {
      CallersAreTold(states, steps, target, max, files, i - 1, c);
      assert Follows(states, steps, i - 1);
      LostByThen(steps, i, c);
      if c in states[i].callers {
        StepTells(states[i - 1], steps[i - 1], c, ReplyLost(steps, i - 1, c));
      }
    }
  }

  lemma LostByThen(steps: seq<Step>, i: nat, c: Cid)
    requires 0 < i <= |steps|
    ensures ReplyLost(steps, i, c) <==> ReplyLost(steps, i - 1, c) || steps[i - 1] == Reply(c, false)
  {
  }

  /** Once the call has returned, `committed` is whether it is in the log. */
  lemma CommittedIsLogged(s: State, c: Cid)
    requires Inv(s) && c in s.callers && s.callers[c].phase.Returned?
    ensures s.callers[c].phase.committed <==> Logged(s, c)
  {
    if Logged(s, c) {
      var k :| 0 <= k < |s.log| && s.log[k].who == c;
      assert EntryOk(s, k);
    }
  }

  /** A reported success is in the log. For an edit the report and the log always
      agree; for a write they do as long as the answer gets through. */
  lemma SuccessMeansCommitted(states: seq<State>, steps: seq<Step>, target: Path, max: nat, files: Files, i: nat, c: Cid)
    requires Behaviour(states, steps, target, max, files) && i < |states|
    requires c in states[i].callers && states[i].callers[c].phase.Returned?
    ensures states[i].callers[c].phase.ok ==> Logged(states[i], c)
    ensures states[i].callers[c].op.EditOp? ==> (states[i].callers[c].phase.ok <==> Logged(states[i], c))
  {
    RunKeepsInv(states, steps, target, max, files, i);
    CommittedIsLogged(states[i], c);
    CallersAreTold(states, steps, target, max, files, i, c);
  }

  /** A reported error means that nothing was committed if and only if no answer was
      lost after the commit. */
  lemma FailureMeansUncommittedIff(states: seq<State>, steps: seq<Step>, target: Path, max: nat, files: Files, i: nat, c: Cid)
    requires Behaviour(states, steps, target, max, files) && i < |states|
    requires c in states[i].callers && states[i].callers[c].phase.Returned? && !states[i].callers[c].phase.ok
    ensures !Logged(states[i], c) <==> !ReplyLost(steps, i, c)
  {
    RunKeepsInv(states, steps, target, max, files, i);
    CommittedIsLogged(states[i], c);
    CallersAreTold(states, steps, target, max, files, i, c);
  }

  /** A write of an empty file whose answer is lost. */
  function LostWrite(name: Path): seq<Step> {
    [Arrive(0, EmptyWrite), Lock(0), Examine(0), Create(0, name), Commit(0), Reply(0, false), Close(0, true), Unlock(0)]
  }

  const EmptyWrite: Op := WriteOp(Header(false, false, 0), [])

  const EmptyPlan: Plan := Plan(false, [], DefaultFileMode)

  const EmptyFile: Node := File([], DefaultFileMode)

  /** With that one caller under way, and with it committed. */
  function UnderWay(target: Path, max: nat, files: Files, holder: Option<Cid>, phase: Phase): State {
    State(target, max, map[], files, true, holder, map[0 := Caller(EmptyWrite, phase)], [], {})
  }

  function Through(target: Path, max: nat, holder: Option<Cid>, phase: Phase): State {
    State(target, max, map[], map[target := EmptyFile], true, holder, map[0 := Caller(EmptyWrite, phase)],
          [Version(0, None, EmptyFile)], {})
  }

  predicate Leads(s: State, step: Step, s': State) { Enabled(s, step) && s' == Apply(s, step) }

  lemma LeadsToCommit(target: Path, name: Path, max: nat)
    requires name != target
    ensures Leads(Init(target, max, map[]), Arrive(0, EmptyWrite), UnderWay(target, max, map[], None, Queued))
    ensures Leads(UnderWay(target, max, map[], None, Queued), Lock(0), UnderWay(target, max, map[], Some(0), Holding))
    ensures Leads(UnderWay(target, max, map[], Some(0), Holding), Examine(0), UnderWay(target, max, map[], Some(0), Planned(EmptyPlan)))
    ensures var files := Created(map[], name);
            Leads(UnderWay(target, max, map[], Some(0), Planned(EmptyPlan)), Create(0, name),
                  UnderWay(target, max, files, Some(0), Writing(EmptyPlan, name, 0, 0)))
  {
  }

  lemma CommitLeadsOn(target: Path, name: Path, max: nat)
    requires name != target
    ensures Leads(UnderWay(target, max, Created(map[], name), Some(0), Writing(EmptyPlan, name, 0, 0)), Commit(0),
                  Through(target, max, Some(0), Replying(name)))
    ensures Leads(Through(target, max, Some(0), Replying(name)), Reply(0, false), Through(target, max, Some(0), Closing(name, true, false)))
    ensures Leads(Through(target, max, Some(0), Closing(name, true, false)), Close(0, true), Through(target, max, Some(0), Leaving(true, false)))
    ensures Leads(Through(target, max, Some(0), Leaving(true, false)), Unlock(0), Through(target, max, None, Returned(true, false)))
  {
  }

  /** The plain reading fails: this caller is told of an error, and its file is there. */
  lemma LostAnswerHidesACommit(target: Path, name: Path, max: nat) returns (states: seq<State>)
    requires name != target
    ensures Behaviour(states, LostWrite(name), target, max, map[])
    ensures var s := states[|LostWrite(name)|];
            && 0 in s.callers && s.callers[0].phase == Returned(true, false) && Logged(s, 0)
            && At(s.files, target) == Some(EmptyFile)
  {
    LeadsToCommit(target, name, max);
    CommitLeadsOn(target, name, max);
    states := [Init(target, max, map[]), UnderWay(target, max, map[], None, Queued), UnderWay(target, max, map[], Some(0), Holding),
               UnderWay(target, max, map[], Some(0), Planned(EmptyPlan)),
               UnderWay(target, max, Created(map[], name), Some(0), Writing(EmptyPlan, name, 0, 0)),
               Through(target, max, Some(0), Replying(name)), Through(target, max, Some(0), Closing(name, true, false)),
               Through(target, max, Some(0), Leaving(true, false)), Through(target, max, None, Returned(true, false))];
    forall i | 0 <= i < 8
      ensures Leads(states[i], LostWrite(name)[i], states[i + 1])
    {
    }
    assert states[8].log[0].who == 0;
  }

  /** While a file is being written, what there is of it is a prefix of what it will be,
      under a name of its own that only its owner may read. */
  lemma PartlyWrittenIsPrivate(states: seq<State>, steps: seq<Step>, target: Path, max: nat, files: Files, i: nat, c: Cid)
    requires Behaviour(states, steps, target, max, files) && i < |states|
    requires c in states[i].callers && states[i].callers[c].phase.Writing?
    ensures var s, tmp := states[i], states[i].callers[c].phase.tmp;
            && tmp != target && tmp !in files && IsFile(s.files, tmp) && s.files[tmp].mode == 0x180
            && var result := Result(max, s.callers[c].op, At(s.files, target));
               result.Some? && result.value.File? && s.files[tmp].content <= result.value.content
  {
    RunKeepsInv(states, steps, target, max, files, i);
    var s := states[i];
    assert CallerOk(s, c) && s.holder == Some(c) && s.callers[c].phase.tmp in LiveTemp(s);
    var p := s.callers[c].phase;
    PrefixOfWhole(Ahead(p.plan, Current(s)), p.copied, p.plan.data, p.n);
  }

  lemma PrefixOfWhole(a: Bytes, i: nat, b: Bytes, j: nat)
    requires i <= |a| && j <= |b| && (j > 0 ==> i == |a|)
    ensures a[..i] + b[..j] <= a + b
  {
  }

  /** What a caller finds decides what it does: it goes ahead exactly when the target is
      no directory and no special file, is not there if it had to be new, and, for an
      edit, is a file the edit is accepted on. */
  lemma ExamineDecides(s: State, c: Cid)
    requires Inv(s) && Enabled(s, Examine(c))
    ensures var op, was := s.callers[c].op, At(s.files, s.target);
            Apply(s, Examine(c)).callers[c].phase.Planned? <==>
            match op
            case WriteOp(h, _) => was != Some(Directory) && was != Some(Special) && (h.failIfExists ==> was == None)
            case EditOp(req) => was.Some? && was.value.File? && EditFile.Edit(s.max, was.value.content, req).Edited?
  {
  }

  /** Steps of c that bring its call on, rather than to a failure. */
  predicate GoesOn(step: Step, c: Cid) {
    && (step.Examine? || step.Create? || step.Copy? || step.WriteSome? || step.Commit? || step.Reply? || step.Close? || step.Unlock?)
    && step.c == c
  }

  /** Whoever holds the lock can always go on, given a free name when it needs one, so
      what it plans can be carried through. */
  lemma HolderCanGoOn(s: State, name: Path)
    requires Inv(s) && s.alive && s.holder.Some? && name !in s.files && name != s.target
    ensures exists step :: (GoesOn(step, s.holder.value) && Enabled(s, step) && (step.Copy? || step.WriteSome? ==> step.k > 0))
  {
    var c := s.holder.value;
    assert CallerOk(s, c);
    var p := s.callers[c].phase;
    var step := match p
      case Holding => Examine(c)
      case Planned(_) => Create(c, name)
      case Writing(plan, _, copied, n) =>
        if copied < |ToCopy(s, plan)| then Copy(c, |ToCopy(s, plan)| - copied)
        else if n < |plan.data| then WriteSome(c, |plan.data| - n)
        else Commit(c)
      case Replying(_) => Reply(c, true)
      case Closing(_, _, _) => Close(c, true)
      case _ => Unlock(c);
    assert GoesOn(step, c) && Enabled(s, step);
  }

  /** A file that was not there at first, other than the target, at any moment of any
      run: the temp file of the caller inside, or one whose removal failed. */
  ghost predicate Accounted(s: State, p: Path) {
    || p in s.leaked
    || (s.holder.Some? && s.holder.value in s.callers && p in TempOf(s.callers[s.holder.value].phase))
  }

  /** At every moment the directory holds what it held at first, the target, the temp
      file of the one caller inside, and those whose removal failed; nothing else was
      touched, and whoever has returned has left nothing but a failed removal. */
  lemma NothingIsLeftBehind(states: seq<State>, steps: seq<Step>, target: Path, max: nat, files: Files, i: nat)
    requires Behaviour(states, steps, target, max, files) && i < |states|
    ensures forall p :: p in states[i].files && p != target ==> p in files || Accounted(states[i], p)
    ensures forall p :: p in files && p != target ==> p in states[i].files && states[i].files[p] == files[p]
    ensures states[i].holder == None ==> forall p :: p in states[i].files && p != target ==> p in files || p in states[i].leaked
  {
    RunKeepsInv(states, steps, target, max, files, i);
    var s := states[i];
    assert FilesOk(s);
    forall p | p in s.files && p != target
      ensures p in files || Accounted(s, p)
    {
      assert p in s.base || p in LiveTemp(s) || p in s.leaked;
    }
  }

  /** A call that has closed its temp file, with the removal not failing, has left
      none: it grows neither the set of strays nor the directory. */
  lemma ClosedMeansGone(s: State, c: Cid)
    requires Inv(s) && Enabled(s, Close(c, true))
    ensures var s' := Apply(s, Close(c, true));
            s'.callers[c].phase.Leaving? && s'.leaked == s.leaked && LiveTemp(s') == {}
            && (!s.callers[c].phase.committed ==> s.callers[c].phase.tmp !in s'.files)
            && At(s'.files, s.target) == At(s.files, s.target)
  {
    assert CallerOk(s, c) && s.holder == Some(c);
  }

  /** An edit that was queued behind another is applied to what that one left, not
      to what it found: a later version starts from the earlier one's text. */
  lemma EditsCompose(states: seq<State>, steps: seq<Step>, target: Path, max: nat, files: Files, i: nat, k: nat)
    requires Behaviour(states, steps, target, max, files) && i < |states| && k + 1 < |states[i].log|
    requires states[i].log[k + 1].who in states[i].callers && states[i].callers[states[i].log[k + 1].who].op.EditOp?
    ensures var s := states[i];
            var req := s.callers[s.log[k + 1].who].op.req;
            && s.log[k].after.File? && s.log[k + 1].after.File?
            && EditFile.Edit(max, s.log[k].after.content, req).Edited?
            && s.log[k + 1].after.content == EditFile.Edit(max, s.log[k].after.content, req).updated
            && s.log[k + 1].after.content != s.log[k].after.content
  {
    NoUpdateIsLost(states, steps, target, max, files, i, k + 1);
    var s := states[i];
    EditFile.EditedMeansChanged(max, s.log[k].after.content, s.callers[s.log[k + 1].who].op.req);
  }
}
