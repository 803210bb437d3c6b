/** internal/agent/fs/atomic.go: a file built beside its target and renamed over it.

    The system calls' outcomes are parameters; no process outside the agent
    touches the target or the temp files.
  */
module AtomicFile {
  import opened Optional
  import opened Bytes

  type Path = string

  datatype Node = File(content: Bytes, mode: nat) | Directory | Special

  type Files = map<Path, Node>

  const TempFileMode: nat := 0x180    // 0o600
  const Attempts: nat := 10

  // ------------------------------------------ the calls, on the file map

  function At(files: Files, p: Path): Option<Node> { if p in files then Some(files[p]) else None }

  /** open(O_CREAT | O_EXCL) */
  function Created(files: Files, p: Path): Files { files[p := File([], TempFileMode)] }

  predicate IsFile(files: Files, p: Path) { p in files && files[p].File? }

  function Appended(files: Files, p: Path, data: Bytes): Files
    requires IsFile(files, p)
  {
    files[p := File(files[p].content + data, files[p].mode)]
  }

  function Chmodded(files: Files, p: Path, mode: nat): Files
    requires IsFile(files, p)
  {
    files[p := File(files[p].content, mode)]
  }

  function Renamed(files: Files, from: Path, to: Path): Files
    requires from in files
  {
    files[to := files[from]] - {from}
  }

  /** Nothing but p has changed. */
  predicate OnlyAt(was: Files, now: Files, p: Path) { was - {p} == now - {p} }

  class Disk {
    var files: Files
  }

  /** Which of Commit's calls fail. */
  datatype CommitFaults = CommitFaults(chmod: bool, sync: bool, close: bool, rename: bool)

  class Temp {
    const disk: Disk
    const target: Path
    const mode: nat
    const tmpPath: Path
    var committed: bool
    var closed: bool

    constructor (disk: Disk, target: Path, mode: nat, tmpPath: Path)
      ensures this.disk == disk && this.target == target && this.mode == mode && this.tmpPath == tmpPath
      ensures !committed && !closed
    {
      this.disk, this.target, this.mode, this.tmpPath := disk, target, mode, tmpPath;
      committed, closed := false, false;
    }

    /** The temp file is there for as long as the writer owns it. */
    ghost predicate Valid()
      reads this, disk
    {
      tmpPath != target && (!committed && !closed ==> IsFile(disk.files, tmpPath))
    }

    /** Write: `taken` bytes reach the file before the call returns. */
    method Write(p: Bytes, taken: nat) returns (ok: bool)
      requires Valid() && !committed && !closed && taken <= |p|
      modifies disk
      ensures Valid()
      ensures disk.files == Appended(old(disk.files), tmpPath, p[..taken])
      ensures ok <==> taken == |p|
    {
      disk.files := Appended(disk.files, tmpPath, p[..taken]);
      ok := taken == |p|;
    }

    /** Commit: either the target is the temp file, or the target is untouched. */
    method Commit(faults: CommitFaults) returns (ok: bool)
      requires Valid() && !committed && !closed
      modifies this`committed, disk
      ensures Valid() && committed == ok
      ensures ok <==> faults == NoFaults && At(old(disk.files), target) != Some(Directory)
      ensures ok ==> At(disk.files, target) == Some(File(old(disk.files)[tmpPath].content, mode))
      ensures ok ==> disk.files - {target} == old(disk.files) - {target, tmpPath}
      ensures !ok ==> OnlyAt(old(disk.files), disk.files, tmpPath)
    {
      ghost var was := disk.files;
      if faults.chmod {
        return false;
      }
      disk.files := Chmodded(disk.files, tmpPath, mode);
      assert disk.files - {tmpPath} == was - {tmpPath};
      if faults.sync || faults.close {
        return false;
      }
      if faults.rename || At(disk.files, target) == Some(Directory) {
        return false;
      }
      disk.files := Renamed(disk.files, tmpPath, target);
      committed := true;
      return true;
    }

    /** Close: safe to call twice, and after Commit a no-op. */
    method Close(removeFails: bool)
      requires Valid()
      modifies this`closed, disk
      ensures Valid() && closed
      ensures disk.files == if old(closed) || committed || removeFails then old(disk.files) else old(disk.files) - {tmpPath}
    {
      if closed {
        return;
      }
      closed := true;
      if committed {
        return;
      }
      if !removeFails {
        disk.files := disk.files - {tmpPath};
      }
    }
  }

  /** Which of the ten names is the first that is free. */
  predicate FirstFree(files: Files, names: seq<Path>, i: nat) {
    i < |names| && names[i] !in files && forall j :: 0 <= j < i ==> names[j] in files
  }

  /** createAtomic: the first free name of ten is taken, if it can be opened. */
  method CreateAtomic(disk: Disk, target: Path, mode: nat, names: seq<Path>, openFails: bool) returns (a: Temp?)
    requires |names| == 10 && target !in names
    modifies disk
    ensures a == null ==> disk.files == old(disk.files) && (openFails || forall n :: n in names ==> n in disk.files)
    ensures a != null ==> && fresh(a) && a.Valid() && !a.committed && !a.closed
                          && a.disk == disk && a.target == target && a.mode == mode
                          && a.tmpPath !in old(disk.files) && a.tmpPath in names && !openFails
                          && disk.files == old(disk.files)[a.tmpPath := File([], 0x180)]
    ensures forall i: nat :: FirstFree(old(disk.files), names, i) ==> if openFails then a == null else a != null && a.tmpPath == names[i]
  {
    for attempt := 0 to Attempts
      invariant disk.files == old(disk.files)
      invariant forall j :: 0 <= j < attempt ==> names[j] in disk.files
    {
      if names[attempt] in disk.files {
        continue;
      }
      ghost var was := disk.files;
      assert forall i: nat :: FirstFree(was, names, i) ==> i == attempt;
      if openFails {
        return null;
      }
      disk.files := Created(disk.files, names[attempt]);
      a := new Temp(disk, target, mode, names[attempt]);
      return a;
    }
    return null;
  }

  // ------------------------------------------------------------ the callers

  /** What the outside decides in one call: the ten random names, and which of
      the system calls fail. */
  datatype World = World(names: seq<Path>, openFails: bool, taken: nat, commit: CommitFaults, removeFails: bool)

  predicate WorldOk(w: World, target: Path) { |w.names| == Attempts && target !in w.names }

  const NoFaults := CommitFaults(false, false, false, false)

  /** One of the ten names is free, and opening it does not fail. */
  predicate CanCreate(files: Files, w: World) { !w.openFails && exists n :: n in w.names && n !in files }

  /** A failed or abandoned call: the original is untouched, and nothing else has
      changed unless removing the temp file failed too. */
  predicate Abandoned(was: Files, now: Files, w: World) {
    now == was || (w.removeFails && exists tmp :: tmp in w.names && tmp !in was && IsFile(now, tmp) && now - {tmp} == was)
  }

  /** After the temp file was created and perhaps changed, closing it uncommitted. */
  lemma AbandonedByClose(was: Files, open_: Files, now: Files, tmp: Path, w: World)
    requires tmp in w.names && tmp !in was && IsFile(open_, tmp) && OnlyAt(was, open_, tmp)
    requires now == if w.removeFails then open_ else open_ - {tmp}
    ensures Abandoned(was, now, w)
  {
    assert was - {tmp} == was;
  }

  lemma CommittedOver(was: Files, open_: Files, now: Files, tmp: Path, target: Path, node: Node)
    requires tmp !in was && tmp != target && OnlyAt(was, open_, tmp)
    requires now - {target} == open_ - {target, tmp} && At(now, target) == Some(node)
    ensures now == was[target := node]
  {
    assert was - {tmp} == was && open_ - {target, tmp} == was - {target};
    assert now == (now - {target})[target := node];
  }

  /** The end of every call: commit if all went well, and the deferred Close. */
  method CommitAndClose(tmp: Temp, go: bool, w: World, ghost was: Files) returns (ok: bool)
    requires tmp.Valid() && !tmp.committed && !tmp.closed
    requires tmp.tmpPath in w.names && tmp.tmpPath !in was && OnlyAt(was, tmp.disk.files, tmp.tmpPath)
    modifies tmp, tmp.disk
    ensures ok ==> go && tmp.disk.files == was[tmp.target := File(old(tmp.disk.files)[tmp.tmpPath].content, tmp.mode)]
    ensures !ok ==> Abandoned(was, tmp.disk.files, w)
    ensures ok <==> go && w.commit == NoFaults && At(was, tmp.target) != Some(Directory)
  {
    ghost var open_ := tmp.disk.files;
    assert was - {tmp.tmpPath} == was && At(open_, tmp.target) == At(open_ - {tmp.tmpPath}, tmp.target);
    ok := false;
    if go {
      ok := tmp.Commit(w.commit);
    }
    ghost var ended := tmp.disk.files;
    tmp.Close(w.removeFails);
    if ok {
      CommittedOver(was, open_, ended, tmp.tmpPath, tmp.target, File(open_[tmp.tmpPath].content, tmp.mode));
    } else {
      AbandonedByClose(was, ended, tmp.disk.files, tmp.tmpPath, w);
    }
  }

  /** writeWhole: all of the data under the target's name, or nothing of it. */
  method WriteWhole(disk: Disk, target: Path, data: Bytes, mode: nat, w: World) returns (ok: bool)
    requires WorldOk(w, target)
    modifies disk
    ensures ok ==> disk.files == old(disk.files)[target := File(data, mode)]
    ensures !ok ==> Abandoned(old(disk.files), disk.files, w)
    ensures ok <==> CanCreate(old(disk.files), w) && w.taken >= |data| && w.commit == NoFaults
                    && At(old(disk.files), target) != Some(Directory)
  {
    ghost var was := disk.files;
    var tmp := CreateAtomic(disk, target, mode, w.names, w.openFails);
    if tmp == null {
      return false;
    }
    var written := tmp.Write(data, if w.taken <= |data| then w.taken else |data|);
    assert written ==> [] + data[..|data|] == data;
    ok := CommitAndClose(tmp, written, w, was);
  }

  // ---------------------------------------------------------- WriteFile

  datatype Header = Header(append: bool, failIfExists: bool, mode: nat)

  /** What arrives after the header; the stream ends after the last. */
  datatype Msg = Chunk(data: Bytes) | SecondHeader | Broken

  datatype Written = Done(bytes: nat, created: bool) | IsDirectory | NotRegular | AlreadyExists | Failed

  const DefaultFileMode: nat := 0x1A4    // 0o644

  function Perm(mode: nat): nat { mode % 0x200 }

  /** The stream's chunks, end to end. */
  function Payload(msgs: seq<Msg>): Bytes {
    if msgs == [] then []
    else Payload(msgs[..|msgs| - 1]) + (match msgs[|msgs| - 1] case Chunk(d) => d case _ => [])
  }

  predicate Clean(msgs: seq<Msg>) { forall i :: 0 <= i < |msgs| ==> msgs[i].Chunk? }

  /** The message is a chunk, and a write of it takes all its bytes. */
  predicate IsTaken(msg: Msg, taken: nat) { msg.Chunk? && |msg.data| <= taken }

  predicate AllTaken(msgs: seq<Msg>, taken: nat) {
    forall i :: 0 <= i < |msgs| ==> IsTaken(msgs[i], taken)
  }

  /** What an append has to copy first. */
  function Copied(was: Option<Node>, h: Header): Bytes {
    if h.append && was.Some? && was.value.File? then was.value.content else []
  }

  /** What a write leaves at its target, said of the two nodes themselves: an existing
      file keeps its permission bits, whatever the header asks for, and only an append
      keeps its content; a new one takes the header's bits, 0644 if it names none. */
  predicate LeftBy(h: Header, payload: Bytes, was: Option<Node>, now: Option<Node>) {
    && now.Some? && now.value.File?
    && (was.None? ==> now.value.content == payload && now.value.mode == if h.mode == 0 then 420 else h.mode % 512)
    && (was.Some? ==> && was.value.File? && !h.failIfExists && now.value.mode == was.value.mode % 512
                      && now.value.content == if h.append then was.value.content + payload else payload)
  }

  /** What a completed WriteFile puts at the target, or why it refuses to start. */
  function Wanted(was: Option<Node>, h: Header, payload: Bytes): (Written, Option<Node>) {
    match was
    case Some(Directory) => (IsDirectory, None)
    case Some(Special) => (NotRegular, None)
    case Some(File(c, m)) =>
      if h.failIfExists then (AlreadyExists, None)
      else (Done(|payload|, false), Some(File((if h.append then c else []) + payload, Perm(m))))
    case None =>
      (Done(|payload|, true), Some(File(payload, if h.mode != 0 then Perm(h.mode) else DefaultFileMode)))
  }

  lemma WantedIsLeft(was: Option<Node>, h: Header, payload: Bytes)
    ensures Wanted(was, h, payload).1.Some? <==> Wanted(was, h, payload).0.Done?
    ensures Wanted(was, h, payload).0.IsDirectory? <==> was == Some(Directory)
    ensures Wanted(was, h, payload).0.NotRegular? <==> was == Some(Special)
    ensures Wanted(was, h, payload).0.AlreadyExists? <==> h.failIfExists && was.Some? && was.value.File?
    ensures !Wanted(was, h, payload).0.Failed?
    ensures Wanted(was, h, payload).0.Done? ==>
              && LeftBy(h, payload, was, Wanted(was, h, payload).1) && Wanted(was, h, payload).0 == Done(|payload|, was.None?)
  {
  }

  /** One receive: its bytes reach the temp file, or the call is over. */
  method TakeMessage(tmp: Temp, msg: Msg, taken: nat) returns (ok: bool, n: nat)
    requires tmp.Valid() && !tmp.committed && !tmp.closed
    modifies tmp.disk
    ensures tmp.Valid() && OnlyAt(old(tmp.disk.files), tmp.disk.files, tmp.tmpPath)
    ensures ok ==> msg.Chunk? && n == |msg.data|
                   && tmp.disk.files == Appended(old(tmp.disk.files), tmp.tmpPath, msg.data)
    ensures ok <==> IsTaken(msg, taken)
  {
    ghost var was := tmp.disk.files;
    n := 0;
    match msg
    case Broken => ok := false;
    case SecondHeader => ok := false;
    case Chunk(data) =>
      if |data| == 0 {
        assert was[tmp.tmpPath].content + data == was[tmp.tmpPath].content;
        assert was == Appended(was, tmp.tmpPath, data);
        return true, 0;
      }
      ok := tmp.Write(data, if taken <= |data| then taken else |data|);
      assert ok ==> data[..|data|] == data;
      n := |data|;
  }

  /** The receive loop. */
  method Receive(tmp: Temp, msgs: seq<Msg>, taken: nat) returns (ok: bool, received: nat)
    requires tmp.Valid() && !tmp.committed && !tmp.closed
    modifies tmp.disk
    ensures tmp.Valid() && OnlyAt(old(tmp.disk.files), tmp.disk.files, tmp.tmpPath)
    ensures ok ==> Clean(msgs) && received == |Payload(msgs)|
    ensures ok ==> tmp.disk.files[tmp.tmpPath].content == old(tmp.disk.files)[tmp.tmpPath].content + Payload(msgs)
    ensures ok <==> AllTaken(msgs, taken)
  {
    ghost var base := tmp.disk.files[tmp.tmpPath].content;
    ok := true;
    received := 0;
    var i := 0;
    while ok && i < |msgs|
      invariant i <= |msgs| && tmp.Valid()
      invariant OnlyAt(old(tmp.disk.files), tmp.disk.files, tmp.tmpPath)
      invariant ok ==> Clean(msgs[..i]) && received == |Payload(msgs[..i])|
                       && tmp.disk.files[tmp.tmpPath].content == base + Payload(msgs[..i])
      invariant if ok then AllTaken(msgs[..i], taken) else !AllTaken(msgs, taken)
    {
      var n;
      ok, n := TakeMessage(tmp, msgs[i], taken);
      if ok {
        assert msgs[..i + 1][..i] == msgs[..i];
        Assoc(base, Payload(msgs[..i]), msgs[i].data);
        received := received + n;
        i := i + 1;
      }
    }
    assert ok ==> msgs[..i] == msgs;
  }

  /** WriteFile, from the header to the commit and the deferred Close, the path's lock
      being held; Done is the answer it then tries to send. */
  method WriteFile(disk: Disk, target: Path, h: Header, msgs: seq<Msg>, w: World, cancelled: bool) returns (r: Written)
    requires WorldOk(w, target)
    modifies disk
    ensures r.Done? ==> && Clean(msgs)
                        && var want := Wanted(At(old(disk.files), target), h, Payload(msgs));
                        r == want.0 && disk.files == old(disk.files)[target := want.1.value]
    ensures r.IsDirectory? || r.NotRegular? || r.AlreadyExists? ==>
              r == Wanted(At(old(disk.files), target), h, []).0 && disk.files == old(disk.files)
    ensures !r.Done? ==> Abandoned(old(disk.files), disk.files, w)
    ensures var was := At(old(disk.files), target);
            if !Wanted(was, h, []).0.Done? then r == Wanted(was, h, []).0
            else r.Done? <==> CanCreate(old(disk.files), w) && |Copied(was, h)| <= w.taken && AllTaken(msgs, w.taken)
                              && !cancelled && w.commit == NoFaults
    ensures r.IsDirectory? <==> At(old(disk.files), target) == Some(Directory)
    ensures r.NotRegular? <==> At(old(disk.files), target) == Some(Special)
    ensures r.AlreadyExists? <==> h.failIfExists && target in old(disk.files) && old(disk.files)[target].File?
    ensures r.Done? ==> && r.bytes == |Payload(msgs)| && (r.created <==> target !in old(disk.files))
                        && LeftBy(h, Payload(msgs), At(old(disk.files), target), At(disk.files, target))
                        && disk.files - {target} == old(disk.files) - {target}
  {
    ghost var was := disk.files;
    var existing := At(disk.files, target);
    if existing == Some(Directory) {
      return IsDirectory;
    }
    if existing == Some(Special) {
      return NotRegular;
    }
    if existing.Some? && h.failIfExists {
      return AlreadyExists;
    }
    var created := existing.None?;
    var mode := DefaultFileMode;
    if !created {
      mode := Perm(existing.value.mode);
    } else if h.mode != 0 {
      mode := Perm(h.mode);
    }
    var tmp := CreateAtomic(disk, target, mode, w.names, w.openFails);
    if tmp == null {
      return Failed;
    }
    var ok := true;
    ghost var base: Bytes := [];
    if h.append && !created {
      base := existing.value.content;
      ok := tmp.Write(existing.value.content, if w.taken <= |existing.value.content| then w.taken else |existing.value.content|);
      assert ok ==> [] + base[..|base|] == base;
    }
    var received := 0;
    if ok {
      ok, received := Receive(tmp, msgs, w.taken);
    }
    assert base == [] ==> base + Payload(msgs) == Payload(msgs);
    ok := CommitAndClose(tmp, ok && !cancelled, w, was);
    r := if ok then Done(received, created) else Failed;
    WantedIsLeft(At(was, target), h, Payload(msgs));
  }
}
