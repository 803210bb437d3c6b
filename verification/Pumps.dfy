/** internal/tunnel/tunnel.go and internal/agent/forward/service.go: the four pump
    loops themselves, one goroutine each. What the world answers is a parameter: the
    reads, the outcome of each send or write, the messages and how they end. The ghost
    trace shows that a loop takes Tunnel's steps with just those answers.
  */
module Pumps {
  import opened Optional
  import opened Bytes
  import opened Tunnel

  // ------------------------------------------------------------ the world

  /** One read of a socket: what it returned, and whether an error came with it. */
  datatype Got = Got(data: Bytes, end: End)

  predicate GotOk(g: Got) { |g.data| <= CopyBuffer && (g.end == More ==> g.data != []) }

  /** What a socket will be read to give: an end comes last. */
  predicate Reads(gots: seq<Got>) {
    && gots != [] && gots[|gots| - 1].end != More
    && forall i :: 0 <= i < |gots| ==> GotOk(gots[i])
  }

  /** The outcome of the k-th send. */
  function SendOk(sends: seq<bool>, k: nat): bool { k < |sends| ==> sends[k] }

  /** The outcome of one write. */
  datatype Put = Put(n: nat, ok: bool)

  predicate PutOk(w: Put, data: Bytes, shut: bool) {
    w.n <= |data| && (w.ok ==> w.n == |data| && !shut) && (shut ==> w.n == 0)
  }

  /** The k-th write; one to a half that is shut fails at once. */
  function PutOf(puts: seq<Put>, k: nat, data: Bytes, shut: bool): (w: Put)
    ensures PutOk(w, data, shut)
  {
    if shut then Put(0, false)
    else if k < |puts| && !puts[k].ok && puts[k].n <= |data| then puts[k]
    else Put(|data|, true)
  }

  // ------------------------------------------------------------- one step

  /** A pump's pipe, how many reads or messages it has taken, and how many sends or
      writes it has made. */
  datatype Cursor = Cursor(p: Pipe, i: nat, k: nat)

  /** A state in which only this pipe has moved. */
  function Alone(up: bool, p: Pipe): State { SetPipe(Start, up, p) }

  /** The next step of a sending pump, given the world's answers. */
  function SenderNext(up: bool, gots: seq<Got>, sends: seq<bool>, c: Cursor): Cursor
    requires c.p.sender.Reading? ==> c.i < |gots|
  {
    match c.p.sender
    case Reading => Cursor(ReadPipe(c.p, gots[c.i].data, gots[c.i].end), c.i + 1, c.k)
    case Sending(_, _) => Cursor(SendPipe(Alone(up, c.p), up, SendOk(sends, c.k)), c.i, c.k + 1)
    case SendingClose(_) => Cursor(SendClosePipe(Alone(up, c.p), up, SendOk(sends, c.k)), c.i, c.k + 1)
    case ClosingSend(end) => c.(p := c.p.(sender := SenderDone(end.Broken?)))
    case SenderDone(_) => c
  }

  /** The next step of a receiving pump; `fails` says how the stream ends behind the
      messages. */
  function ReceiverNext(up: bool, fails: bool, puts: seq<Put>, c: Cursor): Cursor {
    match c.p.receiver
    case Receiving =>
      if c.p.queue != [] then Cursor(RecvPipe(c.p, up), c.i + 1, c.k)
      else c.(p := if fails then c.p.(shut := c.p.shut || !up, receiver := ReceiverDone(true))
                   else c.p.(shut := true, receiver := ReceiverDone(false)))
    case Writing(data) =>
      var w := PutOf(puts, c.k, data, c.p.shut);
      Cursor(WritePipe(c.p, w.n, w.ok), c.i, c.k + 1)
    case ReceiverDone(_) => c
  }

  ghost predicate SenderMoves(up: bool, gots: seq<Got>, sends: seq<bool>, c: Cursor, d: Cursor) {
    !c.p.sender.SenderDone? && (c.p.sender.Reading? ==> c.i < |gots|) && d == SenderNext(up, gots, sends, c)
  }

  ghost predicate ReceiverMoves(up: bool, fails: bool, puts: seq<Put>, c: Cursor, d: Cursor) {
    !c.p.receiver.ReceiverDone? && d == ReceiverNext(up, fails, puts, c)
  }

  /** A pump's history, from a fresh pipe: each cursor follows from the one before. */
  ghost predicate Sends(up: bool, gots: seq<Got>, sends: seq<bool>, trace: seq<Cursor>, last: Cursor) {
    && trace != [] && trace[0] == Cursor(FreshPipe, 0, 0) && trace[|trace| - 1] == last
    && forall j :: 0 < j < |trace| ==> SenderMoves(up, gots, sends, trace[j - 1], trace[j])
  }

  ghost predicate Receives(up: bool, msgs: seq<Msg>, fails: bool, puts: seq<Put>, trace: seq<Cursor>, last: Cursor) {
    && trace != [] && trace[0] == Cursor(FreshPipe.(queue := msgs), 0, 0) && trace[|trace| - 1] == last
    && forall j :: 0 < j < |trace| ==> ReceiverMoves(up, fails, puts, trace[j - 1], trace[j])
  }

  lemma SendsOn(up: bool, gots: seq<Got>, sends: seq<bool>, trace: seq<Cursor>, c: Cursor, d: Cursor)
    requires Sends(up, gots, sends, trace, c) && SenderMoves(up, gots, sends, c, d)
    ensures Sends(up, gots, sends, trace + [d], d)
  {
  }

  lemma ReceivesOn(up: bool, msgs: seq<Msg>, fails: bool, puts: seq<Put>, trace: seq<Cursor>, c: Cursor, d: Cursor)
    requires Receives(up, msgs, fails, puts, trace, c) && ReceiverMoves(up, fails, puts, c, d)
    ensures Receives(up, msgs, fails, puts, trace + [d], d)
  {
  }

  // ------------------------------------------- they are the protocol's steps

  function SendingStep(up: bool, gots: seq<Got>, sends: seq<bool>, c: Cursor): Step
    requires c.p.sender.Reading? ==> c.i < |gots|
  {
    match c.p.sender
    case Reading => Read(up, gots[c.i].data, gots[c.i].end)
    case Sending(_, _) => Send(up, SendOk(sends, c.k))
    case SendingClose(_) => SendClose(up, SendOk(sends, c.k))
    case _ => CloseSend
  }

  /** The state lets the world answer as it does. */
  predicate SenderMay(s: State, up: bool, gots: seq<Got>, sends: seq<bool>, c: Cursor) {
    match c.p.sender
    case Reading => c.i < |gots| && GotOk(gots[c.i]) && !NearClosed(s, up)
    case Sending(_, _) => if SendOk(sends, c.k) then !Lost(s) else SendMayFail(s, up)
    case SendingClose(_) => if SendOk(sends, c.k) then !Lost(s) else SendMayFail(s, up)
    case ClosingSend(_) => up
    case SenderDone(_) => false
  }

  /** In every state of the protocol that has this pipe and lets the world answer so,
      the loop's move is an enabled step, and does to the pipe what the loop did. */
  lemma SenderMovesAreSteps(s: State, up: bool, gots: seq<Got>, sends: seq<bool>, c: Cursor)
    requires PipeOf(s, up) == c.p && SenderMay(s, up, gots, sends, c)
    ensures var step := SendingStep(up, gots, sends, c);
            && step.Pump() && step.IsUp() == up && Enabled(s, step)
            && PipeOf(Apply(s, step), up) == SenderNext(up, gots, sends, c).p
  {
    PumpStepFrame(s, SendingStep(up, gots, sends, c));
  }

  function ReceivingStep(up: bool, fails: bool, puts: seq<Put>, c: Cursor): Step {
    match c.p.receiver
    case Receiving => if c.p.queue != [] then Recv(up) else if fails then RecvErr(up) else RecvEof(up)
    case Writing(data) =>
      var w := PutOf(puts, c.k, data, c.p.shut);
      Write(up, w.n, w.ok)
    case ReceiverDone(_) => Recv(up)
  }

  predicate ReceiverMay(s: State, up: bool, fails: bool, puts: seq<Put>, c: Cursor) {
    match c.p.receiver
    case Receiving =>
      c.p.queue != [] || (if fails then Lost(s) || (!up && s.ended == Some(false)) else if up then s.upClosed else s.ended == Some(true))
    case Writing(data) => !FarClosed(s, up) || (!PutOf(puts, c.k, data, c.p.shut).ok && PutOf(puts, c.k, data, c.p.shut).n == 0)
    case ReceiverDone(_) => false
  }

  lemma ReceiverMovesAreSteps(s: State, up: bool, fails: bool, puts: seq<Put>, c: Cursor)
    requires PipeOf(s, up) == c.p && ReceiverMay(s, up, fails, puts, c)
    ensures var step := ReceivingStep(up, fails, puts, c);
            && step.Pump() && step.IsUp() == up && Enabled(s, step)
            && PipeOf(Apply(s, step), up) == ReceiverNext(up, fails, puts, c).p
  {
    PumpStepFrame(s, ReceivingStep(up, fails, puts, c));
  }

  // --------------------------------------------------- what a sender sends

  /** The first read that ends the socket. */
  function FirstEnd(gots: seq<Got>, i: nat): (e: nat)
    requires Reads(gots) && i < |gots|
    ensures i <= e < |gots| && gots[e].end != More && forall j :: i <= j < e ==> gots[j].end == More
    decreases |gots| - i
  {
    if gots[i].end != More then i else FirstEnd(gots, i + 1)
  }

  /** The data of the first n reads, one message each. */
  function Datas(gots: seq<Got>, n: nat): seq<Msg>
    requires n <= |gots|
  {
    if n == 0 then [] else if gots[n - 1].data == [] then Datas(gots, n - 1) else Datas(gots, n - 1) + [Data(gots[n - 1].data)]
  }

  lemma {:induction false} DatasGrow(gots: seq<Got>, i: nat, n: nat)
    requires i <= n <= |gots|
    ensures IsPrefix(Datas(gots, i), Datas(gots, n))
    decreases n
  {
    if i < n {
      DatasGrow(gots, i, n - 1);
    }
  }

  /** Everything a socket gives up to its end. */
  function AllData(gots: seq<Got>): seq<Msg>
    requires Reads(gots)
  {
    Datas(gots, FirstEnd(gots, 0) + 1)
  }

  predicate FirstFailure(sends: seq<bool>, f: nat) { !SendOk(sends, f) && forall k :: 0 <= k < f ==> SendOk(sends, k) }

  ghost predicate NoneFails(sends: seq<bool>, n: nat) { forall k :: 0 <= k < n ==> SendOk(sends, k) }

  /** What follows the data: a close, if it can be sent. */
  function Closing(sends: seq<bool>, n: nat): seq<Msg> { if SendOk(sends, n) then [Close] else [] }

  /** What localToStream leaves behind: all that was read up to the socket's end and
      then a close, or what was sent before the first send that failed. */
  ghost predicate LocalSent(gots: seq<Got>, sends: seq<bool>, sent: seq<Msg>, closed: bool, bad: bool)
    requires Reads(gots)
  {
    var all := AllData(gots);
    && (NoneFails(sends, |all|) ==> sent == all + Closing(sends, |all|) && closed && bad == gots[FirstEnd(gots, 0)].end.Broken?)
    && forall f: nat :: f < |all| && FirstFailure(sends, f) ==> sent == all[..f] && !closed && !bad
  }

  /** What socketToStream leaves behind; it counts the read whose send failed too. */
  ghost predicate AgentSent(gots: seq<Got>, sends: seq<bool>, sent: seq<Msg>, fromRemote: nat, bad: bool)
    requires Reads(gots)
  {
    var all := AllData(gots);
    && (NoneFails(sends, |all|) ==>
          && sent == all + Closing(sends, |all|) && fromRemote == |Flat(all)|
          && bad == (gots[FirstEnd(gots, 0)].end.Broken? || !SendOk(sends, |all|)))
    && forall f: nat :: f < |all| && FirstFailure(sends, f) ==> sent == all[..f] && bad && fromRemote == |Flat(all[..f + 1])|
  }

  /** Either no send fails, or one of them is the first to. */
  lemma NoneOrFirst(sends: seq<bool>, n: nat, f: nat)
    ensures NoneFails(sends, n) && f < n ==> !FirstFailure(sends, f)
    ensures forall g: nat :: FirstFailure(sends, f) && FirstFailure(sends, g) ==> g == f
  {
  }

  lemma LocalEnds(gots: seq<Got>, sends: seq<bool>, i: nat, sent: seq<Msg>)
    requires Reads(gots) && i == FirstEnd(gots, 0) && sent == Datas(gots, i + 1) && NoneFails(sends, |sent|)
    ensures LocalSent(gots, sends, sent + Closing(sends, |sent|), true, gots[i].end.Broken?)
    ensures AgentSent(gots, sends, sent + Closing(sends, |sent|), |Flat(sent)|, gots[i].end.Broken? || !SendOk(sends, |sent|))
  {
    forall f: nat | f < |sent|
      ensures !FirstFailure(sends, f)
    {
      NoneOrFirst(sends, |sent|, f);
    }
  }

  lemma FailureDecides(gots: seq<Got>, sends: seq<bool>, f: nat)
    requires Reads(gots) && f < |AllData(gots)| && FirstFailure(sends, f)
    ensures LocalSent(gots, sends, AllData(gots)[..f], false, false)
    ensures AgentSent(gots, sends, AllData(gots)[..f], |Flat(AllData(gots)[..f + 1])|, true)
  {
    NoneOrFirst(sends, |AllData(gots)|, f);
  }

  lemma StopsAtFailure(gots: seq<Got>, sends: seq<bool>, i: nat, sent: seq<Msg>)
    requires Reads(gots) && i <= FirstEnd(gots, 0) && FirstFailure(sends, |sent|)
    requires sent == Datas(gots, i) && |Datas(gots, i + 1)| == |sent| + 1
    ensures LocalSent(gots, sends, sent, false, false)
    ensures AgentSent(gots, sends, sent, |Flat(Datas(gots, i + 1))|, true)
  {
    DatasGrow(gots, i, FirstEnd(gots, 0) + 1);
    DatasGrow(gots, i + 1, FirstEnd(gots, 0) + 1);
    FailureDecides(gots, sends, |sent|);
  }

  /** The loop in the middle of its work: every read so far was sent. */
  ghost predicate AllSentSoFar(up: bool, gots: seq<Got>, sends: seq<bool>, trace: seq<Cursor>, c: Cursor, i: nat, sent: seq<Msg>) {
    && Reads(gots) && i <= FirstEnd(gots, 0) && sent == Datas(gots, i) && NoneFails(sends, |sent|)
    && Sends(up, gots, sends, trace, c) && c.i == i && c.k == |sent| && c.p.sender.Reading? && c.p.queue == sent
    && |c.p.read| == |Flat(sent)|
  }

  /** One read and, if it gave data, one send. */
  method ReadAndSend(up: bool, gots: seq<Got>, sends: seq<bool>, i: nat, was: seq<Msg>, ghost trace: seq<Cursor>, ghost c: Cursor)
    returns (ok: bool, sent: seq<Msg>, ghost trace': seq<Cursor>, ghost d: Cursor)
    requires AllSentSoFar(up, gots, sends, trace, c, i, was)
    ensures |Datas(gots, i + 1)| >= |was| && Sends(up, gots, sends, trace', d) && d.i == i + 1
    ensures d.p.queue == sent && |d.p.read| == |Flat(Datas(gots, i + 1))|
    ensures ok <==> NoneFails(sends, |Datas(gots, i + 1)|)
    ensures ok ==> sent == Datas(gots, i + 1) && d.k == |sent| && d.p.sender == AfterData(gots[i].end)
    ensures !ok ==> sent == was && FirstFailure(sends, |was|) && |Datas(gots, i + 1)| == |was| + 1 && d.p.sender == SenderDone(!up)
  {
    var g := gots[i];
    d := SenderNext(up, gots, sends, c);
    SendsOn(up, gots, sends, trace, c, d);
    trace', sent, ok := trace + [d], was, true;
    if |g.data| > 0 {
      FlatAppend(was, Data(g.data));
      ok := SendOk(sends, |was|);
      ghost var e := SenderNext(up, gots, sends, d);
      SendsOn(up, gots, sends, trace', d, e);
      trace', d := trace' + [e], e;
      if ok {
        sent := was + [Data(g.data)];
      }
    }
  }

  /** localToStream. Every read up to the socket's end is sent, then a close; a send
      that fails stops it there, quietly; only a socket that failed is reported. */
  method LocalToStream(gots: seq<Got>, sends: seq<bool>) returns (bad: bool, sent: seq<Msg>, closed: bool, ghost trace: seq<Cursor>)
    requires Reads(gots)
    ensures LocalSent(gots, sends, sent, closed, bad)
    ensures exists c :: Sends(true, gots, sends, trace, c) && c.p.sender == SenderDone(bad) && c.p.queue == sent
  {
    ghost var c := Cursor(FreshPipe, 0, 0);
    trace := [c];
    sent, closed := [], false;
    var i := 0;
    while true
      invariant AllSentSoFar(true, gots, sends, trace, c, i, sent) && !closed
      decreases |gots| - i
    {
      var ok;
      ghost var was := sent;
      ok, sent, trace, c := ReadAndSend(true, gots, sends, i, sent, trace, c);
      if !ok {
        StopsAtFailure(gots, sends, i, was);
        return false, sent, closed, trace;
      }
      if gots[i].end != More {
        LocalEnds(gots, sends, i, sent);
        ok, trace, c := SendTheClose(true, gots, sends, trace, c, |sent|);
        sent := sent + (if ok then [Close] else []);
        ghost var d := SenderNext(true, gots, sends, c);
        SendsOn(true, gots, sends, trace, c, d);
        trace, c := trace + [d], d;
        return gots[i].end == Broken, sent, true, trace;
      }
      i := i + 1;
    }
  }

  /** The close event. */
  method SendTheClose(up: bool, gots: seq<Got>, sends: seq<bool>, ghost trace: seq<Cursor>, ghost c: Cursor, k: nat)
    returns (ok: bool, ghost trace': seq<Cursor>, ghost d: Cursor)
    requires Sends(up, gots, sends, trace, c) && c.p.sender.SendingClose? && c.k == k
    ensures ok == SendOk(sends, k) && d == SenderNext(up, gots, sends, c) && Sends(up, gots, sends, trace', d)
    ensures d.p.queue == c.p.queue + Closing(sends, k) && d.p.read == c.p.read
    ensures d.p.sender == if up then ClosingSend(c.p.sender.end) else SenderDone(!ok || c.p.sender.end.Broken?)
  {
    ok := SendOk(sends, k);
    d := SenderNext(up, gots, sends, c);
    SendsOn(up, gots, sends, trace, c, d);
    trace' := trace + [d];
    assert !ok ==> c.p.queue + [] == c.p.queue;
  }

  /** socketToStream. The same for the agent, which counts what it reads, reports a
      send that fails, and reports a failed socket after passing it on as a close. */
  method SocketToStream(gots: seq<Got>, sends: seq<bool>) returns (bad: bool, sent: seq<Msg>, fromRemote: nat, ghost trace: seq<Cursor>)
    requires Reads(gots)
    ensures AgentSent(gots, sends, sent, fromRemote, bad)
    ensures exists c :: Sends(false, gots, sends, trace, c) && c.p.sender == SenderDone(bad) && c.p.queue == sent && |c.p.read| == fromRemote
  {
    ghost var c := Cursor(FreshPipe, 0, 0);
    trace := [c];
    sent, fromRemote := [], 0;
    var i := 0;
    while true
      invariant AllSentSoFar(false, gots, sends, trace, c, i, sent) && fromRemote == |c.p.read|
      decreases |gots| - i
    {
      var ok;
      ghost var was := sent;
      fromRemote := fromRemote + |gots[i].data|;
      ok, sent, trace, c := ReadAndSend(false, gots, sends, i, sent, trace, c);
      CountedRead(gots, i);
      if !ok {
        StopsAtFailure(gots, sends, i, was);
        return true, sent, fromRemote, trace;
      }
      if gots[i].end != More {
        LocalEnds(gots, sends, i, sent);
        ok, trace, c := SendTheClose(false, gots, sends, trace, c, |sent|);
        sent := sent + (if ok then [Close] else []);
        return !ok || gots[i].end == Broken, sent, fromRemote, trace;
      }
      i := i + 1;
    }
  }

  lemma CountedRead(gots: seq<Got>, i: nat)
    requires i < |gots|
    ensures |Flat(Datas(gots, i + 1))| == |Flat(Datas(gots, i))| + |gots[i].data|
  {
    FlatAppend(Datas(gots, i), Data(gots[i].data));
  }

  // ----------------------------------------------- what a receiver writes

  /** The first close, or the end of the messages. */
  function FirstClose(msgs: seq<Msg>, i: nat): (c: nat)
    requires i <= |msgs|
    ensures i <= c <= |msgs| && (c < |msgs| ==> msgs[c].Close?) && forall j :: i <= j < c ==> msgs[j].Data?
    decreases |msgs| - i
  {
    if i == |msgs| || msgs[i].Close? then i else FirstClose(msgs, i + 1)
  }

  /** What the first n messages give to write. */
  function Writes(msgs: seq<Msg>, n: nat): seq<Bytes>
    requires n <= |msgs|
  {
    if n == 0 then [] else if msgs[n - 1].Payload() == [] then Writes(msgs, n - 1) else Writes(msgs, n - 1) + [msgs[n - 1].Payload()]
  }

  function AllWrites(msgs: seq<Msg>): seq<Bytes> { Writes(msgs, FirstClose(msgs, 0)) }

  function Joined(ws: seq<Bytes>, n: nat): Bytes
    requires n <= |ws|
  {
    if n == 0 then [] else Joined(ws, n - 1) + ws[n - 1]
  }

  lemma {:induction false} WritesGrow(msgs: seq<Msg>, i: nat, n: nat)
    requires i <= n <= |msgs|
    ensures IsPrefix(Writes(msgs, i), Writes(msgs, n))
    decreases n
  {
    if i < n {
      WritesGrow(msgs, i, n - 1);
    }
  }

  lemma {:induction false} JoinedFront(a: seq<Bytes>, b: seq<Bytes>, n: nat)
    requires IsPrefix(a, b) && n <= |a|
    ensures Joined(a, n) == Joined(b, n)
  {
    if n > 0 {
      JoinedFront(a, b, n - 1);
      assert b[..|a|][n - 1] == a[n - 1];
    }
  }

  lemma {:induction false} WritesAreFlat(msgs: seq<Msg>, n: nat)
    requires n <= |msgs|
    ensures Joined(Writes(msgs, n), |Writes(msgs, n)|) == Flat(msgs[..n])
  {
    if n == 0 {
      assert msgs[..0] == [];
    } else {
      WritesAreFlat(msgs, n - 1);
      assert msgs[..n] == msgs[..n - 1] + [msgs[n - 1]];
      FlatAppend(msgs[..n - 1], msgs[n - 1]);
      JoinedFront(Writes(msgs, n - 1), Writes(msgs, n), |Writes(msgs, n - 1)|);
    }
  }

  predicate FirstBad(puts: seq<Put>, ws: seq<Bytes>, f: nat) {
    f < |ws| && !PutOf(puts, f, ws[f], false).ok && forall k :: 0 <= k < f ==> PutOf(puts, k, ws[k], false).ok
  }

  ghost predicate NoneBad(puts: seq<Put>, ws: seq<Bytes>) { forall k :: 0 <= k < |ws| ==> PutOf(puts, k, ws[k], false).ok }

  /** Where a write that fails leaves the socket: everything before it, and what of it
      was taken. */
  function CutAt(puts: seq<Put>, ws: seq<Bytes>, f: nat): Bytes
    requires f < |ws|
  {
    Joined(ws, f) + ws[f][..PutOf(puts, f, ws[f], false).n]
  }

  /** There is data to write behind the first close. */
  predicate MoreBehind(msgs: seq<Msg>) { exists i :: FirstClose(msgs, 0) < i < |msgs| && msgs[i].Payload() != [] }

  /** What streamToSocket leaves behind: all that came before the first close, and the
      write half shut by it or by a clean end; or what went before a failed write. */
  ghost predicate SocketGot(msgs: seq<Msg>, fails: bool, puts: seq<Put>, written: Bytes, shut: bool, bad: bool) {
    var c, ws := FirstClose(msgs, 0), AllWrites(msgs);
    && (NoneBad(puts, ws) ==> written == Flat(msgs[..c]) && shut == (c < |msgs| || !fails) && bad == (c == |msgs| && fails))
    && forall f: nat :: FirstBad(puts, ws, f) ==> written == CutAt(puts, ws, f) && !shut && !bad
  }

  /** What streamToLocal leaves behind: the same bytes, the write half always shut, and
      an error only if the stream's own end was reached and was one. */
  ghost predicate LocalGot(msgs: seq<Msg>, fails: bool, puts: seq<Put>, written: Bytes, shut: bool, bad: bool) {
    var c, ws := FirstClose(msgs, 0), AllWrites(msgs);
    && (NoneBad(puts, ws) ==> written == Flat(msgs[..c]) && shut && bad == (fails && !MoreBehind(msgs)))
    && forall f: nat :: FirstBad(puts, ws, f) ==> written == CutAt(puts, ws, f) && !shut && !bad
  }

  lemma NoneBadOrFirst(puts: seq<Put>, ws: seq<Bytes>, f: nat)
    requires FirstBad(puts, ws, f)
    ensures !NoneBad(puts, ws) && forall g: nat :: FirstBad(puts, ws, g) ==> g == f
  {
  }

  lemma NoneIsFirst(puts: seq<Put>, ws: seq<Bytes>)
    requires NoneBad(puts, ws)
    ensures forall f: nat :: !FirstBad(puts, ws, f)
  {
  }

  /** The loop before any close: everything so far was written. */
  ghost predicate AllWrittenSoFar(up: bool, msgs: seq<Msg>, fails: bool, puts: seq<Put>, trace: seq<Cursor>, c: Cursor, i: nat, k: nat, written: Bytes) {
    && i <= FirstClose(msgs, 0) && Receives(up, msgs, fails, puts, trace, c)
    && c.k == k == |Writes(msgs, i)| && NoneBad(puts, Writes(msgs, i))
    && c.p.queue == msgs[i..] && c.p.receiver.Receiving? && c.p.written == written == Joined(Writes(msgs, i), k) && !c.p.shut
  }

  lemma SoFarIsAll(up: bool, msgs: seq<Msg>, fails: bool, puts: seq<Put>, trace: seq<Cursor>, c: Cursor, i: nat, k: nat, written: Bytes)
    requires AllWrittenSoFar(up, msgs, fails, puts, trace, c, i, k, written) && i == FirstClose(msgs, 0)
    ensures NoneBad(puts, AllWrites(msgs)) && written == Flat(msgs[..i])
    ensures forall f: nat :: !FirstBad(puts, AllWrites(msgs), f)
  {
    WritesAreFlat(msgs, i);
    NoneIsFirst(puts, AllWrites(msgs));
  }

  lemma BadWriteDecides(msgs: seq<Msg>, fails: bool, puts: seq<Put>, f: nat)
    requires FirstBad(puts, AllWrites(msgs), f)
    ensures SocketGot(msgs, fails, puts, CutAt(puts, AllWrites(msgs), f), false, false)
    ensures LocalGot(msgs, fails, puts, CutAt(puts, AllWrites(msgs), f), false, false)
  {
    NoneBadOrFirst(puts, AllWrites(msgs), f);
  }

  /** The first writes of all are those of the messages so far. */
  lemma FrontOfWrites(msgs: seq<Msg>, i: nat, k: nat)
    requires i < FirstClose(msgs, 0) && msgs[i].Payload() != [] && k == |Writes(msgs, i)|
    ensures var ws := AllWrites(msgs);
            k < |ws| && ws[..k] == Writes(msgs, i) && ws[k] == msgs[i].Payload() && Joined(ws, k) == Joined(Writes(msgs, i), k)
  {
    var ws := AllWrites(msgs);
    WritesGrow(msgs, i, FirstClose(msgs, 0));
    WritesGrow(msgs, i + 1, FirstClose(msgs, 0));
    assert ws[..k + 1][k] == msgs[i].Payload();
    JoinedFront(Writes(msgs, i), ws, k);
  }

  /** The write of message i, the k-th, fails. */
  lemma StopsAtBadWrite(msgs: seq<Msg>, fails: bool, puts: seq<Put>, i: nat, k: nat, w: Put)
    requires i < FirstClose(msgs, 0) && msgs[i].Payload() != [] && k == |Writes(msgs, i)| && NoneBad(puts, Writes(msgs, i))
    requires w == PutOf(puts, k, msgs[i].Payload(), false) && !w.ok
    ensures var written := Joined(Writes(msgs, i), k) + msgs[i].Payload()[..w.n];
            SocketGot(msgs, fails, puts, written, false, false) && LocalGot(msgs, fails, puts, written, false, false)
  {
    var ws := AllWrites(msgs);
    FrontOfWrites(msgs, i, k);
    forall j | 0 <= j < k
      ensures PutOf(puts, j, ws[j], false).ok
    {
      assert ws[j] == ws[..k][j];
    }
    BadWriteDecides(msgs, fails, puts, k);
  }

  /** One data message before any close: received, and written if it holds anything. */
  method TakeData(up: bool, msgs: seq<Msg>, ghost fails: bool, puts: seq<Put>, i: nat, k: nat, was: Bytes, ghost trace: seq<Cursor>, ghost c: Cursor)
    returns (ok: bool, k': nat, written: Bytes, ghost trace': seq<Cursor>, ghost d: Cursor)
    requires AllWrittenSoFar(up, msgs, fails, puts, trace, c, i, k, was) && i < FirstClose(msgs, 0)
    ensures ok ==> AllWrittenSoFar(up, msgs, fails, puts, trace', d, i + 1, k', written)
    ensures !ok ==> SocketGot(msgs, fails, puts, written, false, false) && LocalGot(msgs, fails, puts, written, false, false)
    ensures !ok ==> Receives(up, msgs, fails, puts, trace', d) && d.p.receiver == ReceiverDone(false) && d.p.written == written && !d.p.shut
  {
    var data := msgs[i].bytes;
    d := ReceiverNext(up, fails, puts, c);
    ReceivesOn(up, msgs, fails, puts, trace, c, d);
    trace', ok, k', written := trace + [d], true, k, was;
    assert msgs[i..][1..] == msgs[i + 1..];
    if |data| > 0 {
      var w := PutOf(puts, k, data, false);
      ghost var e := ReceiverNext(up, fails, puts, d);
      ReceivesOn(up, msgs, fails, puts, trace', d, e);
      trace', d := trace' + [e], e;
      k', ok, written := k + 1, w.ok, was + data[..w.n];
      if !ok {
        StopsAtBadWrite(msgs, fails, puts, i, k, w);
      } else {
        JoinedFront(Writes(msgs, i), Writes(msgs, i + 1), k);
        assert data[..|data|] == data;
      }
    }
  }

  /** streamToSocket: a close or a clean end of the stream shuts the write half and
      ends the loop, a failed end ends it, a failed write ends it quietly; every byte
      written is counted. */
  method StreamToSocket(msgs: seq<Msg>, fails: bool, puts: seq<Put>)
    returns (bad: bool, written: Bytes, shut: bool, toRemote: nat, ghost trace: seq<Cursor>)
    ensures SocketGot(msgs, fails, puts, written, shut, bad) && toRemote == |written|
    ensures exists c :: Receives(true, msgs, fails, puts, trace, c) && c.p.receiver == ReceiverDone(bad)
                        && c.p.written == written && c.p.shut == shut
  {
    ghost var c := Cursor(FreshPipe.(queue := msgs), 0, 0);
    trace := [c];
    assert msgs[0..] == msgs;
    written, shut, toRemote := [], false, 0;
    var i, k := 0, 0;
    while i < |msgs| && msgs[i].Data?
      invariant AllWrittenSoFar(true, msgs, fails, puts, trace, c, i, k, written) && toRemote == |written|
      decreases |msgs| - i
    {
      var ok;
      ghost var was := written;
      ok, k, written, trace, c := TakeData(true, msgs, fails, puts, i, k, written, trace, c);
      toRemote := |written|;
      if !ok {
        return false, written, false, toRemote, trace;
      }
      i := i + 1;
    }
    SoFarIsAll(true, msgs, fails, puts, trace, c, i, k, written);
    ghost var d := ReceiverNext(true, fails, puts, c);
    ReceivesOn(true, msgs, fails, puts, trace, c, d);
    trace, c := trace + [d], d;
    shut := i < |msgs| || !fails;
    bad := i == |msgs| && fails;
  }

  /** streamToLocal's loop behind the first close: the bytes before it are written, and
      nothing since has held data. */
  ghost predicate ShutSoFar(msgs: seq<Msg>, fails: bool, puts: seq<Put>, trace: seq<Cursor>, c: Cursor, i: nat, written: Bytes) {
    var first := FirstClose(msgs, 0);
    && first < i <= |msgs| && (forall j :: first < j < i ==> msgs[j].Payload() == [])
    && NoneBad(puts, AllWrites(msgs)) && written == Flat(msgs[..first])
    && Receives(false, msgs, fails, puts, trace, c) && c.p.queue == msgs[i..] && c.p.receiver.Receiving?
    && c.p.written == written && c.p.shut
  }

  lemma LocalEnd(msgs: seq<Msg>, fails: bool, puts: seq<Put>, written: Bytes, bad: bool)
    requires NoneBad(puts, AllWrites(msgs)) && written == Flat(msgs[..FirstClose(msgs, 0)])
    requires bad == (fails && !MoreBehind(msgs))
    ensures LocalGot(msgs, fails, puts, written, true, bad)
  {
    NoneIsFirst(puts, AllWrites(msgs));
  }

  /** A close: the write half is shut, and the loop goes on. */
  lemma ShutByClose(msgs: seq<Msg>, fails: bool, puts: seq<Put>, trace: seq<Cursor>, c: Cursor, i: nat, k: nat, written: Bytes)
    requires AllWrittenSoFar(false, msgs, fails, puts, trace, c, i, k, written) && i < |msgs| && msgs[i].Close?
    ensures var d := ReceiverNext(false, fails, puts, c);
            ShutSoFar(msgs, fails, puts, trace + [d], d, i + 1, written)
  {
    var d := ReceiverNext(false, fails, puts, c);
    ReceivesOn(false, msgs, fails, puts, trace, c, d);
    SoFarIsAll(false, msgs, fails, puts, trace, c, i, k, written);
    assert msgs[i..][1..] == msgs[i + 1..];
  }

  /** A message behind the close that holds no data. */
  lemma PassesBehindClose(msgs: seq<Msg>, fails: bool, puts: seq<Put>, trace: seq<Cursor>, c: Cursor, i: nat, written: Bytes)
    requires ShutSoFar(msgs, fails, puts, trace, c, i, written) && i < |msgs| && msgs[i].Payload() == []
    ensures var d := ReceiverNext(false, fails, puts, c);
            ShutSoFar(msgs, fails, puts, trace + [d], d, i + 1, written)
  {
    var d := ReceiverNext(false, fails, puts, c);
    ReceivesOn(false, msgs, fails, puts, trace, c, d);
    assert msgs[i..][1..] == msgs[i + 1..];
  }

  /** Data behind the close cannot be written, and ends the loop. */
  method WriteBehindClose(msgs: seq<Msg>, ghost fails: bool, ghost puts: seq<Put>, i: nat, written: Bytes, ghost trace: seq<Cursor>, ghost c: Cursor)
    returns (ghost trace': seq<Cursor>, ghost d: Cursor)
    requires ShutSoFar(msgs, fails, puts, trace, c, i, written) && i < |msgs| && msgs[i].Payload() != []
    ensures LocalGot(msgs, fails, puts, written, true, false) && Receives(false, msgs, fails, puts, trace', d)
    ensures d.p.receiver == ReceiverDone(false) && d.p.written == written && d.p.shut
  {
    ghost var e := ReceiverNext(false, fails, puts, c);
    ReceivesOn(false, msgs, fails, puts, trace, c, e);
    d := ReceiverNext(false, fails, puts, e);
    ReceivesOn(false, msgs, fails, puts, trace + [e], e, d);
    trace' := trace + [e] + [d];
    assert written + msgs[i].bytes[..0] == written;
    assert MoreBehind(msgs);
    LocalEnd(msgs, fails, puts, written, false);
  }

  /** streamToLocal: a close shuts the write half and the loop goes on to the stream's
      own end, which shuts it too; a write that fails ends it quietly. */
  method StreamToLocal(msgs: seq<Msg>, fails: bool, puts: seq<Put>) returns (bad: bool, written: Bytes, shut: bool, ghost trace: seq<Cursor>)
    ensures LocalGot(msgs, fails, puts, written, shut, bad)
    ensures exists c :: Receives(false, msgs, fails, puts, trace, c) && c.p.receiver == ReceiverDone(bad)
                        && c.p.written == written && c.p.shut == shut
  {
    ghost var c := Cursor(FreshPipe.(queue := msgs), 0, 0);
    trace := [c];
    assert msgs[0..] == msgs;
    written, shut := [], false;
    var i, k := 0, 0;
    while i < |msgs|
      invariant if shut then ShutSoFar(msgs, fails, puts, trace, c, i, written)
                else AllWrittenSoFar(false, msgs, fails, puts, trace, c, i, k, written)
      decreases |msgs| - i
    {
      if msgs[i].Close? || (shut && |msgs[i].bytes| == 0) {
        if shut {
          PassesBehindClose(msgs, fails, puts, trace, c, i, written);
        } else {
          ShutByClose(msgs, fails, puts, trace, c, i, k, written);
        }
        c := ReceiverNext(false, fails, puts, c);
        trace, shut := trace + [c], true;
      } else if shut {
        trace, c := WriteBehindClose(msgs, fails, puts, i, written, trace, c);
        return false, written, true, trace;
      } else {
        var ok;
        ok, k, written, trace, c := TakeData(false, msgs, fails, puts, i, k, written, trace, c);
        if !ok {
          return false, written, false, trace;
        }
      }
      i := i + 1;
    }
    if !shut {
      SoFarIsAll(false, msgs, fails, puts, trace, c, i, k, written);
    }
    LocalEnd(msgs, fails, puts, written, fails);
    ghost var d := ReceiverNext(false, fails, puts, c);
    ReceivesOn(false, msgs, fails, puts, trace, c, d);
    trace, c := trace + [d], d;
    shut, bad := true, fails;
  }
}
