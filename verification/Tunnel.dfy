/** internal/tunnel/tunnel.go composed with internal/agent/forward/service.go:
    one forwarded connection, from `Carry`'s two pumps to the handler's two.

    Each direction is a `Pipe`: a socket read by a sending pump, a FIFO of stream
    messages, and a receiving pump that writes the other socket.  The pumps'
    branches differ between the two ends, and so do the ways a pump can end.
  */
module Tunnel {
  import opened Optional

  import opened Bytes

  const CopyBuffer: nat := 32 * 1024

  datatype Msg = Data(bytes: Bytes) | Close {
    function Payload(): Bytes { if Data? then bytes else [] }
  }

  function Flat(queue: seq<Msg>): Bytes {
    if queue == [] then [] else queue[0].Payload() + Flat(queue[1..])
  }

  lemma {:induction false} FlatAppend(queue: seq<Msg>, m: Msg)
    ensures Flat(queue + [m]) == Flat(queue) + m.Payload()
  {
    if queue == [] {
      assert [m][1..] == [];
    } else {
      FlatAppend(queue[1..], m);
      assert (queue + [m])[1..] == queue[1..] + [m] && (queue + [m])[0] == queue[0];
      var head, tail, last := queue[0].Payload(), Flat(queue[1..]), m.Payload();
      assert head + (tail + last) == (head + tail) + last;
    }
  }

  // --------------------------------------------------------------- pumps

  /** How a read of the near socket ended: more to come, an ordinary close, or a
      socket that failed. */
  datatype End = More | Eof | Broken

  datatype Sender =
    | Reading
    | Sending(data: Bytes, end: End)
    | SendingClose(end: End)
    | ClosingSend(end: End)          // the client's CloseSend
    | SenderDone(bad: bool)
  {
    function Unsent(): Bytes { if Sending? then data else [] }
    /** The half-close has not been put on the stream yet. */
    predicate Open() { Reading? || Sending? || SendingClose? }
  }

  datatype Receiver = Receiving | Writing(data: Bytes) | ReceiverDone(bad: bool) {
    function InHand(): Bytes { if Writing? then data else [] }
  }

  datatype Pipe = Pipe(
    read: Bytes,        // everything read from the near socket
    sender: Sender,
    queue: seq<Msg>,
    receiver: Receiver,
    written: Bytes,     // everything written to the far socket
    shut: bool)         // the far socket's write half has been shut down

  const FreshPipe := Pipe([], Reading, [], Receiving, [], false)

  datatype CarryResult = SendError | RecvError | Clean

  /** `up` carries local bytes to the sandbox, `down` the other way. */
  datatype State = State(
    up: Pipe,
    down: Pipe,
    upClosed: bool,            // CloseSend reached the stream
    ended: Option<bool>,       // the agent's handler returned, cleanly or not
    cancelled: bool,           // Carry's stream context
    broken: bool,              // the transport failed
    localClosed: bool,
    sockClosed: bool,
    returned: Option<CarryResult>,
    toRemote: nat,             // the agent's audit counters
    fromRemote: nat,
    failed: bool)              // some socket or the stream has failed

  const Start := State(FreshPipe, FreshPipe, false, None, false, false, false, false, None, 0, 0, false)

  datatype Step =
    | Read(up: bool, data: Bytes, end: End)
    | Send(up: bool, ok: bool)
    | SendClose(up: bool, ok: bool)
    | CloseSend
    | Recv(up: bool)
    | RecvEof(up: bool)
    | RecvErr(up: bool)
    | Write(up: bool, n: nat, ok: bool)
    | Cancel
    | CloseLocal
    | Join
    | CloseSock
    | HandlerReturns(auditFails: bool)
    | Break
    | Teardown
  {
    /** One of the four pumps' own steps, on the pipe that pump serves. */
    predicate Pump() { Read? || Send? || SendClose? || CloseSend? || Recv? || RecvEof? || RecvErr? || Write? }
    predicate IsUp() { CloseSend? || (Pump() && up) }
  }

  function PipeOf(s: State, up: bool): Pipe { if up then s.up else s.down }

  function SetPipe(s: State, up: bool, p: Pipe): State {
    if up then s.(up := p) else s.(down := p)
  }

  predicate Lost(s: State) { s.cancelled || s.broken }

  predicate NearClosed(s: State, up: bool) { if up then s.localClosed else s.sockClosed }

  predicate FarClosed(s: State, up: bool) { if up then s.sockClosed else s.localClosed }

  /** A Send fails only once the stream is gone; the client also learns of a
      handler that has returned. */
  predicate SendMayFail(s: State, up: bool) { Lost(s) || (up && s.ended.Some?) }

  predicate Enabled(s: State, step: Step) {
    match step
    case Read(up, data, end) =>
      && PipeOf(s, up).sender.Reading? && |data| <= CopyBuffer
      && (if NearClosed(s, up) then data == [] && end == Eof else end == More ==> data != [])
    case Send(up, ok) => PipeOf(s, up).sender.Sending? && (!ok ==> SendMayFail(s, up))
    case SendClose(up, ok) => PipeOf(s, up).sender.SendingClose? && (!ok ==> SendMayFail(s, up))
    case CloseSend => s.up.sender.ClosingSend?
    case Recv(up) => PipeOf(s, up).receiver.Receiving? && PipeOf(s, up).queue != []
    case RecvEof(up) =>
      && PipeOf(s, up).receiver.Receiving? && PipeOf(s, up).queue == []
      && (if up then s.upClosed else s.ended == Some(true))
    case RecvErr(up) =>
      && PipeOf(s, up).receiver.Receiving?
      && (Lost(s) || (!up && s.down.queue == [] && s.ended == Some(false)))
    case Write(up, n, ok) =>
      && var p := PipeOf(s, up);
      && p.receiver.Writing? && n <= |p.receiver.data|
      && (ok ==> n == |p.receiver.data| && !FarClosed(s, up) && !p.shut)
      && (!ok && (FarClosed(s, up) || p.shut) ==> n == 0)
    case Cancel => !s.cancelled && (s.up.sender == SenderDone(true) || s.down.receiver.ReceiverDone?)
    case CloseLocal => s.cancelled && !s.localClosed
    case Join =>
      s.returned.None? && s.up.sender.SenderDone? && s.down.receiver.ReceiverDone? && s.cancelled
    case CloseSock => Lost(s) && !s.sockClosed
    case HandlerReturns(_) => s.ended.None? && s.up.receiver.ReceiverDone? && s.down.sender.SenderDone?
    case Break => !s.broken
    case Teardown => !s.cancelled
  }

  function AfterData(end: End): Sender { if end.More? then Reading else SendingClose(end) }

  function Enqueue(s: State, p: Pipe, m: Msg): seq<Msg> { if Lost(s) then p.queue else p.queue + [m] }

  function ReadPipe(p: Pipe, data: Bytes, end: End): Pipe {
    p.(read := p.read + data, sender := if data != [] then Sending(data, end) else AfterData(end))
  }

  /** localToStream returns nil when a Send fails, socketToStream the error. */
  function SendPipe(s: State, up: bool, ok: bool): Pipe
    requires PipeOf(s, up).sender.Sending?
  {
    var p := PipeOf(s, up);
    if ok then p.(queue := Enqueue(s, p, Data(p.sender.data)), sender := AfterData(p.sender.end))
    else p.(sender := SenderDone(!up))
  }

  /** The client goes on to CloseSend whatever became of its Close event; the
      agent reports a close that could not be sent, or the failure it is about. */
  function SendClosePipe(s: State, up: bool, ok: bool): Pipe
    requires PipeOf(s, up).sender.SendingClose?
  {
    var p := PipeOf(s, up);
    p.(queue := if ok then Enqueue(s, p, Close) else p.queue,
       sender := if up then ClosingSend(p.sender.end) else SenderDone(!ok || p.sender.end.Broken?))
  }

  /** A Close ends streamToSocket; streamToLocal keeps receiving after one. */
  function RecvPipe(p: Pipe, up: bool): Pipe
    requires p.queue != []
  {
    var m, rest := p.queue[0], p.queue[1..];
    if m.Close? then p.(queue := rest, shut := true, receiver := if up then ReceiverDone(false) else Receiving)
    else if m.bytes == [] then p.(queue := rest)
    else p.(queue := rest, receiver := Writing(m.bytes))
  }

  function WritePipe(p: Pipe, n: nat, ok: bool): Pipe
    requires p.receiver.Writing? && n <= |p.receiver.data|
  {
    p.(written := p.written + p.receiver.data[..n], receiver := if ok then Receiving else ReceiverDone(false))
  }

  /** What a pump's step does to its own pipe. */
  function NextPipe(s: State, step: Step): Pipe
    requires step.Pump() && Enabled(s, step)
  {
    var p := PipeOf(s, step.IsUp());
    match step
    case Read(_, data, end) => ReadPipe(p, data, end)
    case Send(up, ok) => SendPipe(s, up, ok)
    case SendClose(up, ok) => SendClosePipe(s, up, ok)
    case CloseSend => p.(sender := SenderDone(p.sender.end.Broken?))
    case Recv(up) => RecvPipe(p, up)
    case RecvEof(_) => p.(shut := true, receiver := ReceiverDone(false))
    case RecvErr(up) => p.(shut := p.shut || !up, receiver := ReceiverDone(true))
    case Write(_, n, ok) => WritePipe(p, n, ok)
  }

  /** Everything else a pump's step changes. */
  function Noted(s: State, step: Step): State
    requires step.Pump() && Enabled(s, step)
  {
    match step
    case Read(up, data, end) =>
      s.(failed := s.failed || end.Broken?, fromRemote := if up then s.fromRemote else s.fromRemote + |data|)
    case CloseSend => s.(upClosed := s.upClosed || !Lost(s))
    case Write(up, n, ok) =>
      s.(failed := s.failed || (!ok && !FarClosed(s, up) && !PipeOf(s, up).shut),
         toRemote := if up then s.toRemote + n else s.toRemote)
    case _ => s
  }

  function Control(s: State, step: Step): State
    requires !step.Pump() && Enabled(s, step)
  {
    match step
    case Cancel => s.(cancelled := true)
    case CloseLocal => s.(localClosed := true)
    case Join =>
      s.(returned := Some(if s.up.sender.bad then SendError else if s.down.receiver.bad then RecvError else Clean))
    case CloseSock => s.(sockClosed := true)
    case HandlerReturns(auditFails) =>
      s.(ended := Some(!auditFails && !s.down.sender.bad && !s.up.receiver.bad), sockClosed := true)
    case Break => s.(broken := true, failed := true)
    case Teardown => s.(cancelled := true, failed := true)
  }

  function Apply(s: State, step: Step): State
    requires Enabled(s, step)
  {
    if step.Pump() then SetPipe(Noted(s, step), step.IsUp(), NextPipe(s, step)) else Control(s, step)
  }

  ghost predicate Run(states: seq<State>, steps: seq<Step>) {
    && |states| == |steps| + 1
    && states[0] == Start
    && forall i :: 0 <= i < |steps| ==> Follows(states, steps, i)
  }

  predicate Follows(states: seq<State>, steps: seq<Step>, i: nat)
    requires i < |steps| && |states| == |steps| + 1
  {
    Enabled(states[i], steps[i]) && states[i + 1] == Apply(states[i], steps[i])
  }

  // ------------------------------------------------------ no byte is made up

  /** Bytes delivered, in hand, queued and not yet sent are, in that order, the
      bytes read; a lost stream may drop a tail, never a byte in the middle. */
  ghost predicate PipeInv(p: Pipe, lost: bool) {
    if p.receiver.ReceiverDone? then p.written <= p.read
    else if lost then p.written + p.receiver.InHand() + Flat(p.queue) <= p.read
    else p.read == p.written + p.receiver.InHand() + Flat(p.queue) + p.sender.Unsent()
  }

  lemma ReadKeepsPipe(p: Pipe, data: Bytes, end: End, lost: bool)
    requires PipeInv(p, lost) && p.sender.Reading?
    ensures PipeInv(ReadPipe(p, data, end), lost)
  {
    var p' := ReadPipe(p, data, end);
    assert p'.sender.Unsent() == data;
    if !lost && !p.receiver.ReceiverDone? {
      assert p.read + data == p.written + p.receiver.InHand() + Flat(p.queue) + data;
    }
  }

  lemma SendKeepsPipe(s: State, up: bool, ok: bool)
    requires Enabled(s, Send(up, ok)) && PipeInv(PipeOf(s, up), Lost(s))
    requires up && s.ended.Some? ==> s.up.receiver.ReceiverDone?
    ensures PipeInv(SendPipe(s, up, ok), Lost(s))
  {
    var p := PipeOf(s, up);
    FlatAppend(p.queue, Data(p.sender.data));
    if ok && !Lost(s) && !p.receiver.ReceiverDone? {
      assert p.written + p.receiver.InHand() + (Flat(p.queue) + p.sender.data)
          == p.written + p.receiver.InHand() + Flat(p.queue) + p.sender.data;
    }
  }

  lemma SendCloseKeepsPipe(s: State, up: bool, ok: bool)
    requires Enabled(s, SendClose(up, ok)) && PipeInv(PipeOf(s, up), Lost(s))
    ensures PipeInv(SendClosePipe(s, up, ok), Lost(s))
  {
    FlatAppend(PipeOf(s, up).queue, Close);
    assert forall b: Bytes :: b + [] == b;
  }

  lemma RecvKeepsPipe(p: Pipe, up: bool, lost: bool)
    requires PipeInv(p, lost) && p.receiver.Receiving? && p.queue != []
    ensures PipeInv(RecvPipe(p, up), lost)
  {
    var m, rest := p.queue[0], p.queue[1..];
    assert Flat(p.queue) == m.Payload() + Flat(rest);
    assert p.written + [] + (m.Payload() + Flat(rest)) == p.written + m.Payload() + Flat(rest);
  }

  lemma WriteKeepsPipe(p: Pipe, n: nat, ok: bool, lost: bool)
    requires PipeInv(p, lost) && p.receiver.Writing? && n <= |p.receiver.data| && (ok ==> n == |p.receiver.data|)
    ensures PipeInv(WritePipe(p, n, ok), lost)
  {
    var d := p.receiver.data;
    assert p.written + d <= p.read;
    assert p.written + d[..n] <= p.written + d;
    if ok {
      assert d[..n] == d && (p.written + d) + [] == p.written + d;
    }
  }

  lemma StopKeepsPipe(p: Pipe, p': Pipe, lost: bool)
    requires PipeInv(p, lost) && p'.receiver.ReceiverDone? && p'.read == p.read && p'.written == p.written
    ensures PipeInv(p', lost)
  {
  }

  lemma NextPipeKeepsPipe(s: State, step: Step)
    requires step.Pump() && Enabled(s, step) && PipeInv(PipeOf(s, step.IsUp()), Lost(s))
    requires s.ended.Some? ==> s.up.receiver.ReceiverDone?
    ensures PipeInv(NextPipe(s, step), Lost(s))
  {
    var p := PipeOf(s, step.IsUp());
    match step
    case Read(_, data, end) => ReadKeepsPipe(p, data, end, Lost(s));
    case Send(up, ok) => SendKeepsPipe(s, up, ok);
    case SendClose(up, ok) => SendCloseKeepsPipe(s, up, ok);
    case CloseSend => assert NextPipe(s, step).sender.Unsent() == p.sender.Unsent();
    case Recv(up) => RecvKeepsPipe(p, up, Lost(s));
    case RecvEof(_) => StopKeepsPipe(p, NextPipe(s, step), Lost(s));
    case RecvErr(_) => StopKeepsPipe(p, NextPipe(s, step), Lost(s));
    case Write(_, n, ok) => WriteKeepsPipe(p, n, ok, Lost(s));
  }

  lemma NotedFrame(s: State, step: Step)
    requires step.Pump() && Enabled(s, step)
    ensures var s' := Noted(s, step);
            && s'.up == s.up && s'.down == s.down
            && s'.ended == s.ended && s'.cancelled == s.cancelled && s'.broken == s.broken
            && s'.localClosed == s.localClosed && s'.sockClosed == s.sockClosed && s'.returned == s.returned
  {
  }

  /** A pump leaves the other direction and the stream's fate alone. */
  lemma PumpStepFrame(s: State, step: Step)
    requires step.Pump() && Enabled(s, step)
    ensures var s', up := Apply(s, step), step.IsUp();
            && PipeOf(s', up) == NextPipe(s, step) && PipeOf(s', !up) == PipeOf(s, !up)
            && s'.ended == s.ended && s'.cancelled == s.cancelled && s'.broken == s.broken
            && s'.localClosed == s.localClosed && s'.sockClosed == s.sockClosed && s'.returned == s.returned
  {
    NotedFrame(s, step);
  }

  lemma PumpStepsAreFinal(s: State, step: Step)
    requires step.Pump() && Enabled(s, step)
    ensures var p, p' := PipeOf(s, step.IsUp()), NextPipe(s, step);
            && (p.receiver.ReceiverDone? ==> p'.receiver.ReceiverDone?)
            && (p.sender.SenderDone? ==> p'.sender.SenderDone?)
            && (p'.sender.ClosingSend? && !p.sender.ClosingSend? ==> step.IsUp())
  {
  }

  ghost predicate ByteInv(s: State) {
    && PipeInv(s.up, Lost(s)) && PipeInv(s.down, Lost(s))
    && (s.ended.Some? ==> s.up.receiver.ReceiverDone? && s.down.sender.SenderDone?)
    && !s.down.sender.ClosingSend?
  }

  lemma PumpKeepsBytes(s: State, step: Step)
    requires ByteInv(s) && Enabled(s, step) && step.Pump()
    ensures ByteInv(Apply(s, step))
  {
    NextPipeKeepsPipe(s, step);
    PumpStepFrame(s, step);
    PumpStepsAreFinal(s, step);
  }

  /** Losing the stream asks less of a pipe. */
  lemma LossKeepsPipe(p: Pipe, lost: bool)
    requires PipeInv(p, lost)
    ensures PipeInv(p, true)
  {
  }

  lemma ControlKeepsPipes(s: State, step: Step)
    requires Enabled(s, step) && !step.Pump()
    ensures Apply(s, step).up == s.up && Apply(s, step).down == s.down && (Lost(s) ==> Lost(Apply(s, step)))
    ensures Apply(s, step).ended.Some? && s.ended.None? ==> s.up.receiver.ReceiverDone? && s.down.sender.SenderDone?
  {
    match step
    case Cancel =>
    case CloseLocal =>
    case Join =>
    case CloseSock =>
    case HandlerReturns(_) =>
    case Break =>
    case Teardown =>
  }

  lemma StepKeepsBytes(s: State, step: Step)
    requires ByteInv(s) && Enabled(s, step)
    ensures ByteInv(Apply(s, step))
  {
    if step.Pump() {
      PumpKeepsBytes(s, step);
    } else {
      ControlKeepsPipes(s, step);
      LossKeepsPipe(s.up, Lost(s));
      LossKeepsPipe(s.down, Lost(s));
    }
  }

  lemma {:induction false} RunKeepsBytes(states: seq<State>, steps: seq<Step>, i: nat)
    requires Run(states, steps) && i <= |steps|
    ensures ByteInv(states[i])
  {
    if i > 0 {
      assert Follows(states, steps, i - 1);
      RunKeepsBytes(states, steps, i - 1);
      StepKeepsBytes(states[i - 1], steps[i - 1]);
    }
  }

  /** At all times, and whatever fails, what reached each far socket is a prefix
      of what was read at the near one; the audit counters are those lengths. */
  lemma DeliveredIsAPrefix(states: seq<State>, steps: seq<Step>, i: nat)
    requires Run(states, steps) && i <= |steps|
    ensures states[i].up.written <= states[i].up.read && states[i].down.written <= states[i].down.read
    ensures states[i].toRemote == |states[i].up.written| && states[i].fromRemote == |states[i].down.read|
  {
    RunKeepsBytes(states, steps, i);
    CountersAreLengths(states, steps, i);
    WrittenFirst(states[i].up, Lost(states[i]));
    WrittenFirst(states[i].down, Lost(states[i]));
  }

  lemma WrittenFirst(p: Pipe, lost: bool)
    requires PipeInv(p, lost)
    ensures p.written <= p.read
  {
  }

  /** Only a read adds to what was read and only a write to what was written. */
  lemma PumpStepLengths(s: State, step: Step)
    requires step.Pump() && Enabled(s, step)
    ensures var p, p' := PipeOf(s, step.IsUp()), NextPipe(s, step);
            && |p'.written| == |p.written| + (if step.Write? then step.n else 0)
            && |p'.read| == |p.read| + (if step.Read? then |step.data| else 0)
  {
  }

  lemma NotedCounters(s: State, step: Step)
    requires step.Pump() && Enabled(s, step)
    ensures Noted(s, step).toRemote == s.toRemote + (if step.Write? && step.up then step.n else 0)
    ensures Noted(s, step).fromRemote == s.fromRemote + (if step.Read? && !step.up then |step.data| else 0)
  {
  }

  lemma StepKeepsCounters(s: State, step: Step)
    requires Enabled(s, step) && s.toRemote == |s.up.written| && s.fromRemote == |s.down.read|
    ensures var s' := Apply(s, step); s'.toRemote == |s'.up.written| && s'.fromRemote == |s'.down.read|
  {
    if step.Pump() {
      PumpStepFrame(s, step);
      PumpStepLengths(s, step);
      NotedCounters(s, step);
    }
  }

  lemma {:induction false} CountersAreLengths(states: seq<State>, steps: seq<Step>, i: nat)
    requires Run(states, steps) && i <= |steps|
    ensures states[i].toRemote == |states[i].up.written| && states[i].fromRemote == |states[i].down.read|
  {
    if i > 0 {
      assert Follows(states, steps, i - 1);
      CountersAreLengths(states, steps, i - 1);
      StepKeepsCounters(states[i - 1], steps[i - 1]);
    }
  }

  // ------------------------------------------- runs in which nothing failed

  predicate OnlyData(queue: seq<Msg>) { forall k :: 0 <= k < |queue| ==> queue[k].Data? }

  predicate SenderClean(sender: Sender) {
    match sender
    case Reading => true
    case Sending(_, end) => !end.Broken?
    case SendingClose(end) => !end.Broken?
    case ClosingSend(end) => !end.Broken?
    case SenderDone(bad) => !bad
  }

  /** The half-close travels behind every byte, and shutting the far write half
      is what its arrival does. */
  ghost predicate PipeClean(p: Pipe, up: bool) {
    && SenderClean(p.sender)
    && (p.receiver.ReceiverDone? ==> p.shut)
    && (up && p.shut ==> p.receiver.ReceiverDone?)
    && (if p.shut then p.queue == [] && !p.sender.Open() && !p.receiver.Writing? && p.written == p.read
        else if p.sender.Open() then OnlyData(p.queue)
        else p.queue != [] && p.queue[|p.queue| - 1].Close? && OnlyData(p.queue[..|p.queue| - 1]))
  }

  ghost predicate CleanInv(s: State) {
    && PipeClean(s.up, true) && PipeClean(s.down, false)
    && !s.broken
    && (s.cancelled ==> s.down.receiver.ReceiverDone?)
    && (s.down.receiver.ReceiverDone? ==> s.ended.Some?)
    && (s.localClosed ==> s.cancelled)
    && (s.sockClosed ==> s.ended.Some?)
    && (s.upClosed ==> !s.up.sender.Open())
  }

  lemma RecvKeepsClean(p: Pipe, up: bool)
    requires PipeInv(p, false) && PipeClean(p, up) && p.receiver.Receiving? && p.queue != []
    ensures PipeClean(RecvPipe(p, up), up)
  {
    var m, rest := p.queue[0], p.queue[1..];
    if m.Close? {
      assert |p.queue| == 1;
      assert rest == [] && Flat(p.queue) == [];
      assert p.read == p.written;
    } else if !p.sender.Open() {
      assert |p.queue| > 1;
      assert rest[|rest| - 1] == p.queue[|p.queue| - 1];
      assert rest[..|rest| - 1] == p.queue[1..|p.queue| - 1];
    }
  }

  lemma DataJoins(p: Pipe, up: bool)
    requires PipeClean(p, up) && p.sender.Sending?
    ensures PipeClean(p.(queue := p.queue + [Data(p.sender.data)], sender := AfterData(p.sender.end)), up)
  {
  }

  lemma CloseJoins(p: Pipe, up: bool, next: Sender)
    requires PipeClean(p, up) && p.sender.SendingClose? && !next.Open() && SenderClean(next)
    ensures PipeClean(p.(queue := p.queue + [Close], sender := next), up)
  {
    assert (p.queue + [Close])[..|p.queue|] == p.queue;
  }

  lemma SendKeepsClean(s: State, step: Step)
    requires CleanInv(s) && Enabled(s, step) && (step.Send? || step.SendClose?)
    requires s.ended.Some? ==> s.up.receiver.ReceiverDone? && s.down.sender.SenderDone?
    ensures PipeClean(NextPipe(s, step), step.IsUp())
  {
    var p := PipeOf(s, step.IsUp());
    assert !Lost(s) && step.ok;
    if step.Send? {
      DataJoins(p, step.up);
    } else {
      CloseJoins(p, step.up, NextPipe(s, step).sender);
    }
  }

  lemma NextPipeKeepsClean(s: State, step: Step)
    requires ByteInv(s) && CleanInv(s) && step.Pump() && Enabled(s, step) && !Noted(s, step).failed
    ensures PipeClean(NextPipe(s, step), step.IsUp())
  {
    if step.Send? || step.SendClose? {
      SendKeepsClean(s, step);
    } else if step.Recv? {
      assert !Lost(s);
      RecvKeepsClean(PipeOf(s, step.up), step.up);
    } else if step.Write? {
      assert step.ok;
    }
  }

  lemma StepKeepsClean(s: State, step: Step)
    requires ByteInv(s) && CleanInv(s) && Enabled(s, step) && !Apply(s, step).failed
    ensures CleanInv(Apply(s, step))
  {
    if step.Pump() {
      PumpStepFrame(s, step);
      NextPipeKeepsClean(s, step);
      PumpStepsAreFinal(s, step);
      CleanPumpControl(s, step);
    }
  }

  lemma CleanPumpControl(s: State, step: Step)
    requires ByteInv(s) && CleanInv(s) && step.Pump() && Enabled(s, step)
    ensures Noted(s, step).upClosed ==> s.upClosed || step.CloseSend?
    ensures PipeOf(s, step.IsUp()).sender.Open() <== NextPipe(s, step).sender.Open()
  {
  }

  lemma {:induction false} RunStaysClean(states: seq<State>, steps: seq<Step>, i: nat)
    requires Run(states, steps) && i <= |steps| && !states[i].failed
    ensures CleanInv(states[i])
  {
    if i > 0 {
      assert Follows(states, steps, i - 1);
      FailureIsRemembered(states[i - 1], steps[i - 1]);
      RunStaysClean(states, steps, i - 1);
      RunKeepsBytes(states, steps, i - 1);
      StepKeepsClean(states[i - 1], steps[i - 1]);
    }
  }

  lemma FailureIsRemembered(s: State, step: Step)
    requires Enabled(s, step)
    ensures s.failed ==> Apply(s, step).failed
  {
    if step.Pump() {
      assert Apply(s, step).failed == Noted(s, step).failed;
    } else {
      assert Apply(s, step) == Control(s, step);
    }
  }

  /** In a run without failures a write half is shut only after every byte read
      on the other side has been written, and after that side has closed. */
  lemma ShutOnlyAfterDelivery(states: seq<State>, steps: seq<Step>, i: nat, up: bool)
    requires Run(states, steps) && i <= |steps| && !states[i].failed
    requires PipeOf(states[i], up).shut
    ensures PipeOf(states[i], up).written == PipeOf(states[i], up).read && !PipeOf(states[i], up).sender.Open()
  {
    RunStaysClean(states, steps, i);
  }

  /** One direction's half-close never stops the other: until a side has itself
      finished sending, its bytes still have a whole way through, whatever has
      become of the opposite direction. */
  lemma HalfClosesAreIndependent(states: seq<State>, steps: seq<Step>, i: nat, up: bool)
    requires Run(states, steps) && i <= |steps| && !states[i].failed
    requires PipeOf(states[i], up).sender.Open()
    ensures !Lost(states[i]) && states[i].ended.None? && states[i].returned.None?
    ensures !NearClosed(states[i], up) && !FarClosed(states[i], up)
    ensures !PipeOf(states[i], up).shut && !PipeOf(states[i], up).receiver.ReceiverDone?
  {
    RunStaysClean(states, steps, i);
    RunKeepsBytes(states, steps, i);
    CarryJoinsBoth(states, steps, i);
  }

  ghost predicate JoinInv(s: State) {
    s.returned.Some? ==> s.up.sender.SenderDone? && s.down.receiver.ReceiverDone? && s.cancelled
  }

  lemma StepKeepsJoin(s: State, step: Step)
    requires JoinInv(s) && Enabled(s, step)
    ensures JoinInv(Apply(s, step))
  {
    if step.Pump() {
      PumpStepFrame(s, step);
      PumpStepsAreFinal(s, step);
    }
  }

  /** Carry returns only with both pumps joined and its stream released. */
  lemma {:induction false} CarryJoinsBoth(states: seq<State>, steps: seq<Step>, i: nat)
    requires Run(states, steps) && i <= |steps|
    ensures JoinInv(states[i])
  {
    if i > 0 {
      assert Follows(states, steps, i - 1);
      CarryJoinsBoth(states, steps, i - 1);
      StepKeepsJoin(states[i - 1], steps[i - 1]);
    }
  }

  /** When Carry returns from a run without failures, both directions are
      complete and both half-closes have been passed on. */
  lemma CarryIsComplete(states: seq<State>, steps: seq<Step>, i: nat)
    requires Run(states, steps) && i <= |steps| && !states[i].failed && states[i].returned.Some?
    ensures states[i].up.written == states[i].up.read && states[i].up.shut
    ensures states[i].down.written == states[i].down.read && states[i].down.shut
  {
    CarryJoinsBoth(states, steps, i);
    RunStaysClean(states, steps, i);
    RunKeepsBytes(states, steps, i);
  }

  // ------------------------------------------------------- winding down

  /** The steps of `Carry` and of the handler. */
  predicate Mine(step: Step, client: bool) {
    match step
    case Read(up, _, _) => up == client
    case Send(up, _) => up == client
    case SendClose(up, _) => up == client
    case CloseSend => client
    case Recv(up) => up != client
    case RecvEof(up) => up != client
    case RecvErr(up) => up != client
    case Write(up, _, _) => up != client
    case Cancel => client
    case CloseLocal => client
    case Join => client
    case CloseSock => !client
    case HandlerReturns(_) => !client
    case Break => false
    case Teardown => false
  }

  /** A step that waits on nobody: a socket call returns at once only once this
      side has closed the socket, a Send only once the stream is gone. */
  predicate Immediate(s: State, step: Step, client: bool) {
    && (step.Read? || step.Write? ==> if client then s.localClosed else s.sockClosed)
    && (step.Send? || step.SendClose? ==> Lost(s))
  }

  function SenderLeft(sender: Sender): nat {
    match sender
    case Sending(_, _) => 5 case Reading => 4 case SendingClose(_) => 3 case ClosingSend(_) => 2 case SenderDone(_) => 0
  }

  function ReceiverLeft(receiver: Receiver): nat {
    match receiver
    case Writing(_) => 2 case Receiving => 1 case ReceiverDone(_) => 0
  }

  /** What one side still has to do once its socket is closed and the stream is
      gone; the other side cannot add to it. */
  function Left(s: State, client: bool): nat {
    SenderLeft(PipeOf(s, client).sender)
    + ReceiverLeft(PipeOf(s, !client).receiver) + 2 * |PipeOf(s, !client).queue|
    + (if (if client then s.returned.Some? else s.ended.Some?) then 0 else 1)
  }

  predicate WoundDown(s: State, client: bool) {
    if client then s.cancelled && s.localClosed else Lost(s) && s.sockClosed
  }

  lemma PumpStepUsesOne(s: State, step: Step)
    requires step.Pump() && Enabled(s, step) && Lost(s) && (step.Read? ==> NearClosed(s, step.IsUp()))
    ensures var p, p' := PipeOf(s, step.IsUp()), NextPipe(s, step);
            && SenderLeft(p'.sender) <= SenderLeft(p.sender)
            && ReceiverLeft(p'.receiver) + 2 * |p'.queue| <= ReceiverLeft(p.receiver) + 2 * |p.queue|
            && (if step.Read? || step.Send? || step.SendClose? || step.CloseSend?
                then SenderLeft(p'.sender) < SenderLeft(p.sender)
                else ReceiverLeft(p'.receiver) + 2 * |p'.queue| < ReceiverLeft(p.receiver) + 2 * |p.queue|)
  {
  }

  lemma StepUsesOne(s: State, step: Step, client: bool)
    requires WoundDown(s, client) && Enabled(s, step)
    ensures WoundDown(Apply(s, step), client)
    ensures Left(Apply(s, step), client) <= Left(s, client)
    ensures Mine(step, client) ==> Left(Apply(s, step), client) < Left(s, client)
  {
    if step.Pump() {
      PumpStepFrame(s, step);
      if Mine(step, client) {
        PumpStepUsesOne(s, step);
      } else {
        OtherSideAddsNothing(s, step, client);
      }
    }
  }

  lemma OtherSideAddsNothing(s: State, step: Step, client: bool)
    requires Lost(s) && step.Pump() && Enabled(s, step) && !Mine(step, client)
    ensures var s' := Apply(s, step);
            && PipeOf(s', client).sender == PipeOf(s, client).sender
            && PipeOf(s', !client).receiver == PipeOf(s, !client).receiver
            && PipeOf(s', !client).queue == PipeOf(s, !client).queue
  {
    PumpStepFrame(s, step);
  }

  function CountMine(steps: seq<Step>, client: bool): nat {
    if steps == [] then 0
    else CountMine(steps[..|steps| - 1], client) + (if Mine(steps[|steps| - 1], client) then 1 else 0)
  }

  /** A bound on the steps a side still takes once it is winding down, however the
      other side, the transport and the callers are scheduled in between. */
  lemma {:induction false} WindingDownIsBounded(states: seq<State>, steps: seq<Step>, i: nat, j: nat, client: bool)
    requires Run(states, steps) && i <= j <= |steps| && WoundDown(states[i], client)
    ensures WoundDown(states[j], client)
    ensures CountMine(steps[i..j], client) + Left(states[j], client) <= Left(states[i], client)
    decreases j
  {
    if i < j {
      assert Follows(states, steps, j - 1);
      WindingDownIsBounded(states, steps, i, j - 1, client);
      StepUsesOne(states[j - 1], steps[j - 1], client);
      assert steps[i..j][..j - 1 - i] == steps[i..j - 1];
    }
  }

  /** The local socket failed, the stream ended, or Carry was cancelled. */
  predicate CarryMustEnd(s: State) {
    s.cancelled || s.up.sender == SenderDone(true) || s.down.receiver.ReceiverDone?
  }

  predicate MyStep(s: State, step: Step, client: bool) {
    Mine(step, client) && Immediate(s, step, client) && Enabled(s, step)
  }

  /** Carry has no stuck state: from there to its return one of its own steps is
      always enabled, and none of them waits for the peer or the local client. */
  lemma CarryIsNeverStuck(s: State)
    requires CarryMustEnd(s) && s.returned.None?
    ensures exists step :: MyStep(s, step, true)
  {
    var step :=
      if !s.cancelled then Cancel
      else if !s.localClosed then CloseLocal
      else match s.up.sender
        case Reading => Read(true, [], Eof)
        case Sending(_, _) => Send(true, false)
        case SendingClose(_) => SendClose(true, false)
        case ClosingSend(_) => CloseSend
        case SenderDone(_) => ReceiverStep(s, false);
    assert MyStep(s, step, true);
  }

  function ReceiverStep(s: State, up: bool): Step {
    match PipeOf(s, up).receiver
    case Receiving => RecvErr(up)
    case Writing(_) => Write(up, 0, false)
    case ReceiverDone(_) => if up then HandlerReturns(false) else Join
  }

  /** Nor has the handler: once its RPC is over it always has a step to its
      return, so neither pump outlives the call. */
  lemma HandlerIsNeverStuck(states: seq<State>, steps: seq<Step>, i: nat)
    requires Run(states, steps) && i <= |steps| && Lost(states[i]) && states[i].ended.None?
    ensures exists step :: MyStep(states[i], step, false)
  {
    RunKeepsBytes(states, steps, i);
    var s := states[i];
    var step :=
      if !s.sockClosed then CloseSock
      else match s.down.sender
        case Reading => Read(false, [], Eof)
        case Sending(_, _) => Send(false, false)
        case SendingClose(_) => SendClose(false, false)
        case ClosingSend(_) => Join
        case SenderDone(_) => ReceiverStep(s, true);
    assert MyStep(s, step, false);
  }

  /** Together: a schedule that starts where Carry must end, and stops only when
      Carry has no step of its own, has returned with both pumps joined, after at
      most a bounded number of Carry's steps. */
  lemma CarryReturns(states: seq<State>, steps: seq<Step>, i: nat)
    requires Run(states, steps) && i <= |steps| && states[i].cancelled && states[i].localClosed
    requires forall step :: !MyStep(states[|steps|], step, true)
    ensures states[|steps|].returned.Some?
    ensures states[|steps|].up.sender.SenderDone? && states[|steps|].down.receiver.ReceiverDone?
    ensures CountMine(steps[i..], true) <= Left(states[i], true)
  {
    WindingDownIsBounded(states, steps, i, |steps|, true);
    assert steps[i..|steps|] == steps[i..];
    if states[|steps|].returned.None? {
      CarryIsNeverStuck(states[|steps|]);
    }
    CarryJoinsBoth(states, steps, |steps|);
  }
}
