/** internal/platform/group_unix.go: what a process group may still name.

    `Group` is the value of the guarded fields, `Aim` and `AimLeader` are the
    decisions a signaller takes while it holds the lock, and `ProcessGroup` is
    the object that updates those fields.  The interleavings of its callers with
    the kernel are in GroupProtocol, which uses the same decisions.
  */
module GroupPin {
  import opened Optional

  datatype Pin = PinGroup | PinLeader | PinNone {
    /** How much the pin has given up; it may only grow. */
    function Rank(): nat {
      match this
      case PinGroup => 0
      case PinLeader => 1
      case PinNone => 2
    }
  }

  datatype Group = Group(pid: int, pgid: int, hasHandle: bool, isolated: bool,
                         pin: Pin, closed: bool, configured: bool)

  const FreshGroup := Group(0, 0, false, false, PinGroup, false, false)

  /** What kill(2) or the process handle answers. */
  datatype Answer = Delivered | NoSuchProcess | NotPermitted | OtherErrno

  datatype Result =
    | Sent
    | ErrGroupClosed
    | ErrNoProcess
    | ErrGroupReleased
    | ErrProcessNotFound
    | ErrPermission
    | ErrOther
  {
    /** ErrGroupReleased wraps ErrProcessNotFound. */
    predicate IsNotFound() { ErrProcessNotFound? || ErrGroupReleased? }
  }

  datatype Target =
    | Refuse(why: Result)
    | KillGroup(number: int)
    | LeaderHandle
    | BarePid(pid: int)

  /** The leader's name once the group id is out of reach. */
  function LeaderTarget(g: Group): Target {
    if g.hasHandle then LeaderHandle else BarePid(g.pid)
  }

  /** The switch of signalLocked. */
  function Aim(g: Group): (t: Target)
    ensures t.KillGroup? <==> !g.closed && g.pid != 0 && g.pin.PinGroup?
    ensures t.KillGroup? ==> t.number == g.pgid
    ensures !g.closed && g.pid != 0 && g.pin.PinLeader? ==> t.LeaderHandle? || t == BarePid(g.pid)
    ensures g.pin.PinNone? ==> t.Refuse?
  {
    if g.closed then Refuse(ErrGroupClosed)
    else if g.pid == 0 then Refuse(ErrNoProcess)
    else match g.pin
      case PinGroup => KillGroup(g.pgid)
      case PinLeader => LeaderTarget(g)
      case PinNone => Refuse(ErrGroupReleased)
  }

  /** The checks of SignalLeader. */
  function AimLeader(g: Group): (t: Target)
    ensures !t.KillGroup?
    ensures g.pin.PinNone? ==> t.Refuse?
  {
    if g.closed then Refuse(ErrGroupClosed)
    else if g.pid == 0 then Refuse(ErrNoProcess)
    else if g.pin.PinNone? then Refuse(ErrGroupReleased)
    else LeaderTarget(g)
  }

  function AnswerResult(a: Answer): Result {
    match a
    case Delivered => Sent
    case NoSuchProcess => ErrProcessNotFound
    case NotPermitted => ErrPermission
    case OtherErrno => ErrOther
  }

  function Outcome(t: Target, a: Answer): Result {
    if t.Refuse? then t.why else AnswerResult(a)
  }

  /** Sweep reads EPERM as "nothing left that could receive a signal". */
  function SweepOutcome(r: Result): Result {
    if r.ErrPermission? then ErrProcessNotFound else r
  }

  // ----------------------------------------------------------- adoption

  /** One reading of getpgid(2): None when the child has already gone. */
  type Reading = Option<int>

  predicate Settled(pid: int, configured: bool, reading: Reading, expired: bool) {
    reading.None? || reading.value == pid || !configured || expired
  }

  datatype Adoption = Adoption(pgid: int, isolated: bool, late: bool)

  /** What adoptedGroup records about a reading that settled the question. */
  function Adopted(pid: int, configured: bool, reading: Reading): (a: Adoption)
    ensures a.isolated ==> a.pgid == pid
    ensures configured ==> a.isolated == !a.late
    ensures a.late ==> configured
  {
    if reading.None? then Adoption(pid, configured, false)
    else if reading.value == pid then Adoption(pid, true, false)
    else Adoption(reading.value, false, configured)
  }

  /** adoptedGroup's polling loop.  `readings[k]` is what the kernel answers on
      attempt k and `expired[k]` whether the settle deadline has passed by then;
      the clock does reach the deadline. */
  method AdoptedGroup(pid: int, configured: bool, readings: seq<Reading>, expired: seq<bool>)
    returns (a: Adoption, polls: nat)
    requires 0 < |readings| == |expired| && expired[|expired| - 1]
    ensures 0 < polls <= |readings|
    ensures Settled(pid, configured, readings[polls - 1], expired[polls - 1])
    ensures forall k :: 0 <= k < polls - 1 ==> !Settled(pid, configured, readings[k], expired[k])
    ensures a == Adopted(pid, configured, readings[polls - 1])
    ensures a.late <==> configured && readings[polls - 1].Some? && readings[polls - 1].value != pid
    ensures !configured ==> polls == 1
    ensures forall k :: 0 <= k < polls - 1 ==> readings[k].Some? && readings[k].value != pid && !expired[k]
    ensures a.late ==> expired[polls - 1]
    ensures a.isolated <==> if readings[polls - 1].None? then configured else readings[polls - 1].value == pid
    ensures a.pgid == if readings[polls - 1].None? then pid else readings[polls - 1].value
  {
    var attempt := 0;
    while true
      invariant 0 <= attempt < |readings| && (attempt > 0 ==> configured)
      invariant forall k :: 0 <= k < attempt ==> !Settled(pid, configured, readings[k], expired[k])
      decreases |readings| - attempt
    {
      var reading := readings[attempt];
      if reading.None? {
        return Adoption(pid, configured, false), attempt + 1;
      }
      if reading.value == pid {
        return Adoption(pid, true, false), attempt + 1;
      }
      if !configured {
        return Adoption(reading.value, false, false), attempt + 1;
      }
      if expired[attempt] {
        return Adoption(reading.value, false, true), attempt + 1;
      }
      attempt := attempt + 1;
    }
  }

  /** The fields Adopt records. */
  function AfterAdopt(g: Group, pid: int, a: Adoption): Group {
    g.(pid := pid, pgid := a.pgid, isolated := a.isolated, hasHandle := true,
       pin := if a.isolated then PinGroup else PinLeader)
  }

  /** The mark a collection leaves before it reaps. */
  function AfterRelease(g: Group): Group { g.(pin := PinNone) }

  /** The mark left when the leader's exit could not be established. */
  function AfterGiveUp(g: Group): Group {
    if g.pin.PinGroup? then g.(pin := PinLeader) else g
  }

  /** Nothing moves the pin back: once a collection has begun, neither mark
      restores a name, and a group id given up is never aimed at again. */
  lemma MarksOnlyGiveUp(g: Group)
    ensures AfterRelease(g).pin.Rank() >= AfterGiveUp(g).pin.Rank() >= g.pin.Rank()
    ensures !Aim(AfterGiveUp(g)).KillGroup? && Aim(AfterRelease(g)).Refuse? && AimLeader(AfterRelease(g)).Refuse?
    ensures AfterRelease(AfterGiveUp(g)) == AfterRelease(g) && AfterGiveUp(AfterRelease(g)) == AfterRelease(g)
  {
  }

  /** The object.  Each method is one critical section; the kernel's answer to
      the call it makes inside is a parameter, and `aimed` is what it aimed at. */
  class ProcessGroup {
    var pid: int
    var pgid: int
    var hasHandle: bool
    var isolated: bool
    var pin: Pin
    var closed: bool
    var configured: bool

    ghost function View(): Group
      reads this
    {
      Group(pid, pgid, hasHandle, isolated, pin, closed, configured)
    }

    constructor ()
      ensures View() == FreshGroup
    {
      pid, pgid, hasHandle, isolated := 0, 0, false, false;
      pin, closed, configured := PinGroup, false, false;
    }

    method Configure()
      modifies this
      ensures View() == old(View()).(configured := true)
    {
      configured := true;
    }

    /** The second half of Adopt, after adoptedGroup has answered. */
    method RecordAdoption(leader: int, a: Adoption) returns (r: Result)
      modifies this
      ensures r == if old(closed) then ErrGroupClosed else if a.late then ErrOther else Sent
      ensures View() == if old(closed) then old(View()) else AfterAdopt(old(View()), leader, a)
      ensures !old(closed) && leader != 0 ==> Aim(View()) == if a.isolated then KillGroup(a.pgid) else LeaderHandle
      ensures !old(closed) ==> pid == leader && isolated == a.isolated
      ensures !old(closed) && leader != 0 ==> AimLeader(View()) == LeaderHandle
    {
      if closed {
        return ErrGroupClosed;
      }
      pid := leader;
      pgid := a.pgid;
      isolated := a.isolated;
      hasHandle := true;
      pin := PinLeader;
      if a.isolated {
        pin := PinGroup;
      }
      r := if a.late then ErrOther else Sent;
    }

    method SignalLocked(answer: Answer) returns (r: Result, aimed: Target)
      ensures aimed == Aim(View()) && r == Outcome(aimed, answer)
      ensures closed ==> r == ErrGroupClosed
      ensures !closed && pid == 0 ==> r == ErrNoProcess
      ensures !closed && pid != 0 && pin.PinNone? ==> r == ErrGroupReleased
      ensures !closed && pid != 0 && !pin.PinNone? ==> (r == Sent <==> answer.Delivered?)
                                                        && (r == ErrProcessNotFound <==> answer.NoSuchProcess?)
                                                        && (r == ErrPermission <==> answer.NotPermitted?)
    {
      if closed {
        return ErrGroupClosed, Refuse(ErrGroupClosed);
      }
      if pid == 0 {
        return ErrNoProcess, Refuse(ErrNoProcess);
      }
      match pin {
        case PinGroup =>
          aimed := KillGroup(pgid);
          r := AnswerResult(answer);
        case PinLeader =>
          r, aimed := SignalLeaderLocked(answer);
        case PinNone =>
          r, aimed := ErrGroupReleased, Refuse(ErrGroupReleased);
      }
    }

    method SignalLeaderLocked(answer: Answer) returns (r: Result, aimed: Target)
      ensures aimed == LeaderTarget(View()) && r == AnswerResult(answer)
    {
      if !hasHandle {
        aimed := BarePid(pid);
      } else {
        aimed := LeaderHandle;
      }
      r := AnswerResult(answer);
    }

    method SignalLeader(answer: Answer) returns (r: Result, aimed: Target)
      ensures aimed == AimLeader(View()) && r == Outcome(aimed, answer)
    {
      if closed {
        return ErrGroupClosed, Refuse(ErrGroupClosed);
      }
      if pid == 0 {
        return ErrNoProcess, Refuse(ErrNoProcess);
      }
      if pin.PinNone? {
        return ErrGroupReleased, Refuse(ErrGroupReleased);
      }
      r, aimed := SignalLeaderLocked(answer);
    }

    method SweepLocked(answer: Answer) returns (r: Result, aimed: Target)
      ensures aimed == Aim(View()) && r == SweepOutcome(Outcome(aimed, answer))
      ensures !aimed.Refuse? ==> (r == Sent <==> answer.Delivered?)
                                 && (r == ErrProcessNotFound <==> answer.NoSuchProcess? || answer.NotPermitted?)
    {
      r, aimed := SignalLocked(answer);
      if r.ErrPermission? {
        r := ErrProcessNotFound;
      }
    }

    /** The critical section of collect after the leader is known to have
        exited: sweep, then mark the group released, then unlock. */
    method ReleaseAfterExit(sweep: bool, answer: Answer) returns (warn: bool, aimed: Target)
      modifies this`pin
      ensures View() == AfterRelease(old(View()))
      ensures aimed == if sweep then Aim(old(View())) else Refuse(Sent)
      ensures warn <==> sweep && SweepOutcome(Outcome(Aim(old(View())), answer)) in {ErrNoProcess, ErrOther}
    {
      warn, aimed := false, Refuse(Sent);
      if sweep {
        var r;
        r, aimed := SweepLocked(answer);
        if !r.Sent? && !r.IsNotFound() && !r.ErrGroupClosed? {
          warn := true;
        }
      }
      pin := PinNone;
    }

    /** The section of collect after AwaitExit failed. */
    method GiveUpGroup()
      modifies this`pin
      ensures View() == AfterGiveUp(old(View()))
      ensures !closed && pid != 0 && !old(pin).PinNone? ==> Aim(View()) == if hasHandle then LeaderHandle else BarePid(pid)
    {
      if pin.PinGroup? {
        pin := PinLeader;
      }
    }

    /** The mark collectLeader leaves once wait has returned. */
    method MarkCollected()
      modifies this`pin
      ensures View() == AfterRelease(old(View()))
    {
      pin := PinNone;
    }

    method Close()
      modifies this`closed
      ensures View() == old(View()).(closed := true)
    {
      closed := true;
    }
  }
}
