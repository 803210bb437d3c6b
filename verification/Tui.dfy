/** internal/tui/model.go: the view as a value, and Step. Rendering, the status
    line and the clock are left out: what is due on a tick arrives with the tick,
    and the page size and the detail pane's overflow are arbitrary.
  */
module Tui {

  /** Names, addresses and ids are only ever compared, so numbers do for them;
      NoName is the empty string. */
  type Word = nat

  const NoName: Word := 0

  datatype Sig = TERM | INT | HUP | KILL | USR1 | USR2

  datatype Pane = Fleet | Processes | Logs | Detail

  datatype Mode = Normal | Confirm | PickSignal | Help

  datatype Sandbox = Sandbox(name: Word, address: Word)

  datatype Process = Process(id: Word, name: Word, live: bool)

  datatype Effect =
    | Nothing
    | ReadSandboxes
    | ReadProcesses(sandbox: Word, address: Word)
    | ReadLogs(sandbox: Word, address: Word, id: Word)
    | ReadDetail(sandbox: Word, address: Word, toolchains: bool)
    | Signal(sandbox: Word, address: Word, id: Word, name: Word, signal: Sig, graceful: bool)
    | Restart(sandbox: Word, address: Word, id: Word, name: Word)
    | OpenShell(sandbox: Word, address: Word)
    | Quit

  predicate Mutating(e: Effect) { e.Signal? || e.Restart? }

  datatype Msg =
    | Resize
    | Key(k: string)
    | Tick(sandboxesDue: bool, processesDue: bool, detailDue: bool, logsDue: bool)
    | GotSandboxes(sandboxes: seq<Sandbox>, failed: bool)
    | GotProcesses(sandbox: Word, processes: seq<Process>, failed: bool)
    | GotLogs(sandbox: Word, id: Word, lines: nat, failed: bool)
    | GotDetail(sandbox: Word, toolchains: bool, failed: bool)
    | GotAction(failed: bool)
    | GotStatus

  datatype Model = Model(
    focus: Pane, mode: Mode,
    sandboxes: seq<Sandbox>, sbCursor: int,
    processes: seq<Process>, procCursor: int, procFor: Word,
    logLines: nat, logFor: (Word, Word), logScroll: int, logFollow: bool,
    detailFor: Word, detailScroll: int, toolchains: bool,
    confirm: Effect, sigIdx: int, shellWired: bool, quitting: bool)

  /** What the layout decides. */
  datatype Layout = Layout(pageSize: Model -> nat, detailOverflow: Model -> nat)

  const Signals: seq<Sig> := [TERM, INT, HUP, KILL, USR1, USR2]

  function NewModel(shellWired: bool): Model {
    Model(Fleet, Normal, [], 0, [], 0, NoName, 0, (NoName, NoName), 0, true, NoName, 0, false, Nothing, 0, shellWired, false)
  }

  function Clamp(v: int, lo: int, hi: int): int { if hi < lo then lo else if v < lo then lo else if v > hi then hi else v }

  function MaxIndex(n: nat): nat { if n == 0 then 0 else n - 1 }

  // ---------------------------------------------------------- selection

  predicate HasSandbox(m: Model) { m.sandboxes != [] }

  function SelectedSandbox(m: Model): Sandbox
    requires HasSandbox(m)
  {
    m.sandboxes[Clamp(m.sbCursor, 0, |m.sandboxes| - 1)]
  }

  function FocusedName(m: Model): Word { if HasSandbox(m) then SelectedSandbox(m).name else NoName }

  predicate HasProcess(m: Model) { m.processes != [] && m.procFor == FocusedName(m) }

  function SelectedProcess(m: Model): Process
    requires HasProcess(m)
  {
    m.processes[Clamp(m.procCursor, 0, |m.processes| - 1)]
  }

  function LogTarget(m: Model): (Word, Word) {
    if HasProcess(m) then (FocusedName(m), SelectedProcess(m).id) else (NoName, NoName)
  }

  function IndexOf(list: seq<Sandbox>, name: Word, fallback: int, i: nat): int
    requires i <= |list|
    decreases |list| - i
  {
    if i == |list| then Clamp(fallback, 0, MaxIndex(|list|))
    else if list[i].name == name then i
    else IndexOf(list, name, fallback, i + 1)
  }

  function IndexOfProcess(list: seq<Process>, id: Word, fallback: int, i: nat): int
    requires i <= |list|
    decreases |list| - i
  {
    if i == |list| then Clamp(fallback, 0, MaxIndex(|list|))
    else if list[i].id == id then i
    else IndexOfProcess(list, id, fallback, i + 1)
  }

  function ClearFocused(m: Model): Model {
    m.(processes := [], procFor := NoName, procCursor := 0, logLines := 0, logFor := (NoName, NoName), logScroll := 0,
       detailFor := NoName, detailScroll := 0)
  }

  // ----------------------------------------------------------- proposals

  /** An effect to confirm, or Nothing and a word in the status line. */
  function StopEffect(m: Model): Effect {
    if !HasSandbox(m) || !HasProcess(m) || !SelectedProcess(m).live then Nothing
    else
      var sb, p := SelectedSandbox(m), SelectedProcess(m);
      Signal(sb.name, sb.address, p.id, p.name, TERM, true)
  }

  function RestartEffect(m: Model): Effect {
    if !HasSandbox(m) || !HasProcess(m) then Nothing
    else
      var sb, p := SelectedSandbox(m), SelectedProcess(m);
      Restart(sb.name, sb.address, p.id, p.name)
  }

  function SignalEffect(m: Model, sig: Sig): Effect {
    if !HasSandbox(m) || !HasProcess(m) then Nothing
    else
      var sb, p := SelectedSandbox(m), SelectedProcess(m);
      Signal(sb.name, sb.address, p.id, p.name, sig, false)
  }

  function Propose(m: Model, e: Effect): Model {
    if e == Nothing then m else m.(confirm := e, mode := Confirm)
  }

  // ---------------------------------------------------------------- keys

  type Stepped = (Model, seq<Effect>)

  function ConfirmKey(m: Model, yes: bool): Stepped {
    var m' := m.(confirm := Nothing, mode := Normal);
    if !yes then (m', []) else (m', [m.confirm])
  }

  /** What a key means while a signal is being picked. */
  datatype Pick = Back | Up | Down | Choose | Digit(n: nat) | NoPick

  function PickOf(k: string): (p: Pick)
    ensures p.Digit? ==> p.n < |Signals|
  {
    if k == "esc" || k == "q" then Back
    else if k == "up" || k == "k" then Up
    else if k == "down" || k == "j" then Down
    else if k == "enter" then Choose
    else if |k| == 1 && '1' <= k[0] <= '6' then Digit((k[0] as int) - ('1' as int))
    else NoPick
  }

  function OnPick(m: Model, p: Pick): Stepped
    requires p.Digit? ==> p.n < |Signals|
  {
    var m' := m.(mode := Normal);
    match p
    case Back => (m', [])
    case Up => (m.(sigIdx := Clamp(m.sigIdx - 1, 0, |Signals| - 1)), [])
    case Down => (m.(sigIdx := Clamp(m.sigIdx + 1, 0, |Signals| - 1)), [])
    case Choose => (Propose(m', SignalEffect(m', SignalAt(m.sigIdx))), [])
    case Digit(n) => (Propose(m', SignalEffect(m', SignalAt(n))), [])
    case NoPick => (m, [])
  }

  /** signals[i]; the index is always in range, by Inv below. */
  function SignalAt(i: int): Sig { if 0 <= i < |Signals| then Signals[i] else TERM }

  function Move(ui: Layout, m: Model, delta: int): Model {
    match m.focus
    case Fleet =>
      var m' := m.(sbCursor := Clamp(m.sbCursor + delta, 0, MaxIndex(|m.sandboxes|)));
      if m'.sbCursor != m.sbCursor then ClearFocused(m') else m'
    case Processes =>
      var m' := m.(procCursor := Clamp(m.procCursor + delta, 0, MaxIndex(|m.processes|)));
      if m'.procCursor != m.procCursor then m'.(logLines := 0, logFor := (NoName, NoName), logScroll := 0) else m'
    case Logs =>
      var at := Clamp(m.logScroll - delta, 0, MaxIndex(m.logLines));
      m.(logScroll := at, logFollow := at == 0)
    case Detail => m.(detailScroll := Clamp(m.detailScroll + delta, 0, ui.detailOverflow(m)))
  }

  function Jump(ui: Layout, m: Model, top: bool): Model {
    match m.focus
    case Fleet => Move(ui, m, if top then 0 - |m.sandboxes| else |m.sandboxes|)
    case Processes => Move(ui, m, if top then 0 - |m.processes| else |m.processes|)
    case Logs =>
      var at := if top then MaxIndex(m.logLines) else 0;
      m.(logScroll := at, logFollow := at == 0)
    case Detail => m.(detailScroll := if top then 0 else ui.detailOverflow(m))
  }

  function NextPane(p: Pane): Pane {
    match p case Fleet => Processes case Processes => Logs case Logs => Detail case Detail => Fleet
  }

  function PrevPane(p: Pane): Pane {
    match p case Fleet => Detail case Processes => Fleet case Logs => Processes case Detail => Logs
  }

  function FocusEffects(m: Model): seq<Effect> {
    if !HasSandbox(m) then []
    else
      var sb := SelectedSandbox(m);
      [ReadProcesses(sb.name, sb.address), ReadDetail(sb.name, sb.address, m.toolchains)]
      + (if HasProcess(m) then [ReadLogs(sb.name, sb.address, SelectedProcess(m).id)] else [])
  }

  function DetailRequest(m: Model): seq<Effect> {
    if HasSandbox(m) then [ReadDetail(SelectedSandbox(m).name, SelectedSandbox(m).address, m.toolchains)] else []
  }

  function ProcessesRequest(m: Model): seq<Effect> {
    if HasSandbox(m) then [ReadProcesses(SelectedSandbox(m).name, SelectedSandbox(m).address)] else []
  }

  /** What a key means in normal mode. */
  datatype Command =
    | Leave | AskHelp | NextTab | PrevTab | LineUp | LineDown | PageUp | PageDown | Top | Bottom
    | Enter | Follow | Toolchains | Refresh | Shell | Stop | Rerun | Signals_ | Unbound

  function CommandOf(k: string): Command {
    if k == "q" then Leave
    else if k == "?" then AskHelp
    else if k == "tab" then NextTab
    else if k == "shift+tab" then PrevTab
    else if k == "up" || k == "k" then LineUp
    else if k == "down" || k == "j" then LineDown
    else if k == "pgup" then PageUp
    else if k == "pgdown" then PageDown
    else if k == "g" || k == "home" then Top
    else if k == "G" || k == "end" then Bottom
    else if k == "enter" then Enter
    else if k == "f" then Follow
    else if k == "t" then Toolchains
    else if k == "ctrl+r" then Refresh
    else if k == "s" then Shell
    else if k == "x" then Stop
    else if k == "r" then Rerun
    else if k == "S" then Signals_
    else Unbound
  }

  function OnCommand(ui: Layout, m: Model, c: Command): Stepped {
    match c
    case Leave => (m.(quitting := true), [Quit])
    case AskHelp => (m.(mode := Help), [])
    case NextTab => (m.(focus := NextPane(m.focus)), [])
    case PrevTab => (m.(focus := PrevPane(m.focus)), [])
    case LineUp => (Move(ui, m, -1), [])
    case LineDown => (Move(ui, m, 1), [])
    case PageUp => (Move(ui, m, 0 - ui.pageSize(m)), [])
    case PageDown => (Move(ui, m, ui.pageSize(m)), [])
    case Top => (Jump(ui, m, true), [])
    case Bottom => (Jump(ui, m, false), [])
    case Enter =>
      if m.focus == Fleet then
        var m' := m.(focus := Processes);
        (m', FocusEffects(m'))
      else (m, [])
    case Follow => (m.(logFollow := !m.logFollow, logScroll := if m.logFollow then m.logScroll else 0), [])
    case Toolchains =>
      var m' := m.(toolchains := !m.toolchains);
      (m', if m'.toolchains then DetailRequest(m') else [])
    case Refresh => (m, [ReadSandboxes] + FocusEffects(m))
    case Shell =>
      (m, if HasSandbox(m) && m.shellWired then [OpenShell(SelectedSandbox(m).name, SelectedSandbox(m).address)] else [])
    case Stop => (Propose(m, StopEffect(m)), [])
    case Rerun => (Propose(m, RestartEffect(m)), [])
    case Signals_ => (if HasProcess(m) then m.(mode := PickSignal, sigIdx := 0) else m, [])
    case Unbound => (m, [])
  }

  /** What a key would mean in each mode. */
  datatype Meaning = Meaning(interrupt: bool, yes: bool, pick: Pick, command: Command)

  function MeaningOf(k: string): (n: Meaning)
    ensures Known(n)
  {
    Meaning(k == "ctrl+c", k == "y" || k == "Y", PickOf(k), CommandOf(k))
  }

  predicate Known(n: Meaning) { n.pick.Digit? ==> n.pick.n < |Signals| }

  function OnMeaning(ui: Layout, m: Model, n: Meaning): Stepped
    requires Known(n)
  {
    if n.interrupt then (m.(quitting := true), [Quit])
    else match m.mode
      case Confirm => ConfirmKey(m, n.yes)
      case PickSignal => OnPick(m, n.pick)
      case Help => (m.(mode := Normal), [])
      case Normal => OnCommand(ui, m, n.command)
  }

  function OnKey(ui: Layout, m: Model, k: string): Stepped { OnMeaning(ui, m, MeaningOf(k)) }

  // ------------------------------------------------------------- messages

  function OnTick(m: Model, due: Msg): seq<Effect>
    requires due.Tick?
  {
    (if due.sandboxesDue then [ReadSandboxes] else [])
    + if !HasSandbox(m) then []
      else
        (if due.processesDue then ProcessesRequest(m) else []) + (if due.detailDue then DetailRequest(m) else [])
        + (if due.logsDue && HasProcess(m)
           then [ReadLogs(SelectedSandbox(m).name, SelectedSandbox(m).address, SelectedProcess(m).id)] else [])
  }

  function ApplySandboxes(m: Model, sandboxes: seq<Sandbox>): Model {
    var selected := if HasSandbox(m) then SelectedSandbox(m).name else NoName;
    var m' := m.(sandboxes := sandboxes, sbCursor := IndexOf(sandboxes, selected, m.sbCursor, 0));
    if FocusedName(m') != FocusedName(m) then ClearFocused(m') else m'
  }

  function ApplyProcesses(m: Model, sandbox: Word, processes: seq<Process>): Model {
    var selected := if HasProcess(m) then SelectedProcess(m).id else NoName;
    m.(processes := processes, procFor := sandbox, procCursor := IndexOfProcess(processes, selected, m.procCursor, 0))
  }

  function ClampScroll(ui: Layout, m: Model): Model {
    m.(logScroll := Clamp(m.logScroll, 0, MaxIndex(m.logLines)), detailScroll := Clamp(m.detailScroll, 0, ui.detailOverflow(m)))
  }

  function ApplyLogs(ui: Layout, m: Model, msg: Msg): Model
    requires msg.GotLogs?
  {
    if (msg.sandbox, msg.id) != LogTarget(m) || msg.failed then m
    else ClampScroll(ui, m.(logLines := msg.lines, logFor := LogTarget(m), logScroll := if m.logFollow then 0 else m.logScroll))
  }

  function Step(ui: Layout, m: Model, msg: Msg): Stepped {
    match msg
    case Resize => (ClampScroll(ui, m), [])
    case Key(k) => OnKey(ui, m, k)
    case Tick(_, _, _, _) => (m, OnTick(m, msg))
    case GotSandboxes(sandboxes, failed) => (if failed then m else ApplySandboxes(m, sandboxes), [])
    case GotProcesses(sandbox, processes, failed) =>
      (if sandbox != FocusedName(m) || failed then m else ApplyProcesses(m, sandbox, processes), [])
    case GotLogs(_, _, _, _) => (ApplyLogs(ui, m, msg), [])
    case GotDetail(sandbox, toolchains, failed) =>
      (if sandbox != FocusedName(m) || toolchains != m.toolchains || failed then m else m.(detailFor := sandbox), [])
    case GotAction(failed) => (m, if failed then [] else ProcessesRequest(m))
    case GotStatus => (m, [])
  }

  // ------------------------------------------------------- what a step keeps

  /** The list in hand is the focused sandbox's or nobody's; a prompt is showing
      exactly what would run; the picker's index is one of its signals. */
  predicate Inv(m: Model) {
    && (m.procFor == NoName || m.procFor == FocusedName(m))
    && (m.mode == Confirm ==> Mutating(m.confirm)) && (m.mode != Confirm ==> m.confirm == Nothing)
    && 0 <= m.sigIdx < |Signals|
  }

  /** Nothing is proposed, and what was read is either kept or dropped whole. */
  predicate Keeps(m: Model, m': Model) {
    && m'.confirm == m.confirm && m'.sandboxes == m.sandboxes
    && (m'.processes == [] || (m'.processes == m.processes && m'.procFor == m.procFor))
    && (m'.procFor == NoName || (m'.procFor == m.procFor && FocusedName(m') == FocusedName(m)))
  }

  /** Leaving a sandbox drops everything that was read from it. */
  lemma MoveKeeps(ui: Layout, m: Model, delta: int)
    ensures var m' := Move(ui, m, delta); Keeps(m, m') && m'.mode == m.mode && m'.sigIdx == m.sigIdx
  {
    if m.focus == Fleet {
      var at := Clamp(m.sbCursor + delta, 0, MaxIndex(|m.sandboxes|));
      assert at == m.sbCursor ==> m.(sbCursor := at) == m;
    }
  }

  lemma JumpKeeps(ui: Layout, m: Model, top: bool)
    ensures var m' := Jump(ui, m, top); Keeps(m, m') && m'.mode == m.mode && m'.sigIdx == m.sigIdx
  {
    match m.focus
    case Fleet => MoveKeeps(ui, m, if top then 0 - |m.sandboxes| else |m.sandboxes|);
    case Processes => MoveKeeps(ui, m, if top then 0 - |m.processes| else |m.processes|);
    case _ => ScrollKeeps(ui, m, top);
  }

  lemma ScrollKeeps(ui: Layout, m: Model, top: bool)
    requires m.focus.Logs? || m.focus.Detail?
    ensures var m' := Jump(ui, m, top); Keeps(m, m') && m'.mode == m.mode && m'.sigIdx == m.sigIdx
  {
  }

  predicate MovesCursor(c: Command) {
    c.LineUp? || c.LineDown? || c.PageUp? || c.PageDown? || c.Top? || c.Bottom?
  }

  /** How far a cursor key moves. */
  function DeltaOf(ui: Layout, m: Model, c: Command): int {
    if c.LineUp? then -1 else if c.LineDown? then 1 else if c.PageUp? then 0 - ui.pageSize(m) else ui.pageSize(m)
  }

  lemma CursorKeeps(ui: Layout, m: Model, c: Command)
    requires MovesCursor(c)
    ensures var m' := OnCommand(ui, m, c).0; Keeps(m, m') && m'.mode == m.mode && m'.sigIdx == m.sigIdx
  {
    if c.Top? || c.Bottom? {
      JumpKeeps(ui, m, c.Top?);
      assert OnCommand(ui, m, c).0 == Jump(ui, m, c.Top?);
    } else {
      MoveKeeps(ui, m, DeltaOf(ui, m, c));
      assert OnCommand(ui, m, c).0 == Move(ui, m, DeltaOf(ui, m, c));
    }
  }

  /** A key in normal mode proposes, or keeps. */
  lemma CommandKeeps(ui: Layout, m: Model, c: Command)
    requires 0 <= m.sigIdx < |Signals|
    ensures var m' := OnCommand(ui, m, c).0;
            && 0 <= m'.sigIdx < |Signals|
            && if c.Stop? then m' == Propose(m, StopEffect(m))
               else if c.Rerun? then m' == Propose(m, RestartEffect(m))
               else Keeps(m, m') && (m.mode == Normal ==> m'.mode != Confirm)
  {
    if MovesCursor(c) {
      CursorKeeps(ui, m, c);
    }
  }

  lemma ProposedIsMutating(m: Model, sig: Sig)
    ensures StopEffect(m) == Nothing || Mutating(StopEffect(m))
    ensures RestartEffect(m) == Nothing || Mutating(RestartEffect(m))
    ensures SignalEffect(m, sig) == Nothing || Mutating(SignalEffect(m, sig))
  {
  }

  lemma PickKeepsInv(m: Model, p: Pick)
    requires Inv(m) && m.mode == PickSignal && (p.Digit? ==> p.n < |Signals|)
    ensures Inv(OnPick(m, p).0)
  {
    if p.Choose? || p.Digit? {
      ProposedIsMutating(m.(mode := Normal), SignalAt(if p.Choose? then m.sigIdx else p.n));
    }
  }

  lemma KeyKeepsInv(ui: Layout, m: Model, n: Meaning)
    requires Inv(m) && Known(n)
    ensures Inv(OnMeaning(ui, m, n).0)
  {
    if !n.interrupt {
      if m.mode == Normal {
        CommandKeeps(ui, m, n.command);
        ProposedIsMutating(m, TERM);
      } else if m.mode == PickSignal {
        PickKeepsInv(m, n.pick);
      }
    }
  }

  lemma StepKeepsInv(ui: Layout, m: Model, msg: Msg)
    requires Inv(m)
    ensures Inv(Step(ui, m, msg).0)
  {
    if msg.Key? {
      KeyKeepsInv(ui, m, MeaningOf(msg.k));
    }
  }

  // -------------------------------------------------------------- the gate

  /** A step emits an effect that changes something only by answering a prompt with
      a yes, and then emits exactly what the prompt was built from. */
  lemma OnlyAYesMutates(ui: Layout, m: Model, msg: Msg, e: Effect)
    requires e in Step(ui, m, msg).1 && Mutating(e)
    ensures msg.Key? && (msg.k == "y" || msg.k == "Y") && m.mode == Confirm
    ensures e == m.confirm && Step(ui, m, msg).1 == [e]
    ensures Step(ui, m, msg).0.mode == Normal && Step(ui, m, msg).0.confirm == Nothing
  {
    if msg.Key? {
      OnlyYesMutates(ui, m, MeaningOf(msg.k), e);
    }
  }

  lemma OnlyYesMutates(ui: Layout, m: Model, n: Meaning, e: Effect)
    requires Known(n) && e in OnMeaning(ui, m, n).1 && Mutating(e)
    ensures n.yes && !n.interrupt && m.mode == Confirm && OnMeaning(ui, m, n) == (m.(confirm := Nothing, mode := Normal), [m.confirm])
    ensures e == m.confirm
  {
    if m.mode == Normal && !n.interrupt {
      CommandsAreHarmless(ui, m, n.command, e);
    }
  }

  lemma CommandsAreHarmless(ui: Layout, m: Model, c: Command, e: Effect)
    requires e in OnCommand(ui, m, c).1
    ensures !Mutating(e)
  {
  }

  /** A key pressed on m proposes e: to stop the selected process, to run it again,
      or to send it the signal picked. */
  predicate Proposes(m: Model, n: Meaning, e: Effect) {
    && Mutating(e) && HasSandbox(m) && HasProcess(m) && !n.interrupt
    && match m.mode
       case Normal => (n.command == Stop && e == StopEffect(m)) || (n.command == Rerun && e == RestartEffect(m))
       case PickSignal =>
         || (n.pick == Choose && e == SignalEffect(m, SignalAt(m.sigIdx)))
         || (n.pick.Digit? && e == SignalEffect(m, SignalAt(n.pick.n)))
       case _ => false
  }

  /** The keys that can put up a prompt, by their names. */
  predicate PromptKey(mode: Mode, k: string) {
    match mode
    case Normal => k == "x" || k == "r"
    case PickSignal => k == "enter" || (|k| == 1 && '1' <= k[0] <= '6')
    case _ => false
  }

  lemma ProposingKeys(m: Model, k: string, e: Effect)
    requires Proposes(m, MeaningOf(k), e)
    ensures PromptKey(m.mode, k)
  {
  }

  /** A step puts up a prompt only on x or r in normal mode, or on enter or a digit
      from 1 to 6 while a signal is being picked. */
  lemma OnlyTheseKeysPrompt(ui: Layout, m: Model, msg: Msg)
    requires Inv(m) && m.mode != Confirm && Step(ui, m, msg).0.mode == Confirm
    ensures msg.Key? && PromptKey(m.mode, msg.k)
  {
    PromptIsStable(ui, m, msg);
    ProposingKeys(m, msg.k, Step(ui, m, msg).0.confirm);
  }

  lemma PickProposes(m: Model, p: Pick)
    requires (p.Digit? ==> p.n < |Signals|) && m.mode == PickSignal && OnPick(m, p).0.mode == Confirm
    ensures p == Choose || p.Digit?
    ensures var sig := SignalAt(if p == Choose then m.sigIdx else p.n);
            && OnPick(m, p).0.confirm == SignalEffect(m, sig) && HasSandbox(m) && HasProcess(m)
            && Mutating(SignalEffect(m, sig))
  {
    ProposedIsMutating(m, SignalAt(if p == Choose then m.sigIdx else if p.Digit? then p.n else 0));
  }

  lemma KeyProposes(ui: Layout, m: Model, n: Meaning)
    requires Inv(m) && Known(n) && m.mode != Confirm && OnMeaning(ui, m, n).0.mode == Confirm
    ensures Proposes(m, n, OnMeaning(ui, m, n).0.confirm)
  {
    if m.mode == PickSignal {
      PickProposes(m, n.pick);
    } else if m.mode == Normal {
      CommandKeeps(ui, m, n.command);
      ProposedIsMutating(m, TERM);
    }
  }

  /** A prompt either was up already, unchanged by whatever arrived, or was put up
      by this key for what was selected then. */
  lemma PromptIsStable(ui: Layout, m: Model, msg: Msg)
    requires Inv(m) && Step(ui, m, msg).0.mode == Confirm
    ensures var e := Step(ui, m, msg).0.confirm;
            (m.mode == Confirm && m.confirm == e) || (m.mode != Confirm && msg.Key? && Proposes(m, MeaningOf(msg.k), e))
  {
    if msg.Key? {
      KeyPrompts(ui, m, MeaningOf(msg.k));
    } else {
      ArrivalKeepsPrompt(ui, m, msg);
    }
  }

  lemma ArrivalKeepsPrompt(ui: Layout, m: Model, msg: Msg)
    requires !msg.Key?
    ensures Step(ui, m, msg).0.mode == m.mode && Step(ui, m, msg).0.confirm == m.confirm
  {
  }

  lemma KeyPrompts(ui: Layout, m: Model, n: Meaning)
    requires Inv(m) && Known(n) && OnMeaning(ui, m, n).0.mode == Confirm
    ensures var e := OnMeaning(ui, m, n).0.confirm;
            (m.mode == Confirm && m.confirm == e) || (m.mode != Confirm && Proposes(m, n, e))
  {
    if m.mode == Confirm {
      assert n.interrupt;
    } else {
      KeyProposes(ui, m, n);
    }
  }

  // -------------------------------------------------------------- whole runs

  ghost predicate Run(ui: Layout, models: seq<Model>, msgs: seq<Msg>, shellWired: bool) {
    && |models| == |msgs| + 1 && models[0] == NewModel(shellWired)
    && forall i :: 0 <= i < |msgs| ==> Follows(ui, models, msgs, i)
  }

  predicate Follows(ui: Layout, models: seq<Model>, msgs: seq<Msg>, i: nat)
    requires i < |msgs| && |models| == |msgs| + 1
  {
    models[i + 1] == Step(ui, models[i], msgs[i]).0
  }

  lemma {:induction false} RunKeepsInv(ui: Layout, models: seq<Model>, msgs: seq<Msg>, w: bool, i: nat)
    requires Run(ui, models, msgs, w) && i < |models|
    ensures Inv(models[i])
  {
    if i > 0 {
      RunKeepsInv(ui, models, msgs, w, i - 1);
      assert Follows(ui, models, msgs, i - 1);
      StepKeepsInv(ui, models[i - 1], msgs[i - 1]);
    }
  }

  /** The process list in hand came, whole, from one listing for its sandbox. */
  lemma {:induction false} ProcessesWereListed(ui: Layout, models: seq<Model>, msgs: seq<Msg>, w: bool, j: nat) returns (l: nat)
    requires Run(ui, models, msgs, w) && j < |models| && models[j].processes != []
    ensures l < j && msgs[l] == GotProcesses(models[j].procFor, models[j].processes, false)
  {
    var m, msg := models[j - 1], msgs[j - 1];
    assert Follows(ui, models, msgs, j - 1);
    if msg.GotProcesses? && msg.sandbox == FocusedName(m) && !msg.failed {
      l := j - 1;
    } else {
      RunKeepsInv(ui, models, msgs, w, j - 1);
      StepKeepsLists(ui, m, msg);
      l := ProcessesWereListed(ui, models, msgs, w, j - 1);
    }
  }

  lemma {:induction false} SandboxesWereListed(ui: Layout, models: seq<Model>, msgs: seq<Msg>, w: bool, j: nat) returns (l: nat)
    requires Run(ui, models, msgs, w) && j < |models| && models[j].sandboxes != []
    ensures l < j && msgs[l] == GotSandboxes(models[j].sandboxes, false)
  {
    var m, msg := models[j - 1], msgs[j - 1];
    assert Follows(ui, models, msgs, j - 1);
    if msg.GotSandboxes? && !msg.failed {
      l := j - 1;
    } else {
      RunKeepsInv(ui, models, msgs, w, j - 1);
      StepKeepsLists(ui, m, msg);
      l := SandboxesWereListed(ui, models, msgs, w, j - 1);
    }
  }

  predicate KeepsLists(m: Model, m': Model) {
    m'.sandboxes == m.sandboxes && (m'.processes == [] || (m'.processes == m.processes && m'.procFor == m.procFor))
  }

  lemma CommandKeepsLists(ui: Layout, m: Model, c: Command)
    requires Inv(m)
    ensures KeepsLists(m, OnCommand(ui, m, c).0)
  {
    CommandKeeps(ui, m, c);
  }

  lemma PickKeepsLists(m: Model, p: Pick)
    requires p.Digit? ==> p.n < |Signals|
    ensures KeepsLists(m, OnPick(m, p).0)
  {
  }

  lemma KeyKeepsLists(ui: Layout, m: Model, n: Meaning)
    requires Inv(m) && Known(n)
    ensures KeepsLists(m, OnMeaning(ui, m, n).0)
  {
    CommandKeepsLists(ui, m, n.command);
    PickKeepsLists(m, n.pick);
  }

  lemma StepKeepsLists(ui: Layout, m: Model, msg: Msg)
    requires Inv(m)
    ensures var m' := Step(ui, m, msg).0;
            && ((msg.GotSandboxes? && !msg.failed) || m'.sandboxes == m.sandboxes)
            && ((msg.GotProcesses? && msg.sandbox == FocusedName(m) && !msg.failed)
                || m'.processes == [] || (m'.processes == m.processes && m'.procFor == m.procFor))
  {
    if msg.Key? {
      KeyKeepsLists(ui, m, MeaningOf(msg.k));
    }
  }

  /** Where a prompt that is up came from: a key, since which nothing changed it. */
  lemma {:induction false} PromptWasProposed(ui: Layout, models: seq<Model>, msgs: seq<Msg>, w: bool, j: nat) returns (i: nat)
    requires Run(ui, models, msgs, w) && j < |models| && models[j].mode == Confirm
    ensures i < j && msgs[i].Key? && Proposes(models[i], MeaningOf(msgs[i].k), models[j].confirm)
    ensures forall k :: i < k <= j ==> models[k].mode == Confirm && models[k].confirm == models[j].confirm
  {
    RunKeepsInv(ui, models, msgs, w, j - 1);
    assert Follows(ui, models, msgs, j - 1);
    PromptIsStable(ui, models[j - 1], msgs[j - 1]);
    if models[j - 1].mode == Confirm {
      i := PromptWasProposed(ui, models, msgs, w, j - 1);
    } else {
      i := j - 1;
    }
  }

  predicate Lists(msg: Msg, sandbox: Word, id: Word) {
    msg.GotProcesses? && msg.sandbox == sandbox && !msg.failed && exists p :: p in msg.processes && p.id == id
  }

  predicate Knows(msg: Msg, sandbox: Word, address: Word) {
    msg.GotSandboxes? && !msg.failed && Sandbox(sandbox, address) in msg.sandboxes
  }

  /** Over every run: a signal or a restart leaves the model only at a yes to a
      prompt, and is what some earlier key proposed for the selection of that
      moment, whatever arrived in between. Its sandbox and process id were reported
      together by one listing for that sandbox before the key, its sandbox and
      address by one reading of the fleet. */
  lemma MutationsAreConfirmed(ui: Layout, models: seq<Model>, msgs: seq<Msg>, w: bool, j: nat, e: Effect) returns (i: nat, l: nat, f: nat)
    requires Run(ui, models, msgs, w) && j < |msgs| && e in Step(ui, models[j], msgs[j]).1 && Mutating(e)
    ensures l < i < j && f < i
    ensures msgs[j] == Key("y") || msgs[j] == Key("Y")
    ensures Step(ui, models[j], msgs[j]).1 == [e]
    ensures msgs[i].Key? && Proposes(models[i], MeaningOf(msgs[i].k), e)
    ensures forall k :: i < k <= j ==> models[k].mode == Confirm && models[k].confirm == e
    ensures Lists(msgs[l], e.sandbox, e.id) && Knows(msgs[f], e.sandbox, e.address)
  {
    OnlyAYesMutates(ui, models[j], msgs[j], e);
    i := PromptWasProposed(ui, models, msgs, w, j);
    l := ProcessesWereListed(ui, models, msgs, w, i);
    f := SandboxesWereListed(ui, models, msgs, w, i);
    assert SelectedProcess(models[i]) in msgs[l].processes;
    assert SelectedSandbox(models[i]) in msgs[f].sandboxes;
  }

  /** At every moment of every run the process list belongs to the focused sandbox
      or to none, so a selected process is one of that sandbox's. */
  lemma ListIsTheFocused(ui: Layout, models: seq<Model>, msgs: seq<Msg>, w: bool, j: nat)
    requires Run(ui, models, msgs, w) && j < |models|
    ensures models[j].procFor == NoName || models[j].procFor == FocusedName(models[j])
    ensures models[j].mode == Confirm <==> Mutating(models[j].confirm)
  {
    RunKeepsInv(ui, models, msgs, w, j);
  }

  /** A yes does what the prompt names, at once and nothing else, and the prompt is gone. */
  lemma AYesActs(ui: Layout, m: Model, k: string)
    requires Inv(m) && m.mode == Confirm && (k == "y" || k == "Y")
    ensures Mutating(m.confirm) && Step(ui, m, Key(k)) == (m.(confirm := Nothing, mode := Normal), [m.confirm])
  {
  }

  /** Whatever is not a yes answers a prompt with a no (ctrl+c leaves altogether);
      the key's usual meaning does not fall through. */
  lemma AnythingElseCancels(ui: Layout, m: Model, k: string)
    requires m.mode == Confirm && k != "y" && k != "Y" && k != "ctrl+c"
    ensures Step(ui, m, Key(k)) == (m.(confirm := Nothing, mode := Normal), [])
  {
  }

  // ------------------------------------------------------- what keys aim at

  /** Both cursors are on a row, or at zero where there is none. */
  predicate InRange(m: Model) {
    0 <= m.sbCursor <= MaxIndex(|m.sandboxes|) && 0 <= m.procCursor <= MaxIndex(|m.processes|)
  }

  lemma {:induction false} IndexInRange(list: seq<Sandbox>, name: Word, fallback: int, i: nat)
    requires i <= |list|
    ensures 0 <= IndexOf(list, name, fallback, i) <= MaxIndex(|list|)
    ensures (exists k :: i <= k < |list| && list[k].name == name) ==> list[IndexOf(list, name, fallback, i)].name == name
    decreases |list| - i
  {
    if i < |list| && list[i].name != name {
      IndexInRange(list, name, fallback, i + 1);
    }
  }

  lemma {:induction false} ProcessIndexInRange(list: seq<Process>, id: Word, fallback: int, i: nat)
    requires i <= |list|
    ensures 0 <= IndexOfProcess(list, id, fallback, i) <= MaxIndex(|list|)
    ensures (exists k :: i <= k < |list| && list[k].id == id) ==> list[IndexOfProcess(list, id, fallback, i)].id == id
    decreases |list| - i
  {
    if i < |list| && list[i].id != id {
      ProcessIndexInRange(list, id, fallback, i + 1);
    }
  }

  lemma MoveInRange(ui: Layout, m: Model, delta: int)
    requires InRange(m)
    ensures InRange(Move(ui, m, delta))
  {
  }

  lemma JumpInRange(ui: Layout, m: Model, top: bool)
    requires InRange(m)
    ensures InRange(Jump(ui, m, top))
  {
    match m.focus
    case Fleet => MoveInRange(ui, m, if top then 0 - |m.sandboxes| else |m.sandboxes|);
    case Processes => MoveInRange(ui, m, if top then 0 - |m.processes| else |m.processes|);
    case _ =>
  }

  lemma CursorsStay(ui: Layout, m: Model, c: Command)
    requires !MovesCursor(c)
    ensures var m' := OnCommand(ui, m, c).0;
            m'.sbCursor == m.sbCursor && m'.procCursor == m.procCursor && m'.sandboxes == m.sandboxes && m'.processes == m.processes
  {
  }

  lemma CommandInRange(ui: Layout, m: Model, c: Command)
    requires InRange(m)
    ensures InRange(OnCommand(ui, m, c).0)
  {
    if !MovesCursor(c) {
      CursorsStay(ui, m, c);
    } else if c.Top? || c.Bottom? {
      assert OnCommand(ui, m, c).0 == Jump(ui, m, c.Top?);
      JumpInRange(ui, m, c.Top?);
    } else {
      assert OnCommand(ui, m, c).0 == Move(ui, m, DeltaOf(ui, m, c));
      MoveInRange(ui, m, DeltaOf(ui, m, c));
    }
  }

  lemma KeyInRange(ui: Layout, m: Model, n: Meaning)
    requires InRange(m) && Known(n)
    ensures InRange(OnMeaning(ui, m, n).0)
  {
    if !n.interrupt && m.mode == Normal {
      CommandInRange(ui, m, n.command);
    }
  }

  lemma StepInRange(ui: Layout, m: Model, msg: Msg)
    requires InRange(m)
    ensures InRange(Step(ui, m, msg).0)
  {
    match msg
    case Key(k) => KeyInRange(ui, m, MeaningOf(k));
    case GotSandboxes(list, _) => IndexInRange(list, FocusedName(m), m.sbCursor, 0);
    case GotProcesses(_, list, _) =>
      ProcessIndexInRange(list, if HasProcess(m) then SelectedProcess(m).id else NoName, m.procCursor, 0);
    case _ =>
  }

  lemma {:induction false} RunInRange(ui: Layout, models: seq<Model>, msgs: seq<Msg>, w: bool, i: nat)
    requires Run(ui, models, msgs, w) && i < |models|
    ensures InRange(models[i])
  {
    if i > 0 {
      RunInRange(ui, models, msgs, w, i - 1);
      assert Follows(ui, models, msgs, i - 1);
      StepInRange(ui, models[i - 1], msgs[i - 1]);
    }
  }

  /** There is a process under the cursor, of the sandbox under the other. */
  predicate HasTarget(m: Model) {
    && 0 <= m.sbCursor < |m.sandboxes| && 0 <= m.procCursor < |m.processes|
    && m.procFor == m.sandboxes[m.sbCursor].name
  }

  /** The prompt is for that process, by its own sandbox's address. */
  predicate PromptsFor(m: Model, e: Effect)
    requires HasTarget(m)
  {
    var sb, p := m.sandboxes[m.sbCursor], m.processes[m.procCursor];
    && (e.Signal? || e.Restart?)
    && e.sandbox == sb.name && e.address == sb.address && e.id == p.id && e.name == p.name
  }

  lemma TargetIsSelected(m: Model)
    requires InRange(m)
    ensures HasTarget(m) <==> HasSandbox(m) && HasProcess(m)
    ensures HasTarget(m) ==> SelectedSandbox(m) == m.sandboxes[m.sbCursor] && SelectedProcess(m) == m.processes[m.procCursor]
  {
  }

  /** x asks to stop the process under the cursor, gracefully and with TERM, exactly
      if there is one and it is live. */
  lemma StopAsksFor(ui: Layout, m: Model)
    requires Inv(m) && InRange(m) && m.mode == Normal
    ensures var m' := Step(ui, m, Key("x")).0;
            && (m'.mode == Confirm <==> HasTarget(m) && m.processes[m.procCursor].live)
            && (m'.mode == Confirm ==> PromptsFor(m, m'.confirm) && m'.confirm.Signal? && m'.confirm.signal == TERM && m'.confirm.graceful)
  {
    TargetIsSelected(m);
    assert CommandOf("x") == Stop;
  }

  /** r asks to run it again, live or not. */
  lemma RestartAsksFor(ui: Layout, m: Model)
    requires Inv(m) && InRange(m) && m.mode == Normal
    ensures var m' := Step(ui, m, Key("r")).0;
            && (m'.mode == Confirm <==> HasTarget(m))
            && (m'.mode == Confirm ==> PromptsFor(m, m'.confirm) && m'.confirm.Restart?)
  {
    TargetIsSelected(m);
    assert CommandOf("r") == Rerun;
  }

  /** The signals in the picker's order. */
  predicate Numbered(k: string, sig: Sig) {
    || (k == "1" && sig == TERM) || (k == "2" && sig == INT) || (k == "3" && sig == HUP)
    || (k == "4" && sig == KILL) || (k == "5" && sig == USR1) || (k == "6" && sig == USR2)
  }

  lemma DigitOf(k: string, sig: Sig)
    requires Numbered(k, sig)
    ensures PickOf(k).Digit? && SignalAt(PickOf(k).n) == sig && k != "ctrl+c"
  {
    assert |k| == 1 && '1' <= k[0] <= '6';
  }

  lemma SignalAsksFor(m: Model, sig: Sig)
    requires InRange(m) && m.mode == Normal
    ensures var m' := Propose(m, SignalEffect(m, sig));
            && (m'.mode == Confirm <==> HasTarget(m))
            && (m'.mode == Confirm ==> PromptsFor(m, m'.confirm) && m'.confirm.Signal? && m'.confirm.signal == sig && !m'.confirm.graceful)
  {
    TargetIsSelected(m);
  }

  lemma PickingKey(ui: Layout, m: Model, k: string)
    requires m.mode == PickSignal && k != "ctrl+c"
    ensures Step(ui, m, Key(k)) == OnPick(m, PickOf(k))
  {
  }

  /** A digit asks to send the signal it numbers, and not as a graceful stop. */
  lemma DigitAsksFor(ui: Layout, m: Model, k: string, sig: Sig)
    requires InRange(m) && m.mode == PickSignal && Numbered(k, sig)
    ensures var m' := Step(ui, m, Key(k)).0;
            && (m'.mode == Confirm <==> HasTarget(m))
            && (m'.mode == Confirm ==> PromptsFor(m, m'.confirm) && m'.confirm.Signal? && m'.confirm.signal == sig && !m'.confirm.graceful)
  {
    DigitOf(k, sig);
    PickingKey(ui, m, k);
    SignalAsksFor(m.(mode := Normal), sig);
  }

  /** Enter asks to send the signal on the row the picker's cursor is on, and the
      arrows move that cursor one row, to the ends. */
  lemma EnterAsksFor(ui: Layout, m: Model)
    requires InRange(m) && m.mode == PickSignal && 0 <= m.sigIdx < 6
    ensures var m' := Step(ui, m, Key("enter")).0;
            && (m'.mode == Confirm <==> HasTarget(m))
            && (m'.mode == Confirm ==> PromptsFor(m, m'.confirm) && m'.confirm.Signal? && !m'.confirm.graceful
                                       && m'.confirm.signal == [TERM, INT, HUP, KILL, USR1, USR2][m.sigIdx])
  {
    PickingKey(ui, m, "enter");
    SignalAsksFor(m.(mode := Normal), SignalAt(m.sigIdx));
  }

  lemma ArrowsMoveTheRow(ui: Layout, m: Model)
    requires m.mode == PickSignal && 0 <= m.sigIdx < 6
    ensures Step(ui, m, Key("down")) == (m.(sigIdx := if m.sigIdx < 5 then m.sigIdx + 1 else 5), [])
    ensures Step(ui, m, Key("up")) == (m.(sigIdx := if m.sigIdx > 0 then m.sigIdx - 1 else 0), [])
  {
    PickingKey(ui, m, "down");
    PickingKey(ui, m, "up");
  }

  /** A new reading of the fleet leaves the focus on the sandbox it was on, wherever
      that is listed now, and with it all that was read from it; only if the sandbox
      is gone is everything read from it dropped. */
  lemma FocusFollowsTheName(ui: Layout, m: Model, list: seq<Sandbox>)
    requires Inv(m) && InRange(m) && HasSandbox(m)
    ensures var m' := Step(ui, m, GotSandboxes(list, false)).0;
            && ((exists k :: 0 <= k < |list| && list[k].name == FocusedName(m)) ==>
                  FocusedName(m') == FocusedName(m) && m'.processes == m.processes && m'.procFor == m.procFor
                  && m'.procCursor == m.procCursor && m'.logFor == m.logFor)
            && (FocusedName(m') != FocusedName(m) ==> m'.processes == [] && m'.procFor == NoName && m'.logFor == (NoName, NoName))
  {
    IndexInRange(list, FocusedName(m), m.sbCursor, 0);
  }

  /** Nor does a new listing move the selection to another process. */
  lemma SelectionFollowsTheId(ui: Layout, m: Model, list: seq<Process>)
    requires Inv(m) && InRange(m) && HasTarget(m)
    requires exists k :: 0 <= k < |list| && list[k].id == m.processes[m.procCursor].id
    ensures var m' := Step(ui, m, GotProcesses(m.procFor, list, false)).0;
            HasTarget(m') && m'.processes == list && m'.processes[m'.procCursor].id == m.processes[m.procCursor].id
  {
    ProcessIndexInRange(list, SelectedProcess(m).id, m.procCursor, 0);
  }

  /** So over every run: the key that put up the prompt a mutation answers was pressed
      with the mutation's process under the cursor. */
  lemma MutationsWereUnderTheCursor(ui: Layout, models: seq<Model>, msgs: seq<Msg>, w: bool, j: nat, e: Effect) returns (i: nat)
    requires Run(ui, models, msgs, w) && j < |msgs| && e in Step(ui, models[j], msgs[j]).1 && Mutating(e)
    ensures i < j && HasTarget(models[i]) && PromptsFor(models[i], e)
    ensures msgs[i].Key? && PromptKey(models[i].mode, msgs[i].k)
    ensures forall k :: i < k <= j ==> models[k].mode == Confirm && models[k].confirm == e
  {
    var l, f;
    i, l, f := MutationsAreConfirmed(ui, models, msgs, w, j, e);
    RunInRange(ui, models, msgs, w, i);
    TargetIsSelected(models[i]);
    ProposingKeys(models[i], msgs[i].k, e);
  }

  predicate IsFocused(m: Model, sandbox: Word) {
    if m.sandboxes == [] then sandbox == NoName else 0 <= m.sbCursor < |m.sandboxes| && m.sandboxes[m.sbCursor].name == sandbox
  }

  predicate IsTarget(m: Model, sandbox: Word, id: Word) {
    HasTarget(m) && m.procFor == sandbox && m.processes[m.procCursor].id == id
  }

  /** An answer about another sandbox or process than the one under the cursor changes
      nothing, and none asks for anything. */
  lemma LateAnswersAreDropped(ui: Layout, m: Model, msg: Msg)
    requires InRange(m) && (msg.GotProcesses? || msg.GotLogs? || msg.GotDetail?)
    requires if msg.GotLogs? then !IsTarget(m, msg.sandbox, msg.id) && msg.sandbox != NoName else !IsFocused(m, msg.sandbox)
    ensures Step(ui, m, msg) == (m, [])
  {
    TargetIsSelected(m);
  }
}
