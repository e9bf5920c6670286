/**
 The state machine of one session, as functions on values.

 `Row` is the abstract value of a session record. Every function here specifies one
 method of the imperative store in Store.dfy; the properties of whole runs are
 proved about these functions.
 */
module Machine {
  import opened Basics

  datatype State =
    | Starting | Working | NeedsInput | NeedsHeld | NeedsLook
    | Waiting | Error | Idle | Stale | Ended

  /** The three rungs of the attention ladder. */
  predicate InFamily(st: State) {
    st.NeedsInput? || st.NeedsHeld? || st.Waiting?
  }

  /** Wants a human, loudly or softly. */
  predicate Surfaced(st: State) {
    InFamily(st) || st.NeedsLook?
  }

  datatype Config = Config(
    staleAfter: Time, idlePrompt: Time, idleStale: Time,
    needPulse: Time, needRed: Time, look: Time,
    endedGrace: Time, ghostAfter: Time, bgQuiet: Time,
    maxRows: int,
    titleOf: string -> string)  // the label of a working directory

  /** Every window is a length of time. */
  predicate Sane(cfg: Config) {
    && 0.0 <= cfg.staleAfter && 0.0 <= cfg.idlePrompt && 0.0 <= cfg.idleStale
    && 0.0 <= cfg.needPulse && 0.0 <= cfg.needRed && 0.0 <= cfg.look
    && 0.0 <= cfg.endedGrace && 0.0 <= cfg.ghostAfter && 0.0 <= cfg.bgQuiet
  }

  /** What a session shows about itself. No transition depends on any of it. */
  datatype About = About(
    cwd: string, title: string, lastTool: string, model: string,
    cost: Option<real>, ctx: Option<int>, mode: string, errorType: string)

  datatype Row = Row(
    sid: string, about: About,
    state: State, stateSince: Time, lastEvent: Time,
    bgTasks: int, bgOther: int,
    attnAgent: string, bgSeen: Time, turnOver: bool,
    idleHeld: bool, idleHeldAgent: string,
    pid: int, pidCreated: Time)

  // ---- payloads ----

  /** A JSON member that should hold text: absent, text, or null, a number or a boolean. */
  datatype Field = Missing | Text(value: string) | NotText

  datatype TaskEntry =
    | NotADict
    | Task(id: Field, kind: Field, status: Field)

  /** The `background_tasks` member of a payload. */
  datatype TaskList =
    | NoTasks
    | BadTasks
    | Tasks(entries: seq<TaskEntry>)

  datatype Notice =
    | PermissionPrompt | IdlePromptNotice | ElicitationDialog
    | ElicitationUrlDialog | AgentNeedsInput
    | Informational(kind: Option<string>)

  /** `PreToolUse`, `PostToolUse` and `PostToolUseFailure`, which are handled alike. */
  datatype ToolPhase = Pre | Post | PostFailure

  datatype Hook =
    | SessionStart
    | UserPromptSubmit
    | ToolUse(phase: ToolPhase, tool: string)
    | PostToolBatch(calls: seq<string>)  // one tool name per call, "" where there is none
    | PermissionRequest
    | PermissionDenied
    | Notification(notice: Notice)
    | Stop(tasks: TaskList)
    | SubagentStop(tasks: TaskList)
    | StopFailure(errorType: string)
    | SessionEnd
    | OtherHook

  datatype Event = Event(sid: string, cwd: string, mode: string, agent: string, hook: Hook)

  datatype Proc = Proc(pid: int, created: Time)

  datatype StatusLine =
    StatusLine(sid: string, cwd: string, model: string, cost: Option<real>, ctx: Option<int>)

  // ---- background work ----

  predicate LiveStatus(f: Field) {
    f.Missing? || (f.Text? && (f.value == "running" || f.value == "pending"))
  }

  predicate IsSubagent(t: TaskEntry) {
    t.Task? && t.kind.Text? && t.kind.value == "subagent"
  }

  predicate NeverFinishes(t: TaskEntry) {
    t.Task? && t.kind.Text? &&
    (t.kind.value == "monitor" || t.kind.value == "dream" || t.kind.value == "auto-mode scan")
  }

  predicate Excluded(t: TaskEntry, exclude: string) {
    t.Task? && exclude != "" && t.id == Text(exclude)
  }

  predicate InFlight(t: TaskEntry, exclude: string) {
    t.Task? && LiveStatus(t.status) && !Excluded(t, exclude)
  }

  function Count(entries: seq<TaskEntry>, keep: TaskEntry -> bool): (n: nat) {
    if entries == [] then 0
    else (if keep(entries[0]) then 1 else 0) + Count(entries[1..], keep)
  }

  /** How many subagents a payload lists as in flight. */
  function RunningTasks(tasks: TaskList, exclude: string): nat {
    if tasks.Tasks?
    then Count(tasks.entries, t => InFlight(t, exclude) && IsSubagent(t))
    else 0
  }

  /** How much other work, less the kinds that never finish, a payload lists as in flight. */
  function UntrackedTasks(tasks: TaskList, exclude: string): nat {
    if tasks.Tasks?
    then Count(tasks.entries, t => InFlight(t, exclude) && !IsSubagent(t) && !NeverFinishes(t))
    else 0
  }

  function LastBatchTool(calls: seq<string>): string {
    if calls == [] then ""
    else if Last(calls) != "" then Last(calls)
    else LastBatchTool(Front(calls))
  }

  // ---- transitions ----

  function SetState(s: Row, st: State, now: Time): Row {
    s.(state := st,
       stateSince := if st != s.state then now else s.stateSince,
       lastEvent := now)
  }

  function Fresh(cfg: Config, sid: string, cwd: string, now: Time): Row {
    Row(sid, About(cwd, cfg.titleOf(cwd), "", "", None, None, "", ""), Starting, now, now,
        0, 0, "", 0.0, false, false, "", 0, 0.0)
  }

  function GetOrCreate(cfg: Config, o: Option<Row>, sid: string, cwd: string, now: Time): Row {
    match o
    case None => Fresh(cfg, sid, cwd, now)
    case Some(s) =>
      if cwd != "" && cwd != s.about.cwd then s.(about := s.about.(cwd := cwd, title := cfg.titleOf(cwd))) else s
  }

  /** A tool event: work goes on, and the prompt its own sender raised was answered. */
  function Activity(s: Row, now: Time, agent: string): Row {
    var t := if agent == "" then s.(turnOver := false, idleHeld := false) else s;
    if InFamily(t.state) && agent != t.attnAgent
    then t.(lastEvent := now)
    else SetState(t, Working, now)
  }

  function WantAttention(s: Row, now: Time, agent: string): Row {
    if InFamily(s.state) then s.(lastEvent := now)
    else SetState(s.(idleHeld := false, attnAgent := agent), NeedsInput, now)
  }

  function IdlePrompt(s: Row, now: Time, agent: string): Row {
    if Surfaced(s.state) then s.(lastEvent := now)
    else if s.bgOther == 0 then WantAttention(s, now, agent)
    else SetState(s.(idleHeld := false, attnAgent := agent), NeedsLook, now)
  }

  function Notify(s: Row, notice: Notice, now: Time, agent: string): Row {
    match notice
    case Informational(_) => s.(lastEvent := now)
    case IdlePromptNotice =>
      if s.bgTasks != 0
      then s.(idleHeld := true, idleHeldAgent := agent, lastEvent := now)
      else IdlePrompt(s, now, agent)
    case _ => WantAttention(s, now, agent)
  }

  function StopTurn(s: Row, tasks: TaskList, now: Time): Row {
    var running := RunningTasks(tasks, "");
    SetState(s.(bgTasks := running, bgOther := UntrackedTasks(tasks, ""), bgSeen := now,
                turnOver := running != 0),
             if running != 0 then Working else Idle, now)
  }

  /** The background counts after a `SubagentStop`, before it decides whose move it is. */
  function Resync(s: Row, tasks: TaskList, now: Time, agent: string): Row {
    if tasks.NoTasks?
    then s.(bgTasks := if s.bgTasks > 1 then s.bgTasks - 1 else 0, bgSeen := now)
    else s.(bgTasks := RunningTasks(tasks, agent), bgOther := UntrackedTasks(tasks, agent), bgSeen := now)
  }

  function StopSubagent(s: Row, tasks: TaskList, now: Time, agent: string): Row {
    var t := Resync(s, tasks, now, agent);
    if t.turnOver && t.bgTasks == 0
    then SetState(t.(turnOver := false), Idle, now)
    else t.(lastEvent := now)
  }

  function NameTool(s: Row, tool: string): Row {
    if tool != "" then s.(about := s.about.(lastTool := tool)) else s
  }

  function SetError(s: Row, errorType: string): Row {
    s.(about := s.about.(errorType := errorType))
  }

  function Dispatch(s: Row, hook: Hook, now: Time, agent: string): Row {
    match hook
    case SessionStart => SetState(SetError(s, ""), Starting, now)
    case UserPromptSubmit =>
      SetState(SetError(s, "").(bgTasks := 0, bgOther := 0, turnOver := false, idleHeld := false),
               Working, now)
    case ToolUse(_, tool) => Activity(NameTool(s, tool), now, agent)
    case PostToolBatch(calls) => Activity(NameTool(s, LastBatchTool(calls)), now, agent)
    case PermissionRequest => WantAttention(s, now, agent)
    case PermissionDenied => Activity(s, now, agent)
    case Notification(notice) => Notify(s, notice, now, agent)
    case Stop(tasks) => StopTurn(s, tasks, now)
    case SubagentStop(tasks) => StopSubagent(s, tasks, now, agent)
    case StopFailure(e) => SetState(SetError(s, if e != "" then e else "error"), Error, now)
    case SessionEnd => SetState(s, Ended, now)
    case OtherHook => s.(lastEvent := now)
  }

  /** What every event records before its hook is looked at. */
  function Note(s: Row, ev: Event, proc: Option<Proc>, now: Time): Row {
    var adopt := proc.Some? && (ev.hook.SessionStart? || s.pid == 0);
    s.(pid := if adopt then proc.value.pid else s.pid,
       pidCreated := if adopt then proc.value.created else s.pidCreated,
       about := if ev.mode != "" then s.about.(mode := ev.mode) else s.about,
       bgSeen := if ev.agent != "" then now else s.bgSeen)
  }

  function Admit(cfg: Config, o: Option<Row>, ev: Event, proc: Option<Proc>, now: Time): Row {
    Note(GetOrCreate(cfg, o, ev.sid, ev.cwd, now), ev, proc, now)
  }

  /** One hook payload, for the session it names. */
  function Receive(cfg: Config, o: Option<Row>, ev: Event, proc: Option<Proc>, now: Time): Row {
    Dispatch(Admit(cfg, o, ev, proc, now), ev.hook, now, ev.agent)
  }

  function ShowStatus(s: Row, st: StatusLine): Row {
    s.(about := s.about.(model := st.model, cost := if st.cost.Some? then st.cost else s.about.cost, ctx := st.ctx))
  }

  /** One statusline payload, for the session it names. */
  function Refresh(cfg: Config, o: Option<Row>, st: StatusLine, now: Time): Row {
    ShowStatus(GetOrCreate(cfg, o, st.sid, st.cwd, now), st)
  }

  /** The session's process has exited, or its owner asked to forget it. */
  function Exit(s: Row, now: Time): Row {
    if s.state.Ended? then s else SetState(s, Ended, now)
  }

  // ---- time ----

  /** A background count nobody confirmed for `bgQuiet` is dropped. */
  function Retire(cfg: Config, s: Row, now: Time): Row {
    if s.bgTasks != 0 && now - s.bgSeen > cfg.bgQuiet then
      var t := s.(bgTasks := 0, turnOver := false);
      if s.turnOver && s.state.Working? then SetState(t, Idle, now) else t
    else s
  }

  /** With nothing left to hold it back, a held idle_prompt is delivered. */
  function Release(s: Row, now: Time): Row {
    if s.idleHeld && s.bgTasks == 0
    then IdlePrompt(s.(idleHeld := false, idleHeldAgent := ""), now, s.idleHeldAgent)
    else s
  }

  function Timers(cfg: Config, s: Row, now: Time): Row {
    if s.state.Working? && now - s.lastEvent > cfg.staleAfter then
      SetState(s, if s.turnOver then Idle else Stale, now)
    else if s.state.Idle? && now - s.stateSince > cfg.idlePrompt then
      IdlePrompt(s, now, "")
    else if s.state.Starting? && now - s.lastEvent > cfg.idleStale then
      SetState(s, Stale, now)
    else if s.state.NeedsLook? && now - s.stateSince > cfg.look then
      WantAttention(s, now, s.attnAgent)
    else if s.state.NeedsInput? || s.state.NeedsHeld? then
      var waited := now - s.stateSince;
      if waited > cfg.needRed then s.(state := Waiting)
      else if waited > cfg.needPulse then s.(state := NeedsHeld)
      else s
    else s
  }

  /** One tick of the clock for one session; None when the session is dropped. */
  function TickRow(cfg: Config, s: Row, now: Time): Option<Row> {
    if s.state.Ended? then
      if now - s.stateSince > cfg.endedGrace then None else Some(s)
    else if now - s.lastEvent > cfg.ghostAfter then None
    else Some(Timers(cfg, Release(Retire(cfg, s, now), now), now))
  }

  // ---- runs of one session ----

  datatype Input =
    | Hooked(ev: Event, proc: Option<Proc>)
    | Status(st: StatusLine)
    | Exited(sid: string)
    | Tick

  datatype Timed = At(input: Input, now: Time)

  /** One input as session `sid` sees it. Inputs that name no session change nothing. */
  function One(cfg: Config, sid: string, o: Option<Row>, input: Input, now: Time): Option<Row> {
    match input
    case Hooked(ev, proc) =>
      if ev.sid == sid && sid != "" then Some(Receive(cfg, o, ev, proc, now)) else o
    case Status(st) =>
      if st.sid == sid && sid != "" then Some(Refresh(cfg, o, st, now)) else o
    case Exited(who) =>
      if who == sid && o.Some? then Some(Exit(o.value, now)) else o
    case Tick =>
      if o.Some? then TickRow(cfg, o.value, now) else None
  }

  /** The session after a whole trace. `Run(…, tr[..k])` is the session after k inputs. */
  function Run(cfg: Config, sid: string, o: Option<Row>, tr: seq<Timed>): Option<Row>
    decreases |tr|
  {
    if tr == [] then o
    else One(cfg, sid, Run(cfg, sid, o, Front(tr)), Last(tr).input, Last(tr).now)
  }

  /** The clock after a trace that began at `start`. */
  function Clock(start: Time, tr: seq<Timed>): Time {
    if tr == [] then start else Last(tr).now
  }

  /** The clock never runs backwards. */
  ghost predicate Ordered(start: Time, tr: seq<Timed>)
    decreases |tr|
  {
    tr == [] || (Ordered(start, Front(tr)) && Clock(start, Front(tr)) <= Last(tr).now)
  }

  /** When the clock last ticked, counting the start of the trace as a tick. */
  function LastTick(start: Time, tr: seq<Timed>): Time
    decreases |tr|
  {
    if tr == [] then start
    else if Last(tr).input.Tick? then Last(tr).now
    else LastTick(start, Front(tr))
  }

  /** Nothing happens, and no tick comes, later than `gap` after the previous tick. */
  ghost predicate Ticking(start: Time, tr: seq<Timed>, gap: Time)
    decreases |tr|
  {
    tr == [] || (Ticking(start, Front(tr), gap) && Last(tr).now - LastTick(start, Front(tr)) <= gap)
  }
}
