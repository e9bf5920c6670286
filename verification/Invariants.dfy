/** What every reachable session keeps, and who owns it. */
module Invariants {
  import opened Basics
  import opened Machine

  /** The rung a session waiting since `elapsed` ago belongs on. */
  function Rung(cfg: Config, elapsed: Time): State {
    if elapsed > cfg.needRed then Waiting
    else if elapsed > cfg.needPulse then NeedsHeld
    else NeedsInput
  }

  /** The bookkeeping of one reachable session, read when the clock shows `now`. */
  ghost predicate Inv(cfg: Config, now: Time, s: Row) {
    && 0 <= s.bgTasks && 0 <= s.bgOther
    && (s.turnOver ==> s.bgTasks > 0)
    && s.stateSince <= s.lastEvent <= now
    && s.bgSeen <= now
    // A rung below the top was reached, so its threshold has passed.
    && (s.state.NeedsHeld? ==> now - s.stateSince > cfg.needPulse)
    && (s.state.Waiting? ==> now - s.stateSince > cfg.needRed)
  }

  ghost predicate InvOpt(cfg: Config, now: Time, o: Option<Row>) {
    o.Some? ==> Inv(cfg, now, o.value)
  }

  lemma RetireKeepsInv(cfg: Config, s: Row, now: Time)
    requires Inv(cfg, now, s)
    ensures Inv(cfg, now, Retire(cfg, s, now))
  {
  }

  lemma IdlePromptKeepsInv(cfg: Config, s: Row, now: Time, agent: string)
    requires Inv(cfg, now, s)
    ensures Inv(cfg, now, IdlePrompt(s, now, agent)) && Inv(cfg, now, WantAttention(s, now, agent))
  {
  }

  lemma ActivityKeepsInv(cfg: Config, s: Row, now: Time, agent: string)
    requires Inv(cfg, now, s)
    ensures Inv(cfg, now, Activity(s, now, agent))
  {
  }

  lemma TimersKeepInv(cfg: Config, s: Row, now: Time)
    requires Inv(cfg, now, s)
    ensures Inv(cfg, now, Timers(cfg, s, now))
  {
    match s.state
    case Idle => IdlePromptKeepsInv(cfg, s, now, "");
    case NeedsLook => IdlePromptKeepsInv(cfg, s, now, s.attnAgent);
    case _ =>
  }

  lemma TickKeepsInv(cfg: Config, s: Row, now: Time)
    requires Inv(cfg, now, s)
    ensures InvOpt(cfg, now, TickRow(cfg, s, now))
  {
    RetireKeepsInv(cfg, s, now);
    var a := Retire(cfg, s, now);
    IdlePromptKeepsInv(cfg, a.(idleHeld := false, idleHeldAgent := ""), now, a.idleHeldAgent);
    TimersKeepInv(cfg, Release(a, now), now);
  }

  lemma StopSubagentKeepsInv(cfg: Config, s: Row, tasks: TaskList, now: Time, agent: string)
    requires Inv(cfg, now, s)
    ensures Inv(cfg, now, StopSubagent(s, tasks, now, agent))
  {
  }

  lemma DispatchKeepsInv(cfg: Config, s: Row, hook: Hook, now: Time, agent: string)
    requires Inv(cfg, now, s)
    ensures Inv(cfg, now, Dispatch(s, hook, now, agent))
  {
    match hook
    case ToolUse(_, tool) => ActivityKeepsInv(cfg, NameTool(s, tool), now, agent);
    case PostToolBatch(calls) => ActivityKeepsInv(cfg, NameTool(s, LastBatchTool(calls)), now, agent);
    case PermissionDenied => ActivityKeepsInv(cfg, s, now, agent);
    case SubagentStop(tasks) => StopSubagentKeepsInv(cfg, s, tasks, now, agent);
    case _ => IdlePromptKeepsInv(cfg, s, now, agent);
  }

  lemma ReceiveKeepsInv(cfg: Config, clock: Time, o: Option<Row>, ev: Event, proc: Option<Proc>, now: Time)
    requires InvOpt(cfg, clock, o) && 0.0 <= clock <= now
    ensures Inv(cfg, now, Receive(cfg, o, ev, proc, now))
  {
    DispatchKeepsInv(cfg, Admit(cfg, o, ev, proc, now), ev.hook, now, ev.agent);
  }

  lemma StepKeepsInv(cfg: Config, sid: string, clock: Time, o: Option<Row>, input: Input, now: Time)
    requires InvOpt(cfg, clock, o) && 0.0 <= clock <= now
    ensures InvOpt(cfg, now, One(cfg, sid, o, input, now))
  {
    match input
    case Hooked(ev, proc) => ReceiveKeepsInv(cfg, clock, o, ev, proc, now);
    case Status(st) =>
    case Exited(who) =>
    case Tick => if o.Some? { TickKeepsInv(cfg, o.value, now); }
  }

  lemma {:induction false} ClockAdvances(start: Time, tr: seq<Timed>)
    requires Ordered(start, tr)
    ensures start <= Clock(start, tr)
    decreases |tr|
  {
    if tr != [] { ClockAdvances(start, Front(tr)); }
  }

  /** Every run keeps the bookkeeping, from any session that had it. */
  lemma {:induction false} RunKeepsInv(cfg: Config, sid: string, start: Time, o: Option<Row>, tr: seq<Timed>)
    requires InvOpt(cfg, start, o) && 0.0 <= start && Ordered(start, tr)
    ensures InvOpt(cfg, Clock(start, tr), Run(cfg, sid, o, tr))
    decreases |tr|
  {
    if tr != [] {
      RunKeepsInv(cfg, sid, start, o, Front(tr));
      ClockAdvances(start, Front(tr));
      StepKeepsInv(cfg, sid, Clock(start, Front(tr)), Run(cfg, sid, o, Front(tr)), Last(tr).input, Last(tr).now);
    }
  }

  // ---- the attention ladder ----

  /** A session on the alarm, soft or loud, keeps its place through `Retire` and `Release`;
      any other change of state is stamped. No count outlives its evidence, and no
      notification stays held without a count. */
  ghost predicate Opened(cfg: Config, s: Row, b: Row, now: Time) {
    && (b.lastEvent == s.lastEvent || b.lastEvent == now)
    && (b.state == s.state ==> b.stateSince == s.stateSince)
    && (b.state != s.state ==> b.stateSince == now == b.lastEvent && (Surfaced(b.state) || b.state.Idle?))
    && (Surfaced(s.state) ==> b.state == s.state && b.attnAgent == s.attnAgent)
    && (InFamily(b.state) && !InFamily(s.state) ==> b.state.NeedsInput?)
    && (b.state.Ended? ==> s.state.Ended?)
    && (b.bgTasks != 0 ==> b.bgTasks == s.bgTasks && now - s.bgSeen <= cfg.bgQuiet)
    && b.bgSeen == s.bgSeen
    && (b.idleHeld ==> s.idleHeld && b.bgTasks != 0)
    && (s.idleHeld && !b.idleHeld ==> Surfaced(b.state) && b.lastEvent == now)
    && b.pid == s.pid && b.pidCreated == s.pidCreated
  }

  function Opening(cfg: Config, s: Row, now: Time): Row {
    Release(Retire(cfg, s, now), now)
  }

  lemma TickOpens(cfg: Config, s: Row, now: Time)
    ensures Opened(cfg, s, Opening(cfg, s, now), now)
  {
    var a := Retire(cfg, s, now);
    assert Opened(cfg, s, a.(idleHeld := false), now) || s.idleHeld;
    assert a.idleHeld == s.idleHeld;
  }

  /** The tick puts a session in the family on the rung its waiting time alone decides. */
  lemma TickSettlesLadder(cfg: Config, clock: Time, s: Row, now: Time)
    requires Sane(cfg) && Inv(cfg, clock, s) && 0.0 <= clock <= now
    ensures var o := TickRow(cfg, s, now);
      Waits(o) ==> o.value.state == Rung(cfg, now - o.value.stateSince)
  {
    TickOpens(cfg, s, now);
  }

  /** Family membership before an input, None counting as outside. */
  predicate Waits(o: Option<Row>) {
    o.Some? && InFamily(o.value.state)
  }

  /** How an event moves a session: rungs are never swapped inside the family, any other
      change of state is stamped, and the recorded process is left alone. */
  ghost predicate Moved(s: Row, r: Row, now: Time) {
    && r.lastEvent == now
    && r.stateSince == (if r.state == s.state then s.stateSince else now)
    && (InFamily(s.state) && InFamily(r.state) ==> r.state == s.state)
    && r.pid == s.pid && r.pidCreated == s.pidCreated
  }

  lemma ActivityMoves(s: Row, now: Time, agent: string)
    ensures Moved(s, Activity(s, now, agent), now)
  {
  }

  lemma NotifyMoves(s: Row, notice: Notice, now: Time, agent: string)
    ensures Moved(s, Notify(s, notice, now, agent), now)
    ensures Moved(s, WantAttention(s, now, agent), now)
  {
  }

  lemma StopSubagentMoves(s: Row, tasks: TaskList, now: Time, agent: string)
    ensures Moved(s, StopSubagent(s, tasks, now, agent), now)
  {
  }

  lemma DispatchMoves(s: Row, hook: Hook, now: Time, agent: string)
    ensures Moved(s, Dispatch(s, hook, now, agent), now)
  {
    match hook
    case ToolUse(_, tool) => ActivityMoves(NameTool(s, tool), now, agent);
    case PostToolBatch(calls) => ActivityMoves(NameTool(s, LastBatchTool(calls)), now, agent);
    case PermissionDenied => ActivityMoves(s, now, agent);
    case PermissionRequest => NotifyMoves(s, PermissionPrompt, now, agent);
    case Notification(notice) => NotifyMoves(s, notice, now, agent);
    case SubagentStop(tasks) => StopSubagentMoves(s, tasks, now, agent);
    case _ =>
  }

  /** Entering the family stamps the entry; staying in it never restamps. */
  lemma StepStampsEntry(cfg: Config, sid: string, o: Option<Row>, input: Input, now: Time)
    ensures var p := One(cfg, sid, o, input, now);
      Waits(p) ==> p.value.stateSince == if Waits(o) then o.value.stateSince else now
  {
    match input
    case Hooked(ev, proc) =>
      DispatchMoves(Admit(cfg, o, ev, proc, now), ev.hook, now, ev.agent);
    case Status(st) =>
    case Exited(who) =>
    case Tick =>
      if o.Some? { TickStampsEntry(cfg, o.value, now); }
  }

  lemma TickStampsEntry(cfg: Config, s: Row, now: Time)
    ensures var p := TickRow(cfg, s, now);
      && (Waits(p) ==> p.value.stateSince == if InFamily(s.state) then s.stateSince else now)
      && (p.Some? ==> p.value.pid == s.pid && p.value.pidCreated == s.pidCreated)
  {
    TickOpens(cfg, s, now);
  }

  /** When the session, now waiting, last entered the family: read off the run alone. */
  ghost function EnteredAt(cfg: Config, sid: string, tr: seq<Timed>): Time
    requires Waits(Run(cfg, sid, None, tr))
    decreases |tr|
  {
    if Waits(Run(cfg, sid, None, Front(tr))) then EnteredAt(cfg, sid, Front(tr)) else Last(tr).now
  }

  lemma {:induction false} StateSinceIsEntry(cfg: Config, sid: string, tr: seq<Timed>)
    requires Waits(Run(cfg, sid, None, tr))
    ensures Run(cfg, sid, None, tr).value.stateSince == EnteredAt(cfg, sid, tr)
    decreases |tr|
  {
    StepStampsEntry(cfg, sid, Run(cfg, sid, None, Front(tr)), Last(tr).input, Last(tr).now);
    if Waits(Run(cfg, sid, None, Front(tr))) { StateSinceIsEntry(cfg, sid, Front(tr)); }
  }

  /**
   After every tick of every run the ladder is a function of time: the rung of a waiting
   session is the one its time in the family, measured from the entry, belongs on.
   */
  lemma LadderIsElapsedTime(cfg: Config, sid: string, start: Time, tr: seq<Timed>)
    requires Sane(cfg) && 0.0 <= start && Ordered(start, tr)
    requires tr != [] && Last(tr).input.Tick?
    requires Waits(Run(cfg, sid, None, tr))
    ensures Run(cfg, sid, None, tr).value.state == Rung(cfg, Last(tr).now - EnteredAt(cfg, sid, tr))
  {
    RunKeepsInv(cfg, sid, start, None, Front(tr));
    ClockAdvances(start, Front(tr));
    StateSinceIsEntry(cfg, sid, tr);
    TickSettlesLadder(cfg, Clock(start, Front(tr)), Run(cfg, sid, None, Front(tr)).value, Last(tr).now);
  }

  // ---- the recorded process ----

  /** The process that the events since the session was last created say owns it: the latest
      SessionStart that carried one, else the first event that did. */
  ghost function Owner(cfg: Config, sid: string, tr: seq<Timed>): Option<Proc>
    decreases |tr|
  {
    if tr == [] then None
    else
      var before := if Run(cfg, sid, None, Front(tr)).None? then None else Owner(cfg, sid, Front(tr));
      match Last(tr).input
      case Hooked(ev, Some(p)) =>
        if ev.sid == sid && sid != "" && (ev.hook.SessionStart? || before.None?) then Some(p) else before
      case _ => before
  }

  /** Process 0 is the system's own; it stands for "unknown" in a session. */
  ghost predicate RealProcs(tr: seq<Timed>) {
    forall i :: 0 <= i < |tr| && tr[i].input.Hooked? && tr[i].input.proc.Some? ==> tr[i].input.proc.value.pid != 0
  }

  /** On every run, drops and re-creations included, the recorded process is the owner. */
  lemma {:induction false} RecordedOwner(cfg: Config, sid: string, tr: seq<Timed>)
    requires RealProcs(tr)
    ensures var o := Run(cfg, sid, None, tr);
      o.Some? ==>
        && (Owner(cfg, sid, tr) == None <==> o.value.pid == 0)
        && (o.value.pid != 0 ==> Owner(cfg, sid, tr) == Some(Proc(o.value.pid, o.value.pidCreated)))
    decreases |tr|
  {
    if tr != [] {
      RecordedOwner(cfg, sid, Front(tr));
      var o := Run(cfg, sid, None, Front(tr));
      match Last(tr).input
      case Hooked(ev, proc) =>
        DispatchMoves(Admit(cfg, o, ev, proc, Last(tr).now), ev.hook, Last(tr).now, ev.agent);
      case Status(st) =>
      case Exited(who) =>
      case Tick =>
        if o.Some? { TickStampsEntry(cfg, o.value, Last(tr).now); }
    }
  }

  // ---- the directory and its label ----

  /** The directory a session is in: the last one that any of its inputs named since it was last created. */
  ghost function Directory(cfg: Config, sid: string, tr: seq<Timed>): string
    decreases |tr|
  {
    if tr == [] then ""
    else
      var before := if Run(cfg, sid, None, Front(tr)).None? then "" else Directory(cfg, sid, Front(tr));
      match Last(tr).input
      case Hooked(ev, _) => if ev.sid == sid && sid != "" && ev.cwd != "" then ev.cwd else before
      case Status(st) => if st.sid == sid && sid != "" && st.cwd != "" then st.cwd else before
      case _ => before
  }

  lemma DispatchKeepsPlace(s: Row, hook: Hook, now: Time, agent: string)
    ensures var r := Dispatch(s, hook, now, agent);
      r.about.cwd == s.about.cwd && r.about.title == s.about.title
  {
    match hook
    case ToolUse(_, tool) => assert Activity(NameTool(s, tool), now, agent).about == NameTool(s, tool).about;
    case PostToolBatch(calls) =>
      var tool := LastBatchTool(calls);
      assert Activity(NameTool(s, tool), now, agent).about == NameTool(s, tool).about;
    case Notification(notice) => assert Notify(s, notice, now, agent).about == s.about;
    case SubagentStop(tasks) => assert Resync(s, tasks, now, agent).about == s.about;
    case _ =>
  }

  lemma TickKeepsAbout(cfg: Config, s: Row, now: Time)
    ensures TickRow(cfg, s, now).Some? ==> TickRow(cfg, s, now).value.about == s.about
  {
    assert Retire(cfg, s, now).about == s.about;
    assert Opening(cfg, s, now).about == s.about;
  }

  /** Labelled by its directory, which is `cwd`. */
  predicate Placed(cfg: Config, s: Row, cwd: string) {
    s.about.cwd == cwd && s.about.title == cfg.titleOf(cwd)
  }

  lemma ReceivePlaces(cfg: Config, o: Option<Row>, ev: Event, proc: Option<Proc>, now: Time, before: string)
    requires if o.Some? then Placed(cfg, o.value, before) else before == ""
    ensures Placed(cfg, Receive(cfg, o, ev, proc, now), if ev.cwd != "" then ev.cwd else before)
  {
    DispatchKeepsPlace(Admit(cfg, o, ev, proc, now), ev.hook, now, ev.agent);
  }

  lemma RefreshPlaces(cfg: Config, o: Option<Row>, st: StatusLine, now: Time, before: string)
    requires if o.Some? then Placed(cfg, o.value, before) else before == ""
    ensures Placed(cfg, Refresh(cfg, o, st, now), if st.cwd != "" then st.cwd else before)
  {
  }

  /** On every run the label is that of the directory the session is in now, not of the first seen. */
  lemma {:induction false} LabelFollowsDirectory(cfg: Config, sid: string, tr: seq<Timed>)
    ensures var o := Run(cfg, sid, None, tr); o.Some? ==> Placed(cfg, o.value, Directory(cfg, sid, tr))
    decreases |tr|
  {
    if tr != [] {
      LabelFollowsDirectory(cfg, sid, Front(tr));
      var o, now := Run(cfg, sid, None, Front(tr)), Last(tr).now;
      var before := if o.None? then "" else Directory(cfg, sid, Front(tr));
      match Last(tr).input
      case Hooked(ev, proc) => ReceivePlaces(cfg, o, ev, proc, now, before);
      case Status(st) => RefreshPlaces(cfg, o, st, now, before);
      case Exited(who) =>
      case Tick => if o.Some? { TickKeepsAbout(cfg, o.value, now); }
    }
  }
}
