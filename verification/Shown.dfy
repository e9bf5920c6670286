/** What a session shows about itself, read off its inputs. */
module Shown {
  import opened Basics
  import opened Machine
  import opened Invariants
  import opened Attention

  predicate Own(sid: string, input: Input) {
    sid != "" && match input
                 case Hooked(ev, _) => ev.sid == sid
                 case Status(st) => st.sid == sid
                 case _ => false
  }

  /** What the newest input of the session that says anything on the matter says, since the session
      was last created; `none` when no input does. */
  ghost function Newest<T>(cfg: Config, sid: string, tr: seq<Timed>, says: Input -> Option<T>, none: T): T
    decreases |tr|
  {
    if tr == [] then none
    else
      var before := if Run(cfg, sid, None, Front(tr)).None? then none else Newest(cfg, sid, Front(tr), says, none);
      if Own(sid, Last(tr).input) then says(Last(tr).input).GetOr(before) else before
  }

  function Unless(s: string, empty: string): Option<string> {
    if s == empty then None else Some(s)
  }

  /** A tool event names its tool, a batch the last of its calls that has a name. */
  function SaysTool(input: Input): Option<string> {
    if !input.Hooked? then None
    else
      match input.ev.hook
      case ToolUse(_, tool) => Unless(tool, "")
      case PostToolBatch(calls) => Unless(LastBatchTool(calls), "")
      case _ => None
  }

  function SaysModel(input: Input): Option<string> {
    if input.Status? then Some(input.st.model) else None
  }

  /** A status line without a cost says nothing about it; one without a context figure takes it away. */
  function SaysCost(input: Input): Option<Option<real>> {
    if input.Status? && input.st.cost.Some? then Some(input.st.cost) else None
  }

  function SaysContext(input: Input): Option<Option<int>> {
    if input.Status? then Some(input.st.ctx) else None
  }

  function SaysMode(input: Input): Option<string> {
    if input.Hooked? then Unless(input.ev.mode, "") else None
  }

  /** A failed turn says which error; a new prompt or a start, that there is none any more. */
  function SaysError(input: Input): Option<string> {
    if !input.Hooked? then None
    else
      match input.ev.hook
      case StopFailure(e) => Some(if e == "" then "error" else e)
      case UserPromptSubmit => Some("")
      case SessionStart => Some("")
      case _ => None
  }

  lemma {:induction false} BatchNamesLast(calls: seq<string>, tool: string)
    ensures LastBatchTool(calls) == tool && tool != "" <==>
            exists i :: 0 <= i < |calls| && calls[i] == tool != "" && forall j :: i < j < |calls| ==> calls[j] == ""
    decreases |calls|
  {
    if calls != [] {
      var n := |calls| - 1;
      BatchNamesLast(Front(calls), tool);
      assert forall i :: 0 <= i < n ==> Front(calls)[i] == calls[i];
      assert Last(calls) == calls[n];
      if calls[n] == "" && LastBatchTool(calls) == tool != "" {
        var i :| 0 <= i < n && Front(calls)[i] == tool && forall j :: i < j < n ==> Front(calls)[j] == "";
        assert calls[i] == tool && forall j :: i < j < |calls| ==> calls[j] == "";
      }
    }
  }

  lemma DispatchShows(s: Row, hook: Hook, now: Time, agent: string)
    ensures var r := Dispatch(s, hook, now, agent);
      r.about == s.about.(
        lastTool := SaysTool(Hooked(Event("", "", "", "", hook), None)).GetOr(s.about.lastTool),
        errorType := SaysError(Hooked(Event("", "", "", "", hook), None)).GetOr(s.about.errorType))
  {
    match hook
    case ToolUse(_, tool) => assert Activity(NameTool(s, tool), now, agent).about == NameTool(s, tool).about;
    case PostToolBatch(calls) =>
      var tool := LastBatchTool(calls);
      assert Activity(NameTool(s, tool), now, agent).about == NameTool(s, tool).about;
    case PermissionDenied => assert Activity(s, now, agent).about == s.about;
    case Notification(notice) => assert Notify(s, notice, now, agent).about == s.about;
    case SubagentStop(tasks) => assert Resync(s, tasks, now, agent).about == s.about;
    case _ =>
  }

  /** The six things shown beside the directory and its label. */
  ghost predicate Shows(
    a: About, tool: string, model: string, cost: Option<real>, ctx: Option<int>, mode: string, error: string)
  {
    a.lastTool == tool && a.model == model && a.cost == cost && a.ctx == ctx && a.mode == mode && a.errorType == error
  }

  lemma ReceiveShows(cfg: Config, o: Option<Row>, ev: Event, proc: Option<Proc>, now: Time)
    ensures var a := if o.None? then About("", "", "", "", None, None, "", "") else o.value.about;
      var input := Hooked(ev, proc);
      Shows(Receive(cfg, o, ev, proc, now).about, SaysTool(input).GetOr(a.lastTool), a.model, a.cost, a.ctx,
            SaysMode(input).GetOr(a.mode), SaysError(input).GetOr(a.errorType))
  {
    DispatchShows(Admit(cfg, o, ev, proc, now), ev.hook, now, ev.agent);
  }

  lemma RefreshShows(cfg: Config, o: Option<Row>, st: StatusLine, now: Time)
    ensures var a := if o.None? then About("", "", "", "", None, None, "", "") else o.value.about;
      Shows(Refresh(cfg, o, st, now).about, a.lastTool, st.model, if st.cost.Some? then st.cost else a.cost, st.ctx,
            a.mode, a.errorType)
  {
  }

  /** On every run each of them is what the newest input that speaks of it said. */
  lemma {:induction false} ShowsTheNewest(cfg: Config, sid: string, tr: seq<Timed>)
    ensures var o := Run(cfg, sid, None, tr);
      o.Some? ==>
        Shows(o.value.about, Newest(cfg, sid, tr, SaysTool, ""), Newest(cfg, sid, tr, SaysModel, ""),
              Newest(cfg, sid, tr, SaysCost, None), Newest(cfg, sid, tr, SaysContext, None),
              Newest(cfg, sid, tr, SaysMode, ""), Newest(cfg, sid, tr, SaysError, ""))
    decreases |tr|
  {
    if tr != [] {
      ShowsTheNewest(cfg, sid, Front(tr));
      var o, now := Run(cfg, sid, None, Front(tr)), Last(tr).now;
      match Last(tr).input
      case Hooked(ev, proc) => ReceiveShows(cfg, o, ev, proc, now);
      case Status(st) => RefreshShows(cfg, o, st, now);
      case Exited(who) =>
      case Tick => if o.Some? { TickKeepsAbout(cfg, o.value, now); }
    }
  }

  /** After an input that names it a session exists, whatever there was before; and a session that no
      input has named does not. */
  lemma {:induction false} NamedExists(cfg: Config, sid: string, tr: seq<Timed>)
    ensures tr != [] && Own(sid, Last(tr).input) ==> Run(cfg, sid, None, tr).Some?
    ensures (forall i :: 0 <= i < |tr| ==> !Own(sid, tr[i].input)) ==> Run(cfg, sid, None, tr).None?
    decreases |tr|
  {
    if tr != [] {
      NamedExists(cfg, sid, Front(tr));
      assert Last(tr) == tr[|tr| - 1] && forall i :: 0 <= i < |tr| - 1 ==> Front(tr)[i] == tr[i];
    }
  }

  // ---- what softens an alarm ----

  /** A Stop, or a SubagentStop that brings a list, says how much other work is in flight; a new prompt,
      that none is. */
  function SaysOthers(input: Input): Option<int> {
    if !input.Hooked? then None
    else
      match input.ev.hook
      case Stop(tasks) => Some(UntrackedTasks(tasks, ""))
      case SubagentStop(tasks) =>
        if tasks.NoTasks? then None else Some(UntrackedTasks(tasks, input.ev.agent))
      case UserPromptSubmit => Some(0)
      case _ => None
  }

  lemma DispatchSaysOthers(s: Row, ev: Event, proc: Option<Proc>, now: Time)
    ensures Dispatch(s, ev.hook, now, ev.agent).bgOther == SaysOthers(Hooked(ev, proc)).GetOr(s.bgOther)
  {
    match ev.hook
    case ToolUse(_, tool) => assert Activity(NameTool(s, tool), now, ev.agent).bgOther == s.bgOther;
    case PostToolBatch(calls) => assert Activity(NameTool(s, LastBatchTool(calls)), now, ev.agent).bgOther == s.bgOther;
    case PermissionDenied => assert Activity(s, now, ev.agent).bgOther == s.bgOther;
    case Notification(notice) => assert Notify(s, notice, now, ev.agent).bgOther == s.bgOther;
    case SubagentStop(tasks) =>
      assert Resync(s, tasks, now, ev.agent).bgOther == SaysOthers(Hooked(ev, proc)).GetOr(s.bgOther);
    case _ =>
  }

  lemma TickKeepsOthers(cfg: Config, s: Row, now: Time)
    ensures var o := TickRow(cfg, s, now); o.Some? ==> o.value.bgOther == s.bgOther
  {
    assert Opening(cfg, s, now).bgOther == s.bgOther;
  }

  lemma {:induction false} OthersAreTheNewest(cfg: Config, sid: string, tr: seq<Timed>)
    ensures var o := Run(cfg, sid, None, tr); o.Some? ==> o.value.bgOther == Newest(cfg, sid, tr, SaysOthers, 0)
    decreases |tr|
  {
    if tr != [] {
      OthersAreTheNewest(cfg, sid, Front(tr));
      var o, now := Run(cfg, sid, None, Front(tr)), Last(tr).now;
      match Last(tr).input
      case Hooked(ev, proc) => DispatchSaysOthers(Admit(cfg, o, ev, proc, now), ev, proc, now);
      case Status(st) =>
      case Exited(who) =>
      case Tick => if o.Some? { TickKeepsOthers(cfg, o.value, now); }
    }
  }

  /** The alarm an indirect notification or a timer raises. */
  predicate AsLoudAs(st: State, others: int) {
    st == if others == 0 then NeedsInput else NeedsLook
  }

  lemma TickIsAsLoud(cfg: Config, s: Row, now: Time)
    requires Sane(cfg) && !Surfaced(s.state)
    ensures var o := TickRow(cfg, s, now); o.Some? && Surfaced(o.value.state) ==> AsLoudAs(o.value.state, s.bgOther)
  {
    OpeningIsAsLoud(cfg, s, now);
  }

  lemma OpeningIsAsLoud(cfg: Config, s: Row, now: Time)
    requires !Surfaced(s.state)
    ensures var b := Opening(cfg, s, now);
      b.bgOther == s.bgOther && (Surfaced(b.state) ==> AsLoudAs(b.state, s.bgOther) && b.stateSince == now)
  {
  }

  lemma HookIsAsLoud(s: Row, ev: Event, now: Time)
    requires !Surfaced(s.state) && !DirectAsk(ev.hook)
    ensures var r := Dispatch(s, ev.hook, now, ev.agent);
      Surfaced(r.state) ==> AsLoudAs(r.state, s.bgOther) && r.bgOther == s.bgOther
  {
    match ev.hook
    case ToolUse(_, tool) => assert Activity(NameTool(s, tool), now, ev.agent).state == Working;
    case PostToolBatch(calls) => assert Activity(NameTool(s, LastBatchTool(calls)), now, ev.agent).state == Working;
    case PermissionDenied => assert Activity(s, now, ev.agent).state == Working;
    case SubagentStop(tasks) => assert Resync(s, tasks, now, ev.agent).state == s.state;
    case _ =>
  }

  /**
   On every run, an input other than a direct ask that brings a session onto the display does so
   loudly exactly when the newest list of the session had no other work in flight, and softly
   otherwise.
   */
  lemma SoftExactlyWhenOthersListed(cfg: Config, sid: string, tr: seq<Timed>)
    requires Sane(cfg) && tr != []
    requires var o, p := Run(cfg, sid, None, Front(tr)), Run(cfg, sid, None, tr);
      p.Some? && Surfaced(p.value.state) && (o.Some? ==> !Surfaced(o.value.state))
    requires Last(tr).input.Hooked? ==> !DirectAsk(Last(tr).input.ev.hook)
    ensures AsLoudAs(Run(cfg, sid, None, tr).value.state, Newest(cfg, sid, tr, SaysOthers, 0))
  {
    OthersAreTheNewest(cfg, sid, tr);
    OthersAreTheNewest(cfg, sid, Front(tr));
    var o, now := Run(cfg, sid, None, Front(tr)), Last(tr).now;
    match Last(tr).input
    case Hooked(ev, proc) =>
      HookIsAsLoud(Admit(cfg, o, ev, proc, now), ev, now);
    case Status(st) =>
    case Exited(who) =>
    case Tick =>
      TickIsAsLoud(cfg, o.value, now);
      TickKeepsOthers(cfg, o.value, now);
  }
}
