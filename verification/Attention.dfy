/** Notifications are never lost, and what ends a wait: the asker's own progress and a short list of
    other events, one of which can be a stranger's. */
module Attention {
  import opened Basics
  import opened Machine
  import opened Invariants
  import opened Ticks

  // ---- who is asked, and how loudly ----

  /** A direct ask: a permission request, or a notification that a human has to act on. */
  predicate DirectAsk(hook: Hook) {
    || hook.PermissionRequest?
    || (hook.Notification? && !hook.notice.Informational? && !hook.notice.IdlePromptNotice?)
  }

  lemma DispatchAsks(s: Row, hook: Hook, now: Time, agent: string)
    requires DirectAsk(hook)
    ensures Dispatch(s, hook, now, agent) == WantAttention(s, now, agent)
  {
    match hook
    case PermissionRequest =>
    case Notification(notice) => assert Notify(s, notice, now, agent) == WantAttention(s, now, agent);
  }

  /** The session asks, or goes on waiting for whoever asked first, who alone is recorded. */
  lemma AskShows(cfg: Config, o: Option<Row>, ev: Event, proc: Option<Proc>, now: Time)
    requires DirectAsk(ev.hook)
    ensures var r := Receive(cfg, o, ev, proc, now);
      && InFamily(r.state)
      && r.stateSince == (if Waits(o) then o.value.stateSince else now)
      && r.attnAgent == (if Waits(o) then o.value.attnAgent else ev.agent)
  {
    DispatchAsks(Admit(cfg, o, ev, proc, now), ev.hook, now, ev.agent);
  }

  /** Nobody else is being waited for. */
  predicate Heard(o: Option<Row>, agent: string) {
    Waits(o) ==> o.value.attnAgent == agent
  }

  /**
   After a direct ask, whatever the session was doing and with whatever in the background, it stays
   on the ladder over every run without an answer to the recorded asker, on the rung of the time
   since it entered. The recorded asker is the one that asked exactly when nobody else was being
   waited for.
   */
  lemma AskStandsUntilAnswered(
    cfg: Config, sid: string, o: Option<Row>, ev: Event, proc: Option<Proc>, at: Time, tr: seq<Timed>)
    requires Sane(cfg) && DirectAsk(ev.hook) && InvOpt(cfg, at, o) && 0.0 <= at && Ordered(at, tr)
    requires Unanswered(cfg, sid, Receive(cfg, o, ev, proc, at), tr)
    ensures var a := Run(cfg, sid, Some(Receive(cfg, o, ev, proc, at)), tr);
      var since := if Waits(o) then o.value.stateSince else at;
      && Waits(a) && a.value.stateSince == since
      && (a.value.attnAgent == ev.agent <==> Heard(o, ev.agent))
      && (tr != [] && Last(tr).input.Tick? ==> a.value.state == Rung(cfg, Last(tr).now - since))
  {
    var r := Receive(cfg, o, ev, proc, at);
    AskShows(cfg, o, ev, proc, at);
    ReceiveKeepsInv(cfg, at, o, ev, proc, at);
    WaitSurvives(cfg, sid, at, r, tr);
    if tr != [] && Last(tr).input.Tick? {
      RunKeepsInv(cfg, sid, at, Some(r), Front(tr));
      ClockAdvances(at, Front(tr));
      TickSettlesLadder(cfg, Clock(at, Front(tr)), Run(cfg, sid, Some(r), Front(tr)).value, Last(tr).now);
    }
  }

  /** No input of the trace would end a wait for `agent`, whoever is recorded. */
  ghost predicate UnansweredBy(cfg: Config, sid: string, agent: string, s: Row, tr: seq<Timed>)
    decreases |tr|
  {
    tr == [] ||
    (UnansweredBy(cfg, sid, agent, s, Front(tr)) &&
     var o := Run(cfg, sid, Some(s), Front(tr));
     o.Some? && !Answers(cfg, sid, o.value.(attnAgent := agent), Last(tr).input, Last(tr).now))
  }

  lemma {:induction false} RecordedIsUnanswered(cfg: Config, sid: string, start: Time, s: Row, tr: seq<Timed>)
    requires InFamily(s.state) && Inv(cfg, start, s) && 0.0 <= start && Ordered(start, tr)
    requires UnansweredBy(cfg, sid, s.attnAgent, s, tr)
    ensures Unanswered(cfg, sid, s, tr)
    decreases |tr|
  {
    if tr != [] {
      RecordedIsUnanswered(cfg, sid, start, s, Front(tr));
      WaitSurvives(cfg, sid, start, s, Front(tr));
      var a := Run(cfg, sid, Some(s), Front(tr)).value;
      assert a.(attnAgent := s.attnAgent) == a;
    }
  }

  /** The ask stays on display over every run that does not answer the agent that raised it. */
  ghost predicate Stands(cfg: Config, sid: string, agent: string, s: Row, at: Time) {
    forall tr: seq<Timed> ::
      Ordered(at, tr) && UnansweredBy(cfg, sid, agent, s, tr) ==> Waits(Run(cfg, sid, Some(s), tr))
  }

  /** That is so exactly when nobody else was being waited for: otherwise one tool event of whoever
      asked first takes the row off the ladder, with the later prompt still open. */
  lemma AskStandsExactly(cfg: Config, sid: string, o: Option<Row>, ev: Event, proc: Option<Proc>, at: Time)
    requires DirectAsk(ev.hook) && sid != "" && InvOpt(cfg, at, o) && 0.0 <= at
    ensures Stands(cfg, sid, ev.agent, Receive(cfg, o, ev, proc, at), at) <==> Heard(o, ev.agent)
  {
    var r := Receive(cfg, o, ev, proc, at);
    AskShows(cfg, o, ev, proc, at);
    ReceiveKeepsInv(cfg, at, o, ev, proc, at);
    if Heard(o, ev.agent) {
      forall tr: seq<Timed> | Ordered(at, tr) && UnansweredBy(cfg, sid, ev.agent, r, tr)
        ensures Waits(Run(cfg, sid, Some(r), tr))
      {
        RecordedIsUnanswered(cfg, sid, at, r, tr);
        WaitSurvives(cfg, sid, at, r, tr);
      }
    } else {
      FirstAskerEnds(cfg, sid, r, ev.agent, at);
    }
  }

  /** A batch of the recorded asker's tools has run. */
  function FirstAskerGoesOn(sid: string, s: Row, now: Time): Timed {
    At(Hooked(Event(sid, "", "", s.attnAgent, PostToolBatch([])), None), now)
  }

  lemma FirstAskerEnds(cfg: Config, sid: string, s: Row, agent: string, now: Time)
    requires InFamily(s.state) && s.attnAgent != agent && sid != ""
    ensures !Stands(cfg, sid, agent, s, now)
  {
    var tr := [FirstAskerGoesOn(sid, s, now)];
    assert Front(tr) == [] && Last(tr) == FirstAskerGoesOn(sid, s, now);
    assert Ordered(now, Front(tr)) && UnansweredBy(cfg, sid, agent, s, Front(tr));
    assert Run(cfg, sid, Some(s), Front(tr)) == Some(s);
    assert !Answers(cfg, sid, s.(attnAgent := agent), Last(tr).input, now);
    assert Ordered(now, tr) && UnansweredBy(cfg, sid, agent, s, tr);
    assert Run(cfg, sid, Some(s), tr).value.state == Working;
  }

  lemma RunThree(cfg: Config, sid: string, o: Option<Row>, a: Timed, b: Timed, c: Timed)
    ensures Run(cfg, sid, o, [a, b]) == One(cfg, sid, One(cfg, sid, o, a.input, a.now), b.input, b.now)
    ensures Run(cfg, sid, o, [a, b, c]) == One(cfg, sid, Run(cfg, sid, o, [a, b]), c.input, c.now)
  {
    assert Front([a, b, c]) == [a, b] && Front([a, b]) == [a] && Front([a]) == [];
    assert Run(cfg, sid, o, [a]) == One(cfg, sid, Run(cfg, sid, o, []), a.input, a.now);
  }

  /** From nothing: the main thread asks, then "a1" asks, then the main thread's tools run. The
      prompt of "a1" was never recorded, and the row is WORKING with it still open. */
  lemma SecondAskIsLost(cfg: Config, at: Time)
    ensures
      var first := At(Hooked(Event("s", "", "", "", PermissionRequest), None), at);
      var second := At(Hooked(Event("s", "", "", "a1", PermissionRequest), None), at);
      var tools := At(Hooked(Event("s", "", "", "", PostToolBatch([])), None), at);
      var asked, lost := Run(cfg, "s", None, [first, second]), Run(cfg, "s", None, [first, second, tools]);
      && Waits(asked) && asked.value.attnAgent == ""
      && lost.Some? && lost.value.state == Working
  {
    var first := At(Hooked(Event("s", "", "", "", PermissionRequest), None), at);
    var second := At(Hooked(Event("s", "", "", "a1", PermissionRequest), None), at);
    var tools := At(Hooked(Event("s", "", "", "", PostToolBatch([])), None), at);
    RunThree(cfg, "s", None, first, second, tools);
    AskShows(cfg, None, first.input.ev, None, at);
    AskShows(cfg, One(cfg, "s", None, first.input, at), second.input.ev, None, at);
  }

  // ---- a prompt clears the turn before ----

  /** The event lists work in flight. */
  predicate Weighs(ev: Event) {
    match ev.hook
    case Stop(tasks) => RunningTasks(tasks, "") != 0 || UntrackedTasks(tasks, "") != 0
    case SubagentStop(tasks) => RunningTasks(tasks, ev.agent) != 0 || UntrackedTasks(tasks, ev.agent) != 0
    case _ => false
  }

  /** An idle_prompt notification of this session. */
  predicate Nudges(sid: string, input: Input) {
    input.Hooked? && input.ev.sid == sid && sid != "" && input.ev.hook == Notification(IdlePromptNotice)
  }

  /** Nothing in the background, nothing held back, and no alarm softened. */
  predicate Light(s: Row) {
    s.bgTasks == 0 && s.bgOther == 0 && !s.turnOver && !s.idleHeld && !s.state.NeedsLook?
  }

  lemma DispatchKeepsLight(s: Row, ev: Event, now: Time)
    requires (Light(s) && !Weighs(ev)) || ev.hook.UserPromptSubmit?
    ensures Light(Dispatch(s, ev.hook, now, ev.agent))
    ensures ev.hook == Notification(IdlePromptNotice) ==> InFamily(Dispatch(s, ev.hook, now, ev.agent).state)
  {
    match ev.hook
    case ToolUse(_, tool) => assert Light(Activity(NameTool(s, tool), now, ev.agent));
    case PostToolBatch(calls) => assert Light(Activity(NameTool(s, LastBatchTool(calls)), now, ev.agent));
    case PermissionDenied => assert Light(Activity(s, now, ev.agent));
    case SubagentStop(tasks) => assert Resync(s, tasks, now, ev.agent).bgTasks == 0;
    case _ =>
  }

  lemma TickKeepsLight(cfg: Config, s: Row, now: Time)
    requires Light(s)
    ensures var o := TickRow(cfg, s, now); o.Some? ==> Light(o.value)
  {
    assert Opening(cfg, s, now) == s;
  }

  /**
   A new prompt forgets the turn before. From then until an event lists work in flight the session
   carries no count, nothing is held back, its alarms are loud, and an idle_prompt puts it on the
   ladder at once, whatever else happens, drops and re-creations included.
   */
  lemma {:induction false} LoudUntilWorkIsListed(
    cfg: Config, sid: string, o: Option<Row>, prompt: Event, proc: Option<Proc>, at: Time, tr: seq<Timed>)
    requires prompt.hook.UserPromptSubmit?
    requires forall i :: 0 <= i < |tr| && tr[i].input.Hooked? && tr[i].input.ev.sid == sid ==> !Weighs(tr[i].input.ev)
    ensures var a := Run(cfg, sid, Some(Receive(cfg, o, prompt, proc, at)), tr);
      && (a.Some? ==> Light(a.value))
      && (tr != [] && Nudges(sid, Last(tr).input) ==> Waits(a))
    decreases |tr|
  {
    if tr == [] {
      DispatchKeepsLight(Admit(cfg, o, prompt, proc, at), prompt, at);
    } else {
      LoudUntilWorkIsListed(cfg, sid, o, prompt, proc, at, Front(tr));
      var a, now := Run(cfg, sid, Some(Receive(cfg, o, prompt, proc, at)), Front(tr)), Last(tr).now;
      match tr[|tr| - 1].input
      case Hooked(ev, p) => if ev.sid == sid { DispatchKeepsLight(Admit(cfg, a, ev, p, now), ev, now); }
      case Status(st) =>
      case Exited(who) =>
      case Tick => if a.Some? { TickKeepsLight(cfg, a.value, now); }
    }
  }

  // ---- a held notification ----

  /** The events that supersede a held notification: a new prompt, or the main thread's own tools. */
  predicate Supersedes(ev: Event) {
    || ev.hook.UserPromptSubmit?
    || (ev.agent == "" && (ev.hook.ToolUse? || ev.hook.PostToolBatch? || ev.hook.PermissionDenied?))
  }

  lemma DispatchKeepsHeld(s: Row, ev: Event, now: Time)
    requires s.idleHeld && !Supersedes(ev)
    ensures var r := Dispatch(s, ev.hook, now, ev.agent); r.idleHeld || InFamily(r.state) || r.state.NeedsLook?
  {
    match ev.hook
    case ToolUse(_, tool) =>
      assert Activity(NameTool(s, tool), now, ev.agent).idleHeld;
    case PostToolBatch(calls) =>
      assert Activity(NameTool(s, LastBatchTool(calls)), now, ev.agent).idleHeld;
    case PermissionDenied =>
      assert Activity(s, now, ev.agent).idleHeld;
    case SubagentStop(tasks) =>
      assert Resync(s, tasks, now, ev.agent).idleHeld;
    case _ =>
  }

  lemma HeldTick(cfg: Config, s: Row, now: Time)
    requires s.idleHeld
    ensures var o := TickRow(cfg, s, now);
      o.Some? ==>
        && (o.value.idleHeld || Surfaced(o.value.state))
        && (!s.state.Ended? && (now - s.bgSeen > cfg.bgQuiet || s.bgTasks == 0) ==>
              Surfaced(o.value.state) && !o.value.idleHeld)
  {
    TickOpens(cfg, s, now);
  }

  /** On every step, a held notification stays held, is superseded, or is on display; a tick
      past the quiet window always puts it on display. */
  lemma HeldNeverLost(cfg: Config, sid: string, s: Row, input: Input, now: Time)
    requires s.idleHeld
    requires input.Hooked? && input.ev.sid == sid ==> !Supersedes(input.ev)
    ensures var o := One(cfg, sid, Some(s), input, now);
      o.Some? ==> o.value.idleHeld || Surfaced(o.value.state)
    ensures var o := One(cfg, sid, Some(s), input, now);
      input.Tick? && !s.state.Ended? && o.Some? && (now - s.bgSeen > cfg.bgQuiet || s.bgTasks == 0)
      ==> Surfaced(o.value.state) && !o.value.idleHeld
    // Only a tick past a deadline or an end of session ever drops the session itself.
    ensures !input.Tick? ==> One(cfg, sid, Some(s), input, now).Some?
  {
    match input
    case Hooked(ev, proc) =>
      if ev.sid == sid { DispatchKeepsHeld(Admit(cfg, Some(s), ev, proc, now), ev, now); }
    case Status(st) =>
    case Exited(who) =>
    case Tick => HeldTick(cfg, s, now);
  }

  /** No event of the trace supersedes the notification, and the session is never dropped. */
  ghost predicate Pending(cfg: Config, sid: string, s: Row, tr: seq<Timed>)
    decreases |tr|
  {
    tr == [] ||
    (Pending(cfg, sid, s, Front(tr)) && Run(cfg, sid, Some(s), tr).Some? &&
     (Last(tr).input.Hooked? && Last(tr).input.ev.sid == sid ==> !Supersedes(Last(tr).input.ev)))
  }

  /** Along any such run the notification is still held at the end, or it was put on display. */
  lemma {:induction false} HeldUntilShown(cfg: Config, sid: string, s: Row, tr: seq<Timed>)
    requires s.idleHeld && Pending(cfg, sid, s, tr)
    ensures || Run(cfg, sid, Some(s), tr).value.idleHeld
            || exists k :: 0 < k <= |tr| && ShownAt(cfg, sid, s, tr, k)
    decreases |tr|
  {
    if tr != [] {
      HeldUntilShown(cfg, sid, s, Front(tr));
      var a := Run(cfg, sid, Some(s), Front(tr)).value;
      if a.idleHeld {
        HeldNeverLost(cfg, sid, a, Last(tr).input, Last(tr).now);
        assert tr[..|tr|] == tr;
        assert a.idleHeld && !Run(cfg, sid, Some(s), tr).value.idleHeld ==> ShownAt(cfg, sid, s, tr, |tr|);
      } else {
        var k :| 0 < k <= |tr| - 1 && ShownAt(cfg, sid, s, Front(tr), k);
        assert tr[..k] == Front(tr)[..k];
        assert ShownAt(cfg, sid, s, tr, k);
      }
    }
  }

  ghost predicate ShownAt(cfg: Config, sid: string, s: Row, tr: seq<Timed>, k: nat)
    requires k <= |tr|
  {
    var o := Run(cfg, sid, Some(s), tr[..k]); o.Some? && Surfaced(o.value.state)
  }

  // ---- only the asker answers ----

  /** Exactly the events that end a wait. */
  predicate AnswersEvent(s: Row, ev: Event) {
    match ev.hook
    case SessionStart => true
    case UserPromptSubmit => true
    case Stop(_) => true
    case StopFailure(_) => true
    case SessionEnd => true
    case ToolUse(_, _) => ev.agent == s.attnAgent
    case PostToolBatch(_) => ev.agent == s.attnAgent
    case PermissionDenied => ev.agent == s.attnAgent
    // The turn was over and its last subagent has stopped.
    case SubagentStop(tasks) =>
      s.turnOver && (if tasks.NoTasks? then s.bgTasks <= 1 else RunningTasks(tasks, ev.agent) == 0)
    case _ => false
  }

  /** Exactly the inputs that end a wait. */
  predicate Answers(cfg: Config, sid: string, s: Row, input: Input, now: Time) {
    match input
    case Hooked(ev, _) => ev.sid == sid && sid != "" && AnswersEvent(s, ev)
    case Status(_) => false
    case Exited(who) => who == sid
    case Tick => now - s.lastEvent > cfg.ghostAfter
  }

  /** What a wait keeps: its place, its age, its asker, and a rung that only descends. */
  ghost predicate StillWaiting(s: Row, r: Row) {
    && InFamily(r.state)
    && r.stateSince == s.stateSince
    && r.attnAgent == s.attnAgent
    && Rank(r.state) <= Rank(s.state)
    && s.lastEvent <= r.lastEvent
  }

  lemma ActivityWaits(s: Row, now: Time, agent: string)
    requires InFamily(s.state) && s.lastEvent <= now
    ensures var r := Activity(s, now, agent);
      && (InFamily(r.state) <==> agent != s.attnAgent)
      && (agent != s.attnAgent ==> StillWaiting(s, r) && r.lastEvent == now)
  {
  }

  lemma NotifyWaits(s: Row, notice: Notice, now: Time, agent: string)
    requires InFamily(s.state) && s.lastEvent <= now
    ensures var r := Notify(s, notice, now, agent); StillWaiting(s, r) && r.lastEvent == now
  {
  }

  lemma StopSubagentWaits(s: Row, tasks: TaskList, now: Time, agent: string)
    requires InFamily(s.state) && s.lastEvent <= now
    ensures var r := StopSubagent(s, tasks, now, agent);
      var over := s.turnOver && (if tasks.NoTasks? then s.bgTasks <= 1 else RunningTasks(tasks, agent) == 0);
      (InFamily(r.state) <==> !over) && (!over ==> StillWaiting(s, r) && r.lastEvent == now)
  {
  }

  lemma DispatchWaits(s: Row, ev: Event, now: Time)
    requires InFamily(s.state) && s.lastEvent <= now
    ensures var r := Dispatch(s, ev.hook, now, ev.agent);
      && (InFamily(r.state) <==> !AnswersEvent(s, ev))
      && (InFamily(r.state) ==> StillWaiting(s, r) && r.lastEvent == now)
  {
    match ev.hook
    case ToolUse(_, tool) => ActivityWaits(NameTool(s, tool), now, ev.agent);
    case PostToolBatch(calls) => ActivityWaits(NameTool(s, LastBatchTool(calls)), now, ev.agent);
    case PermissionDenied => ActivityWaits(s, now, ev.agent);
    case Notification(notice) => NotifyWaits(s, notice, now, ev.agent);
    case SubagentStop(tasks) => StopSubagentWaits(s, tasks, now, ev.agent);
    case _ =>
  }

  lemma EventWaits(cfg: Config, s: Row, ev: Event, proc: Option<Proc>, now: Time)
    requires InFamily(s.state) && s.lastEvent <= now
    ensures var r := Receive(cfg, Some(s), ev, proc, now);
      && (InFamily(r.state) <==> !AnswersEvent(s, ev))
      && (InFamily(r.state) ==> StillWaiting(s, r) && r.lastEvent == now)
  {
    DispatchWaits(Admit(cfg, Some(s), ev, proc, now), ev, now);
  }

  /** A held notification with nothing left to hold it back. */
  predicate HoldDue(cfg: Config, s: Row, now: Time) {
    s.idleHeld && (s.bgTasks == 0 || now - s.bgSeen > cfg.bgQuiet)
  }

  /** The newest event of a waiting session after one input: its own hooks count, and the delivery
      of a notification it held; statusline updates and other ticks do not. */
  function Newest(cfg: Config, sid: string, s: Row, before: Time, input: Input, now: Time): Time {
    match input
    case Hooked(ev, _) => if ev.sid == sid && sid != "" then now else before
    case Tick => if HoldDue(cfg, s, now) then now else before
    case _ => before
  }

  lemma TickWaits(cfg: Config, s: Row, now: Time)
    requires InFamily(s.state) && s.lastEvent <= now
    ensures var o := TickRow(cfg, s, now);
      && (Waits(o) <==> now - s.lastEvent <= cfg.ghostAfter)
      && (Waits(o) ==>
            StillWaiting(s, o.value) && o.value.lastEvent == if HoldDue(cfg, s, now) then now else s.lastEvent)
  {
    TickOpens(cfg, s, now);
  }

  /** One input leaves the wait exactly as it was unless it is one of those that answer it. */
  lemma OnlyTheAskerAnswers(cfg: Config, sid: string, s: Row, input: Input, now: Time)
    requires InFamily(s.state) && s.lastEvent <= now
    ensures var o := One(cfg, sid, Some(s), input, now);
      && (Waits(o) <==> !Answers(cfg, sid, s, input, now))
      && (Waits(o) ==> StillWaiting(s, o.value) && o.value.lastEvent == Newest(cfg, sid, s, s.lastEvent, input, now))
  {
    match input
    case Hooked(ev, proc) => EventWaits(cfg, s, ev, proc, now);
    case Status(st) =>
    case Exited(who) =>
    case Tick => TickWaits(cfg, s, now);
  }

  /** No input of the trace answers the wait that `s` began. */
  ghost predicate Unanswered(cfg: Config, sid: string, s: Row, tr: seq<Timed>)
    decreases |tr|
  {
    tr == [] ||
    (Unanswered(cfg, sid, s, Front(tr)) &&
     var o := Run(cfg, sid, Some(s), Front(tr));
     o.Some? && !Answers(cfg, sid, o.value, Last(tr).input, Last(tr).now))
  }

  /** The newest event over a run. */
  ghost function NewestOf(cfg: Config, sid: string, s: Row, tr: seq<Timed>): Time
    decreases |tr|
  {
    if tr == [] then s.lastEvent
    else
      var o, before := Run(cfg, sid, Some(s), Front(tr)), NewestOf(cfg, sid, s, Front(tr));
      if o.None? then before else Newest(cfg, sid, o.value, before, Last(tr).input, Last(tr).now)
  }

  /** Over any run that holds no answer the session keeps its place, its age and its asker, and only
      its newest event moves. */
  lemma {:induction false} WaitSurvives(cfg: Config, sid: string, start: Time, s: Row, tr: seq<Timed>)
    requires InFamily(s.state) && Inv(cfg, start, s) && 0.0 <= start && Ordered(start, tr)
    requires Unanswered(cfg, sid, s, tr)
    ensures var o := Run(cfg, sid, Some(s), tr);
      o.Some? && StillWaiting(s, o.value) && o.value.lastEvent == NewestOf(cfg, sid, s, tr)
    decreases |tr|
  {
    if tr != [] {
      WaitSurvives(cfg, sid, start, s, Front(tr));
      RunKeepsInv(cfg, sid, start, Some(s), Front(tr));
      OnlyTheAskerAnswers(cfg, sid, Run(cfg, sid, Some(s), Front(tr)).value, Last(tr).input, Last(tr).now);
    }
  }

  lemma StoppedOnOne(cfg: Config, stop: Event, at: Time)
    requires stop.sid == "s" && stop.hook == Stop(Tasks([Task(Text("a1"), Text("subagent"), Missing)]))
    ensures var s := Receive(cfg, None, stop, None, at);
      && s.sid == "s" && s.state == Working && s.turnOver && s.bgTasks == 1 && !s.idleHeld
      && s.bgSeen == s.lastEvent == s.stateSince == at
  {
    var tasks := Tasks([Task(Text("a1"), Text("subagent"), Missing)]);
    assert tasks.entries[1..] == [];
    assert RunningTasks(tasks, "") == 1;
  }

  lemma AskKeepsTurn(cfg: Config, s: Row, ask: Event, at: Time)
    requires ask.hook.PermissionRequest?
    ensures var a := Receive(cfg, Some(s), ask, None, at); a.turnOver == s.turnOver && a.bgTasks == s.bgTasks
  {
  }

  lemma LastOneStops(cfg: Config, s: Row, gone: Event, at: Time)
    requires s.turnOver && s.bgTasks == 1 && gone.hook == SubagentStop(NoTasks)
    ensures Receive(cfg, Some(s), gone, None, at).state == Idle
  {
  }

  /** A stranger ends a wait: the turn was over, and the last subagent it was waiting for stops.
      From nothing, a Stop lists "a1", the main thread asks, "a1" stops, and the row goes IDLE. */
  lemma StrangerCanEndWait(cfg: Config, at: Time)
    ensures
      var tasks := Tasks([Task(Text("a1"), Text("subagent"), Missing)]);
      var stop := At(Hooked(Event("s", "", "", "", Stop(tasks)), None), at);
      var ask := At(Hooked(Event("s", "", "", "", PermissionRequest), None), at);
      var gone := At(Hooked(Event("s", "", "", "a1", SubagentStop(NoTasks)), None), at);
      var asked, ended := Run(cfg, "s", None, [stop, ask]), Run(cfg, "s", None, [stop, ask, gone]);
      && Waits(asked) && asked.value.attnAgent == ""
      && ended.Some? && ended.value.state == Idle
  {
    var stop := Event("s", "", "", "", Stop(Tasks([Task(Text("a1"), Text("subagent"), Missing)])));
    var ask := Event("s", "", "", "", PermissionRequest);
    var gone := Event("s", "", "", "a1", SubagentStop(NoTasks));
    RunThree(cfg, "s", None, At(Hooked(stop, None), at), At(Hooked(ask, None), at), At(Hooked(gone, None), at));
    var s := Receive(cfg, None, stop, None, at);
    StoppedOnOne(cfg, stop, at);
    AskShows(cfg, Some(s), ask, None, at);
    AskKeepsTurn(cfg, s, ask, at);
    LastOneStops(cfg, Receive(cfg, Some(s), ask, None, at), gone, at);
  }
}
