/** Which state a session is in after each kind of event, over every run until something moves it on. */
module Phases {
  import opened Basics
  import opened Machine
  import opened Invariants
  import opened Ticks
  import opened Attention
  import opened Liveness

  // ---- left alone ----

  /** Ticks, status lines, and whatever happens to other sessions. */
  predicate Uneventful(sid: string, input: Input) {
    Foreign(sid, input) || input.Status?
  }

  ghost predicate OnlyUneventful(sid: string, tr: seq<Timed>) {
    forall i :: 0 <= i < |tr| ==> Uneventful(sid, tr[i].input)
  }

  /** Off the display's alarms, and not over. */
  predicate Quiet(st: State) {
    st in {Working, Starting, Idle, Error, Stale}
  }

  /** A tick at `now` finds the phase over: a hold has nothing left to hold it back, or the time of
      the state, or of the last count behind a turn that has ended, has run out. */
  predicate MovesOn(cfg: Config, s: Row, now: Time) {
    || HoldDue(cfg, s, now)
    || (s.state.Working? && now - s.lastEvent > cfg.staleAfter)
    || (s.state.Working? && s.turnOver && s.bgTasks != 0 && now - s.bgSeen > cfg.bgQuiet)
    || (s.state.Idle? && now - s.stateSince > cfg.idlePrompt)
    || (s.state.Starting? && now - s.lastEvent > cfg.idleStale)
  }

  /** No tick of the trace does. */
  ghost predicate Undisturbed(cfg: Config, s: Row, tr: seq<Timed>) {
    forall i :: 0 <= i < |tr| && tr[i].input.Tick? ==> !MovesOn(cfg, s, tr[i].now)
  }

  /** Still in the phase of `s`, with at most a count without consequence retired. */
  ghost predicate Rests(cfg: Config, s: Row, clock: Time, a: Row) {
    && a.state == s.state && a.stateSince == s.stateSince && a.lastEvent == s.lastEvent
    && a.bgSeen == s.bgSeen && a.idleHeld == s.idleHeld
    && ((a.bgTasks == s.bgTasks && a.turnOver == s.turnOver)
        || (clock - s.bgSeen > cfg.bgQuiet && a.bgTasks == 0 && !a.turnOver && !s.idleHeld
            && !(s.state.Working? && s.turnOver)))
  }

  /** In a phase that silence never leads back from. */
  predicate Left(s: Row, a: Row) {
    || Surfaced(a.state)
    || (s.state.Working? && a.state in {Idle, Stale})
    || (s.state.Starting? && a.state.Stale?)
  }

  lemma RestTick(cfg: Config, s: Row, clock: Time, a: Row, now: Time)
    requires Quiet(s.state) && Rests(cfg, s, clock, a) && clock <= now
    ensures var o := TickRow(cfg, a, now);
      o.Some? ==> if MovesOn(cfg, s, now) then Left(s, o.value) else Rests(cfg, s, now, o.value)
  {
    if HoldDue(cfg, s, now) { HeldTick(cfg, a, now); }
  }

  lemma LeftTick(cfg: Config, s: Row, a: Row, now: Time)
    requires Quiet(s.state) && Left(s, a)
    ensures var o := TickRow(cfg, a, now); o.Some? ==> Left(s, o.value)
  {
    TickOpens(cfg, a, now);
  }

  /** Left alone, a session stays in its phase exactly until a tick that finds the phase over, and
      never comes back to it. */
  lemma {:induction false} RestsExactly(cfg: Config, sid: string, start: Time, s: Row, tr: seq<Timed>)
    requires Quiet(s.state) && OnlyUneventful(sid, tr) && Ordered(start, tr) && Present(cfg, sid, s, tr)
    ensures var a := Run(cfg, sid, Some(s), tr).value;
      && (Undisturbed(cfg, s, tr) ==> Rests(cfg, s, Clock(start, tr), a))
      && (!Undisturbed(cfg, s, tr) ==> Left(s, a))
      && (a.state == s.state <==> Undisturbed(cfg, s, tr))
    decreases |tr|
  {
    if tr != [] {
      var front, last := Front(tr), tr[|tr| - 1];
      RestsExactly(cfg, sid, start, s, front);
      UndisturbedOneMore(cfg, s, tr);
      assert Uneventful(sid, last.input);
      var a := Run(cfg, sid, Some(s), front).value;
      if last.input.Tick? {
        if Undisturbed(cfg, s, front) {
          RestTick(cfg, s, Clock(start, front), a, last.now);
        } else {
          LeftTick(cfg, s, a, last.now);
        }
      } else {
        UneventfulStep(cfg, sid, s, Clock(start, front), a, last.input, last.now);
      }
    }
  }

  lemma UneventfulStep(cfg: Config, sid: string, s: Row, clock: Time, a: Row, input: Input, now: Time)
    requires Uneventful(sid, input) && !input.Tick? && clock <= now
    ensures var o := One(cfg, sid, Some(a), input, now);
      && o.Some?
      && (Rests(cfg, s, clock, a) ==> Rests(cfg, s, now, o.value))
      && (Left(s, a) ==> Left(s, o.value))
  {
  }

  lemma UndisturbedOneMore(cfg: Config, s: Row, tr: seq<Timed>)
    requires tr != []
    ensures Undisturbed(cfg, s, tr) <==>
            Undisturbed(cfg, s, Front(tr)) && (Last(tr).input.Tick? ==> !MovesOn(cfg, s, Last(tr).now))
  {
    assert forall i :: 0 <= i < |tr| - 1 ==> Front(tr)[i] == tr[i];
    assert Last(tr) == tr[|tr| - 1];
  }

  // ---- what each event begins ----

  /** The ticks of the trace all come by `deadline`. */
  ghost predicate TicksBy(tr: seq<Timed>, deadline: Time) {
    forall i :: 0 <= i < |tr| && tr[i].input.Tick? ==> tr[i].now <= deadline
  }

  /** None of them finds a notification of the session free to go out. */
  ghost predicate NoHoldDue(cfg: Config, s: Row, tr: seq<Timed>) {
    forall i :: 0 <= i < |tr| && tr[i].input.Tick? ==> !HoldDue(cfg, s, tr[i].now)
  }

  /** A session that starts, or is first heard of through its status line, is STARTING until a tick
      later than `idleStale`, or one that delivers what it held from before. */
  lemma StartWaitsForWork(
    cfg: Config, sid: string, o: Option<Row>, ev: Event, proc: Option<Proc>, at: Time, tr: seq<Timed>)
    requires ev.hook.SessionStart? && OnlyUneventful(sid, tr) && Ordered(at, tr)
    requires Present(cfg, sid, Receive(cfg, o, ev, proc, at), tr)
    ensures var r := Receive(cfg, o, ev, proc, at);
      var a := Run(cfg, sid, Some(r), tr).value;
      && (a.state == Starting <==> TicksBy(tr, at + cfg.idleStale) && NoHoldDue(cfg, r, tr))
      && ((o.Some? && o.value.idleHeld) || a.state in {Starting, Stale})
  {
    var r := Receive(cfg, o, ev, proc, at);
    RestsExactly(cfg, sid, at, r, tr);
    if !r.idleHeld { UnheldStaysQuiet(cfg, sid, at, r, tr); }
  }

  lemma {:induction false} UnheldStaysQuiet(cfg: Config, sid: string, start: Time, s: Row, tr: seq<Timed>)
    requires !s.idleHeld && s.state in {Starting, Error, Stale} && OnlyUneventful(sid, tr) && Present(cfg, sid, s, tr)
    ensures var a := Run(cfg, sid, Some(s), tr).value;
      !a.idleHeld && (a.state == s.state || (s.state.Starting? && a.state.Stale?))
    decreases |tr|
  {
    if tr != [] {
      UnheldStaysQuiet(cfg, sid, start, s, Front(tr));
      assert Uneventful(sid, tr[|tr| - 1].input);
    }
  }

  lemma StatusMakesStarting(cfg: Config, sid: string, st: StatusLine, at: Time, tr: seq<Timed>)
    requires OnlyUneventful(sid, tr) && Ordered(at, tr) && Present(cfg, sid, Refresh(cfg, None, st, at), tr)
    ensures var a := Run(cfg, sid, Some(Refresh(cfg, None, st, at)), tr).value;
      && a.state in {Starting, Stale}
      && (a.state == Starting <==> TicksBy(tr, at + cfg.idleStale))
  {
    var r := Refresh(cfg, None, st, at);
    RestsExactly(cfg, sid, at, r, tr);
    UnheldStaysQuiet(cfg, sid, at, r, tr);
  }

  /** A turn that failed shows its error until the session is heard of again, or until a tick delivers
      what it held from before. */
  lemma FailureShows(
    cfg: Config, sid: string, o: Option<Row>, ev: Event, proc: Option<Proc>, at: Time, tr: seq<Timed>)
    requires ev.hook.StopFailure? && OnlyUneventful(sid, tr) && Ordered(at, tr)
    requires Present(cfg, sid, Receive(cfg, o, ev, proc, at), tr)
    ensures var r := Receive(cfg, o, ev, proc, at);
      var a := Run(cfg, sid, Some(r), tr).value;
      && (a.state == Error <==> NoHoldDue(cfg, r, tr))
      && ((o.Some? && o.value.idleHeld) || a.state == Error)
      && a.about.errorType == if ev.hook.errorType == "" then "error" else ev.hook.errorType
  {
    var r := Receive(cfg, o, ev, proc, at);
    RestsExactly(cfg, sid, at, r, tr);
    KeepsError(cfg, sid, r, tr);
  }

  lemma {:induction false} KeepsError(cfg: Config, sid: string, s: Row, tr: seq<Timed>)
    requires OnlyUneventful(sid, tr) && Present(cfg, sid, s, tr)
    ensures Run(cfg, sid, Some(s), tr).value.about.errorType == s.about.errorType
    decreases |tr|
  {
    if tr != [] {
      KeepsError(cfg, sid, s, Front(tr));
      assert Uneventful(sid, tr[|tr| - 1].input);
      if Last(tr).input.Tick? { TickKeepsAbout(cfg, Run(cfg, sid, Some(s), Front(tr)).value, Last(tr).now); }
    }
  }

  /** A finished turn that left no subagent running is IDLE, and the user's move, until a tick later
      than `idlePrompt`, or one that delivers what was held from before. */
  lemma StopHandsOver(
    cfg: Config, sid: string, o: Option<Row>, ev: Event, proc: Option<Proc>, at: Time, tr: seq<Timed>)
    requires ev.hook.Stop? && RunningTasks(ev.hook.tasks, "") == 0 && OnlyUneventful(sid, tr) && Ordered(at, tr)
    requires Present(cfg, sid, Receive(cfg, o, ev, proc, at), tr)
    ensures var r := Receive(cfg, o, ev, proc, at);
      var since := if o.Some? && o.value.state.Idle? then o.value.stateSince else at;
      var a := Run(cfg, sid, Some(r), tr).value;
      a.state == Idle <==> TicksBy(tr, since + cfg.idlePrompt) && NoHoldDue(cfg, r, tr)
  {
    RestsExactly(cfg, sid, at, Receive(cfg, o, ev, proc, at), tr);
  }

  /** One that left subagents running goes on WORKING until a tick later than the quiet window or
      than `staleAfter`. */
  lemma StopGoesOn(
    cfg: Config, sid: string, o: Option<Row>, ev: Event, proc: Option<Proc>, at: Time, tr: seq<Timed>)
    requires ev.hook.Stop? && RunningTasks(ev.hook.tasks, "") != 0 && OnlyUneventful(sid, tr) && Ordered(at, tr)
    requires Present(cfg, sid, Receive(cfg, o, ev, proc, at), tr)
    ensures var a := Run(cfg, sid, Some(Receive(cfg, o, ev, proc, at)), tr).value;
      a.state == Working <==> TicksBy(tr, at + cfg.bgQuiet) && TicksBy(tr, at + cfg.staleAfter)
  {
    RestsExactly(cfg, sid, at, Receive(cfg, o, ev, proc, at), tr);
  }

  /** A session that ended says so while it exists, and it exists until a tick later than the grace
      period: silent from then on, it is gone one tick gap after that. */
  lemma EndShows(
    cfg: Config, sid: string, o: Option<Row>, ev: Event, proc: Option<Proc>, at: Time, tr: seq<Timed>)
    requires ev.hook.SessionEnd? && Silent(sid, tr)
    ensures var since := if o.Some? && o.value.state.Ended? then o.value.stateSince else at;
      var a := Run(cfg, sid, Some(Receive(cfg, o, ev, proc, at)), tr);
      && (a.Some? <==> TicksBy(tr, since + cfg.endedGrace))
      && (a.Some? ==> a.value.state == Ended && a.value.stateSince == since)
  {
    EndedStays(cfg, sid, Receive(cfg, o, ev, proc, at), tr);
  }

  lemma {:induction false} EndedStays(cfg: Config, sid: string, s: Row, tr: seq<Timed>)
    requires s.state.Ended? && Silent(sid, tr)
    ensures Run(cfg, sid, Some(s), tr) == if TicksBy(tr, s.stateSince + cfg.endedGrace) then Some(s) else None
    decreases |tr|
  {
    if tr != [] {
      EndedStays(cfg, sid, s, Front(tr));
      assert forall i :: 0 <= i < |tr| - 1 ==> Front(tr)[i] == tr[i];
      assert Foreign(sid, tr[|tr| - 1].input) && Last(tr) == tr[|tr| - 1];
    }
  }

  /** However a session ended, by its own word, its process or a request, asking again changes nothing. */
  lemma EndsOnce(cfg: Config, sid: string, s: Row, input: Input, at: Time, again: Time)
    requires input == Exited(sid)
    ensures var o := One(cfg, sid, Some(s), input, at);
      && o.Some? && o.value.state == Ended && (!s.state.Ended? ==> o.value.stateSince == at)
      && One(cfg, sid, o, input, again) == o
  {
  }

  lemma EndedIsGone(
    cfg: Config, sid: string, o: Option<Row>, ev: Event, proc: Option<Proc>, at: Time, tr: seq<Timed>, gap: Time)
    requires Sane(cfg) && 0.0 <= gap && ev.hook.SessionEnd? && InvOpt(cfg, at, o) && 0.0 <= at
    requires Ordered(at, tr) && Ticking(at, tr, gap) && Silent(sid, tr) && Clock(at, tr) > at + cfg.endedGrace + gap
    ensures Run(cfg, sid, Some(Receive(cfg, o, ev, proc, at)), tr) == None
  {
    ReceiveKeepsInv(cfg, at, o, ev, proc, at);
    SilenceRemoves(cfg, sid, at, Receive(cfg, o, ev, proc, at), tr, gap);
  }

  // ---- at work ----

  predicate ToolHook(hook: Hook) {
    hook.ToolUse? || hook.PostToolBatch? || hook.PermissionDenied?
  }

  predicate Works(hook: Hook) {
    ToolHook(hook) || hook.OtherHook? || (hook.Notification? && hook.notice.Informational?)
  }

  /** What goes on around a session at work: besides the uneventful, new prompts, tool events of any
      of its agents, informational notifications and unknown events. */
  predicate Busy(sid: string, input: Input) {
    || Uneventful(sid, input)
    || (input.Hooked? && (input.ev.hook.UserPromptSubmit? || Works(input.ev.hook)))
  }

  ghost predicate OnlyBusy(sid: string, tr: seq<Timed>) {
    forall i :: 0 <= i < |tr| ==> Busy(sid, tr[i].input)
  }

  /** When an event of the session was last heard, from `at` on. */
  function LastHeard(sid: string, at: Time, tr: seq<Timed>): Time
    decreases |tr|
  {
    if tr == [] then at
    else if Last(tr).input.Hooked? && Last(tr).input.ev.sid == sid && sid != "" then Last(tr).now
    else LastHeard(sid, at, Front(tr))
  }

  /** No tick comes later than `window` after the last event. */
  ghost predicate HeardWithin(sid: string, at: Time, tr: seq<Timed>, window: Time)
    decreases |tr|
  {
    tr == [] ||
    (HeardWithin(sid, at, Front(tr), window) &&
     (Last(tr).input.Tick? ==> Last(tr).now - LastHeard(sid, at, Front(tr)) <= window))
  }

  /** The event says that Claude is at work: a new prompt, or a tool event that answers whoever was
      being waited for; a subagent's only while its turn goes on and no notification is held. */
  predicate Resumes(o: Option<Row>, ev: Event) {
    || ev.hook.UserPromptSubmit?
    || (ToolHook(ev.hook) && Heard(o, ev.agent)
        && (ev.agent == "" || (o.Some? ==> !o.value.turnOver && !o.value.idleHeld)))
  }

  /** At work, with no turn behind it and nothing held. */
  predicate Going(s: Row) {
    s.state.Working? && !s.turnOver && !s.idleHeld
  }

  lemma AdmitKeeps(cfg: Config, o: Option<Row>, ev: Event, proc: Option<Proc>, now: Time)
    ensures var a := Admit(cfg, o, ev, proc, now);
      && (ev.agent != "" ==> a.bgSeen == now)
      && match o
         case None => a.state == Starting && a.bgTasks == 0 && a.bgOther == 0 && !a.idleHeld && !a.turnOver
         case Some(s) =>
           && a.state == s.state && a.attnAgent == s.attnAgent && a.bgTasks == s.bgTasks && a.bgOther == s.bgOther
           && a.idleHeld == s.idleHeld && a.idleHeldAgent == s.idleHeldAgent && a.turnOver == s.turnOver
           && (ev.agent == "" ==> a.bgSeen == s.bgSeen)
  {
  }

  /** What a tool event of `agent` makes of a session. */
  ghost predicate Acts(s: Row, r: Row, now: Time, agent: string) {
    && r.state == (if InFamily(s.state) && agent != s.attnAgent then s.state else Working)
    && r.lastEvent == now && r.bgTasks == s.bgTasks && r.bgSeen == s.bgSeen
    && r.turnOver == (agent != "" && s.turnOver) && r.idleHeld == (agent != "" && s.idleHeld)
    && r.attnAgent == s.attnAgent && r.idleHeldAgent == s.idleHeldAgent
  }

  lemma ActivityActs(s: Row, now: Time, agent: string)
    ensures Acts(s, Activity(s, now, agent), now, agent)
  {
  }

  lemma ToolActs(s: Row, hook: Hook, now: Time, agent: string)
    requires ToolHook(hook)
    ensures Acts(s, Dispatch(s, hook, now, agent), now, agent)
  {
    match hook
    case ToolUse(_, tool) => ActivityActs(NameTool(s, tool), now, agent);
    case PostToolBatch(calls) => ActivityActs(NameTool(s, LastBatchTool(calls)), now, agent);
    case PermissionDenied => ActivityActs(s, now, agent);
  }

  lemma ResumingGoes(cfg: Config, o: Option<Row>, ev: Event, proc: Option<Proc>, at: Time)
    requires Resumes(o, ev)
    ensures var r := Receive(cfg, o, ev, proc, at); Going(r) && r.lastEvent == at
  {
    AdmitKeeps(cfg, o, ev, proc, at);
    if ToolHook(ev.hook) { ToolActs(Admit(cfg, o, ev, proc, at), ev.hook, at, ev.agent); }
  }

  lemma BusyGoesOn(cfg: Config, sid: string, s: Row, ev: Event, proc: Option<Proc>, at: Time)
    requires Going(s) && Busy(sid, Hooked(ev, proc)) && ev.sid == sid
    ensures var r := Receive(cfg, Some(s), ev, proc, at); Going(r) && r.lastEvent == at
  {
    AdmitKeeps(cfg, Some(s), ev, proc, at);
    if ToolHook(ev.hook) { ToolActs(Admit(cfg, Some(s), ev, proc, at), ev.hook, at, ev.agent); }
  }

  lemma GoingTick(cfg: Config, s: Row, now: Time)
    requires Going(s) && now - s.lastEvent <= cfg.ghostAfter
    ensures var o := TickRow(cfg, s, now);
      && o.Some? && o.value.lastEvent == (if now - s.lastEvent <= cfg.staleAfter then s.lastEvent else now)
      && (if now - s.lastEvent <= cfg.staleAfter then Going(o.value) else o.value.state == Stale)
  {
  }

  /**
   From the event that resumes work on, through everything that goes on at work, the session is
   WORKING as long as no tick comes later than `staleAfter` after its last event.
   */
  lemma {:induction false} WorksWhileHeard(
    cfg: Config, sid: string, o: Option<Row>, ev: Event, proc: Option<Proc>, at: Time, tr: seq<Timed>)
    requires Resumes(o, ev) && OnlyBusy(sid, tr) && HeardWithin(sid, at, tr, cfg.staleAfter)
    requires HeardWithin(sid, at, tr, cfg.ghostAfter)
    ensures var a := Run(cfg, sid, Some(Receive(cfg, o, ev, proc, at)), tr);
      a.Some? && Going(a.value) && a.value.lastEvent == LastHeard(sid, at, tr)
    decreases |tr|
  {
    if tr == [] {
      ResumingGoes(cfg, o, ev, proc, at);
    } else {
      WorksWhileHeard(cfg, sid, o, ev, proc, at, Front(tr));
      var a := Run(cfg, sid, Some(Receive(cfg, o, ev, proc, at)), Front(tr)).value;
      assert Busy(sid, tr[|tr| - 1].input);
      match Last(tr).input
      case Hooked(e, p) => if e.sid == sid && sid != "" { BusyGoesOn(cfg, sid, a, e, p, Last(tr).now); }
      case Status(st) =>
      case Exited(who) =>
      case Tick => GoingTick(cfg, a, Last(tr).now);
    }
  }

  /** The first tick later than that turns it STALE. */
  lemma SilentWorkGoesStale(
    cfg: Config, sid: string, o: Option<Row>, ev: Event, proc: Option<Proc>, at: Time, tr: seq<Timed>, now: Time)
    requires Resumes(o, ev) && OnlyBusy(sid, tr) && HeardWithin(sid, at, tr, cfg.staleAfter)
    requires HeardWithin(sid, at, tr + [At(Tick, now)], cfg.ghostAfter)
    ensures var a := Run(cfg, sid, Some(Receive(cfg, o, ev, proc, at)), tr + [At(Tick, now)]);
      a.Some? && a.value.state == if now - LastHeard(sid, at, tr) <= cfg.staleAfter then Working else Stale
  {
    assert Front(tr + [At(Tick, now)]) == tr;
    WorksWhileHeard(cfg, sid, o, ev, proc, at, tr);
    GoingTick(cfg, Run(cfg, sid, Some(Receive(cfg, o, ev, proc, at)), tr).value, now);
  }

  // ---- subagents behind a finished turn ----

  /** Besides the uneventful, only what the session's subagents do: their tools, events that say nothing
      of the state, and their end. */
  predicate Winding(sid: string, input: Input) {
    || Uneventful(sid, input)
    || (input.Hooked? && (input.ev.hook.SubagentStop? || (input.ev.agent != "" && Works(input.ev.hook))))
  }

  ghost predicate OnlyWinding(sid: string, tr: seq<Timed>) {
    forall i :: 0 <= i < |tr| ==> Winding(sid, tr[i].input)
  }

  /** How many subagents are still out, `n` having been at first: a stop that brings a list counts the
      others on it, and one that brings none is one less. */
  ghost function StillOut(sid: string, n: nat, tr: seq<Timed>): nat
    decreases |tr|
  {
    if tr == [] then n
    else
      var before := StillOut(sid, n, Front(tr));
      match Last(tr).input
      case Hooked(ev, _) =>
        if ev.sid != sid || sid == "" || !ev.hook.SubagentStop? then before
        else if ev.hook.tasks.NoTasks? then (if before == 0 then 0 else before - 1)
        else RunningTasks(ev.hook.tasks, ev.agent)
      case _ => before
  }

  ghost predicate AlwaysOut(sid: string, n: nat, tr: seq<Timed>)
    decreases |tr|
  {
    StillOut(sid, n, tr) > 0 && (tr == [] || AlwaysOut(sid, n, Front(tr)))
  }

  /** A finished turn with this many subagents out, last heard of at `at`. */
  predicate Winds(s: Row, n: nat, at: Time) {
    s.state.Working? && s.turnOver && s.bgTasks == n && n > 0 && s.lastEvent == at && s.bgSeen == at
  }

  lemma WindingTick(cfg: Config, s: Row, n: nat, at: Time, now: Time)
    requires Winds(s, n, at) && now - at <= cfg.staleAfter && now - at <= cfg.bgQuiet && now - at <= cfg.ghostAfter
    ensures TickRow(cfg, s, now) == Some(s)
  {
  }

  lemma SubagentStops(cfg: Config, s: Row, n: nat, at: Time, ev: Event, proc: Option<Proc>, now: Time)
    requires Winds(s, n, at) && ev.hook.SubagentStop?
    ensures var left := if ev.hook.tasks.NoTasks? then n - 1 else RunningTasks(ev.hook.tasks, ev.agent);
      var r := Receive(cfg, Some(s), ev, proc, now);
      if left > 0 then Winds(r, left, now) else r.state == Idle && r.stateSince == now && !r.turnOver && r.bgTasks == 0
  {
  }

  /** A subagent that does anything keeps the count alive. */
  lemma SubagentWorks(cfg: Config, s: Row, n: nat, at: Time, ev: Event, proc: Option<Proc>, now: Time)
    requires Winds(s, n, at) && ev.agent != "" && Works(ev.hook)
    ensures Winds(Receive(cfg, Some(s), ev, proc, now), n, now)
  {
    AdmitKeeps(cfg, Some(s), ev, proc, now);
    if ToolHook(ev.hook) { ToolActs(Admit(cfg, Some(s), ev, proc, now), ev.hook, now, ev.agent); }
  }

  lemma StopWinds(cfg: Config, o: Option<Row>, stop: Event, proc: Option<Proc>, at: Time)
    requires stop.hook.Stop? && RunningTasks(stop.hook.tasks, "") > 0
    ensures Winds(Receive(cfg, o, stop, proc, at), RunningTasks(stop.hook.tasks, ""), at)
  {
  }

  /** A turn that ended with subagents out is WORKING for as long as any is, while ticks find it heard
      of in time. */
  lemma {:induction false} OutKeepsWorking(
    cfg: Config, sid: string, o: Option<Row>, stop: Event, proc: Option<Proc>, at: Time, tr: seq<Timed>)
    requires stop.hook.Stop? && OnlyWinding(sid, tr)
    requires HeardWithin(sid, at, tr, cfg.staleAfter) && HeardWithin(sid, at, tr, cfg.bgQuiet)
    requires HeardWithin(sid, at, tr, cfg.ghostAfter)
    requires AlwaysOut(sid, RunningTasks(stop.hook.tasks, ""), tr)
    ensures var a := Run(cfg, sid, Some(Receive(cfg, o, stop, proc, at)), tr);
      a.Some? && Winds(a.value, StillOut(sid, RunningTasks(stop.hook.tasks, ""), tr), LastHeard(sid, at, tr))
    decreases |tr|
  {
    if tr == [] {
      StopWinds(cfg, o, stop, proc, at);
    } else {
      var n := RunningTasks(stop.hook.tasks, "");
      OutKeepsWorking(cfg, sid, o, stop, proc, at, Front(tr));
      var a := Run(cfg, sid, Some(Receive(cfg, o, stop, proc, at)), Front(tr)).value;
      var out, heard := StillOut(sid, n, Front(tr)), LastHeard(sid, at, Front(tr));
      assert Winding(sid, tr[|tr| - 1].input);
      match Last(tr).input
      case Hooked(ev, p) =>
        if ev.sid == sid && sid != "" {
          if ev.hook.SubagentStop? {
            SubagentStops(cfg, a, out, heard, ev, p, Last(tr).now);
          } else {
            SubagentWorks(cfg, a, out, heard, ev, p, Last(tr).now);
          }
        }
      case Status(st) =>
      case Exited(who) =>
      case Tick => WindingTick(cfg, a, out, heard, Last(tr).now);
    }
  }

  /** And the stop that leaves none out hands the move to the user, at that moment. */
  lemma LastSubagentHandsOver(
    cfg: Config, sid: string, o: Option<Row>, stop: Event, proc: Option<Proc>, at: Time, tr: seq<Timed>,
    ev: Event, p: Option<Proc>, now: Time)
    requires stop.hook.Stop? && OnlyWinding(sid, tr)
    requires HeardWithin(sid, at, tr, cfg.staleAfter) && HeardWithin(sid, at, tr, cfg.bgQuiet)
    requires HeardWithin(sid, at, tr, cfg.ghostAfter)
    requires AlwaysOut(sid, RunningTasks(stop.hook.tasks, ""), tr)
    requires ev.sid == sid && sid != "" && ev.hook.SubagentStop?
    ensures var us := tr + [At(Hooked(ev, p), now)];
      var a := Run(cfg, sid, Some(Receive(cfg, o, stop, proc, at)), us);
      && a.Some?
      && (StillOut(sid, RunningTasks(stop.hook.tasks, ""), us) == 0 <==> a.value.state == Idle)
      && (a.value.state == Idle ==> a.value.stateSince == now)
  {
    var n, us := RunningTasks(stop.hook.tasks, ""), tr + [At(Hooked(ev, p), now)];
    assert Front(us) == tr && Last(us) == At(Hooked(ev, p), now);
    OutKeepsWorking(cfg, sid, o, stop, proc, at, tr);
    var a := Run(cfg, sid, Some(Receive(cfg, o, stop, proc, at)), tr).value;
    SubagentStops(cfg, a, StillOut(sid, n, tr), LastHeard(sid, at, tr), ev, p, now);
  }
}
