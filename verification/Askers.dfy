/** Whom an alarm is put down to, read off the run, and who may therefore end it. */
module Askers {
  import opened Basics
  import opened Machine
  import opened Invariants
  import opened Ticks
  import opened Attention
  import opened Phases

  predicate OnDisplay(o: Option<Row>) {
    o.Some? && Surfaced(o.value.state)
  }

  /** The agent of the last idle_prompt that came while subagents were outstanding. */
  ghost function HeldFor(cfg: Config, sid: string, tr: seq<Timed>): string
    decreases |tr|
  {
    if tr == [] then ""
    else
      var o, before := Run(cfg, sid, None, Front(tr)), HeldFor(cfg, sid, Front(tr));
      if Nudges(sid, Last(tr).input) && o.Some? && o.value.bgTasks != 0 then Last(tr).input.ev.agent else before
  }

  /**
   For whom the session now on display wants attention: the sender of the event that brought it
   there, or that asked outright while it was only NEEDS_LOOK; the agent whose notification was
   held, where a tick delivered it; and the main thread, where a timer raised the alarm.
   */
  ghost function Asker(cfg: Config, sid: string, tr: seq<Timed>): string
    decreases |tr|
  {
    if tr == [] then ""
    else
      var o, p, before := Run(cfg, sid, None, Front(tr)), Run(cfg, sid, None, tr), Asker(cfg, sid, Front(tr));
      match Last(tr).input
      case Hooked(ev, _) =>
        if ev.sid == sid && sid != "" && OnDisplay(p) && (!OnDisplay(o) || (!Waits(o) && DirectAsk(ev.hook)))
        then ev.agent else before
      case Tick =>
        if OnDisplay(p) && !OnDisplay(o)
        then (if HoldDue(cfg, o.value, Last(tr).now) then HeldFor(cfg, sid, Front(tr)) else "")
        else before
      case _ => before
  }

  lemma DispatchHolds(s: Row, ev: Event, now: Time)
    ensures var r := Dispatch(s, ev.hook, now, ev.agent);
      var held := ev.hook == Notification(IdlePromptNotice) && s.bgTasks != 0;
      && (held ==> r.idleHeld && r.idleHeldAgent == ev.agent)
      && (!held && r.idleHeld ==> s.idleHeld && r.idleHeldAgent == s.idleHeldAgent)
  {
    if ToolHook(ev.hook) { ToolActs(s, ev.hook, now, ev.agent); }
    if DirectAsk(ev.hook) { DispatchAsks(s, ev.hook, now, ev.agent); }
    if ev.hook.SubagentStop? { assert Resync(s, ev.hook.tasks, now, ev.agent).idleHeldAgent == s.idleHeldAgent; }
  }

  /** What an event leaves of a hold: the newest one of an idle_prompt that came while a count was outstanding. */
  lemma HookHolds(cfg: Config, o: Option<Row>, ev: Event, proc: Option<Proc>, now: Time)
    ensures var r := Receive(cfg, o, ev, proc, now);
      var held := ev.hook == Notification(IdlePromptNotice) && o.Some? && o.value.bgTasks != 0;
      && (held ==> r.idleHeld && r.idleHeldAgent == ev.agent)
      && (!held && r.idleHeld ==> o.Some? && o.value.idleHeld && r.idleHeldAgent == o.value.idleHeldAgent)
  {
    AdmitKeeps(cfg, o, ev, proc, now);
    DispatchHolds(Admit(cfg, o, ev, proc, now), ev, now);
  }

  lemma OpeningAsks(cfg: Config, s: Row, now: Time)
    ensures var b := Opening(cfg, s, now);
      && (b.idleHeld ==> s.idleHeld && b.idleHeldAgent == s.idleHeldAgent)
      && (Surfaced(b.state) ==> b.attnAgent == if Surfaced(s.state) then s.attnAgent else s.idleHeldAgent)
      && (!Surfaced(s.state) ==> (Surfaced(b.state) <==> HoldDue(cfg, s, now)))
  {
  }

  lemma TimersAsk(cfg: Config, b: Row, now: Time)
    ensures var t := Timers(cfg, b, now);
      && (t.idleHeld ==> b.idleHeld && t.idleHeldAgent == b.idleHeldAgent)
      && (Surfaced(t.state) ==> t.attnAgent == if Surfaced(b.state) then b.attnAgent else "")
      && (Surfaced(b.state) ==> Surfaced(t.state))
  {
  }

  lemma TickAsks(cfg: Config, s: Row, now: Time)
    ensures var o := TickRow(cfg, s, now);
      && (o.Some? && o.value.idleHeld ==> s.idleHeld && o.value.idleHeldAgent == s.idleHeldAgent)
      && (OnDisplay(o) ==>
            o.value.attnAgent
            == if Surfaced(s.state) then s.attnAgent else if HoldDue(cfg, s, now) then s.idleHeldAgent else "")
  {
    OpeningAsks(cfg, s, now);
    TimersAsk(cfg, Opening(cfg, s, now), now);
  }

  lemma {:induction false} HoldNamesItsAgent(cfg: Config, sid: string, tr: seq<Timed>)
    ensures var o := Run(cfg, sid, None, tr);
      o.Some? && o.value.idleHeld ==> o.value.idleHeldAgent == HeldFor(cfg, sid, tr)
    decreases |tr|
  {
    if tr != [] {
      HoldNamesItsAgent(cfg, sid, Front(tr));
      var o, now := Run(cfg, sid, None, Front(tr)), Last(tr).now;
      match Last(tr).input
      case Hooked(ev, proc) => HookHolds(cfg, o, ev, proc, now);
      case Status(st) =>
      case Exited(who) =>
      case Tick => if o.Some? { TickAsks(cfg, o.value, now); }
    }
  }

  lemma DispatchSurfaces(s: Row, ev: Event, now: Time)
    ensures var r := Dispatch(s, ev.hook, now, ev.agent);
      Surfaced(r.state) ==>
        r.attnAgent
        == if !Surfaced(s.state) || (!InFamily(s.state) && DirectAsk(ev.hook)) then ev.agent else s.attnAgent
  {
    if ToolHook(ev.hook) { ToolActs(s, ev.hook, now, ev.agent); }
    if DirectAsk(ev.hook) { DispatchAsks(s, ev.hook, now, ev.agent); }
    if ev.hook.SubagentStop? {
      var t := Resync(s, ev.hook.tasks, now, ev.agent);
      assert t.attnAgent == s.attnAgent && t.state == s.state;
    }
  }

  lemma HookAsks(cfg: Config, o: Option<Row>, ev: Event, proc: Option<Proc>, now: Time)
    ensures var r := Receive(cfg, o, ev, proc, now);
      Surfaced(r.state) ==>
        r.attnAgent == if !OnDisplay(o) || (!Waits(o) && DirectAsk(ev.hook)) then ev.agent else o.value.attnAgent
  {
    AdmitKeeps(cfg, o, ev, proc, now);
    DispatchSurfaces(Admit(cfg, o, ev, proc, now), ev, now);
  }

  /** On every run, the agent recorded for a session on display is that one. */
  lemma {:induction false} AskerIsRecorded(cfg: Config, sid: string, tr: seq<Timed>)
    ensures var o := Run(cfg, sid, None, tr);
      OnDisplay(o) ==> o.value.attnAgent == Asker(cfg, sid, tr)
    decreases |tr|
  {
    if tr != [] {
      AskerIsRecorded(cfg, sid, Front(tr));
      var o, now := Run(cfg, sid, None, Front(tr)), Last(tr).now;
      match Last(tr).input
      case Hooked(ev, proc) => if ev.sid == sid && sid != "" { HookAsks(cfg, o, ev, proc, now); }
      case Status(st) =>
      case Exited(who) =>
      case Tick =>
        if o.Some? {
          TickAsks(cfg, o.value, now);
          HoldNamesItsAgent(cfg, sid, Front(tr));
        }
    }
  }

  /** So on every run a tool event puts the session to work exactly when nobody waits, or when it is
      the one the alarm is for that sent it: after an alarm of a timer, the main thread. */
  lemma ToolEventResumesExactly(cfg: Config, sid: string, tr: seq<Timed>, ev: Event, proc: Option<Proc>, now: Time)
    requires ToolHook(ev.hook) && ev.sid == sid && sid != ""
    ensures var o := Run(cfg, sid, None, tr + [At(Hooked(ev, proc), now)]);
      && o.Some?
      && (o.value.state == Working <==> (Waits(Run(cfg, sid, None, tr)) ==> Asker(cfg, sid, tr) == ev.agent))
  {
    assert Front(tr + [At(Hooked(ev, proc), now)]) == tr;
    AskerIsRecorded(cfg, sid, tr);
    ToolResumes(cfg, Run(cfg, sid, None, tr), ev, proc, now);
  }

  lemma ToolResumes(cfg: Config, o: Option<Row>, ev: Event, proc: Option<Proc>, now: Time)
    requires ToolHook(ev.hook)
    ensures Receive(cfg, o, ev, proc, now).state == Working <==> Heard(o, ev.agent)
  {
    AdmitKeeps(cfg, o, ev, proc, now);
    ToolActs(Admit(cfg, o, ev, proc, now), ev.hook, now, ev.agent);
  }

  // ---- an idle_prompt is never lost ----

  /** An idle_prompt is shown at once exactly when no subagent is outstanding or the session was on
      display already; else it is held, and along any run that neither supersedes it nor drops
      the session it is held still, or was shown. */
  lemma NudgeNeverLost(cfg: Config, o: Option<Row>, ev: Event, proc: Option<Proc>, at: Time, tr: seq<Timed>)
    requires ev.hook == Notification(IdlePromptNotice)
    requires Pending(cfg, ev.sid, Receive(cfg, o, ev, proc, at), tr)
    ensures var r := Receive(cfg, o, ev, proc, at);
      && (Surfaced(r.state) <==> OnDisplay(o) || o.None? || o.value.bgTasks == 0)
      && (Surfaced(r.state) || Run(cfg, ev.sid, Some(r), tr).value.idleHeld
          || exists k :: 0 < k <= |tr| && ShownAt(cfg, ev.sid, r, tr, k))
  {
    var r := Receive(cfg, o, ev, proc, at);
    NudgeShows(cfg, o, ev, proc, at);
    if r.idleHeld { HeldUntilShown(cfg, ev.sid, r, tr); }
  }

  lemma NudgeShows(cfg: Config, o: Option<Row>, ev: Event, proc: Option<Proc>, at: Time)
    requires ev.hook == Notification(IdlePromptNotice)
    ensures var r := Receive(cfg, o, ev, proc, at);
      && (Surfaced(r.state) <==> OnDisplay(o) || o.None? || o.value.bgTasks == 0)
      && (!Surfaced(r.state) ==> r.idleHeld)
  {
  }
}
