/** A finished turn is never silenced for good. */
module Liveness {
  import opened Basics
  import opened Machine
  import opened Invariants
  import opened Ticks
  import opened Attention

  /** What may go on around a session waiting for its user: ticks, traffic of other sessions,
      statusline updates, and, from the main thread, notifications of every type, permission
      requests and unknown events. With `forks`, subagents may report their end too. */
  predicate Idling(sid: string, input: Input, forks: bool) {
    || Foreign(sid, input)
    || input.Status?
    || (input.Hooked? && IdleEvent(input.ev, forks))
  }

  predicate IdleEvent(ev: Event, forks: bool) {
    || ev.hook.PermissionRequest?
    || (ev.agent == "" && (ev.hook.Notification? || ev.hook.OtherHook?))
    || (forks && ev.hook.SubagentStop?)
  }

  ghost predicate OnlyIdling(sid: string, tr: seq<Timed>, forks: bool) {
    forall i :: 0 <= i < |tr| ==> Idling(sid, tr[i].input, forks)
  }

  /** The latest the alarm can start after a Stop that leaves IDLE at most `slack` away. */
  function Deadline(cfg: Config, stop: Time, slack: Time, gap: Time): Time {
    stop + slack + cfg.idlePrompt + cfg.look + gap + gap
  }

  /** The ghost cutoff outlasts each single window and a tick. */
  ghost predicate Patient(cfg: Config, gap: Time) {
    && 0.0 <= gap
    && cfg.bgQuiet + gap <= cfg.ghostAfter
    && cfg.idlePrompt + gap <= cfg.ghostAfter
    && cfg.look + gap <= cfg.ghostAfter
  }

  /** Not yet on the ladder, last ticked at `tick`, and on time: each phase began by its share of
      the deadline and had not run out at that tick. `late` is what a tick under way may add. */
  ghost predicate OnTime(cfg: Config, s: Row, stop: Time, slack: Time, tick: Time, late: Time, gap: Time, forks: bool) {
    var origin := Max(stop, s.stateSince);
    && stop <= tick && origin <= s.lastEvent && (forks ==> !s.turnOver)
    && match s.state
       case Working =>
         && s.turnOver && s.bgTasks != 0 && s.bgSeen == stop
         && tick <= stop + cfg.bgQuiet && cfg.bgQuiet + gap <= slack
       case Idle =>
         tick <= origin + cfg.idlePrompt + late && origin <= stop + slack
       case NeedsLook =>
         tick <= origin + cfg.look + late && origin <= stop + slack + cfg.idlePrompt + gap
       case _ => false
  }

  /** A Stop that lists a subagent as running may stay WORKING for the quiet window. */
  lemma StopIsOnTime(cfg: Config, o: Option<Row>, stop: Event, proc: Option<Proc>, now: Time, slack: Time,
      gap: Time, forks: bool)
    requires Sane(cfg) && 0.0 <= gap && stop.hook.Stop? && InvOpt(cfg, now, o) && 0.0 <= slack
    requires RunningTasks(stop.hook.tasks, "") == 0 || (!forks && cfg.bgQuiet + gap <= slack)
    ensures OnTime(cfg, Receive(cfg, o, stop, proc, now), now, slack, now, 0.0, gap, forks)
  {
  }

  /** The opening of a tick keeps the pace, and starts a phase only while the last one lasts. */
  lemma OpeningIsOnTime(cfg: Config, s: Row, stop: Time, slack: Time, tick: Time, gap: Time, forks: bool, now: Time)
    requires Sane(cfg) && Patient(cfg, gap) && OnTime(cfg, s, stop, slack, tick, 0.0, gap, forks)
    requires tick <= now <= tick + gap && s.lastEvent <= now
    ensures var b := Opening(cfg, s, now);
      && now - s.lastEvent <= cfg.ghostAfter && !s.state.Ended? && b.lastEvent <= now
      && (InFamily(b.state) || OnTime(cfg, b, stop, slack, now, gap, gap, forks))
  {
    TickOpens(cfg, s, now);
    var b := Opening(cfg, s, now);
    assert s.state.Working? && b.state.Working? ==> b.turnOver && b.bgTasks != 0;
    assert forks ==> !b.turnOver;
  }

  lemma TimersAreOnTime(cfg: Config, b: Row, stop: Time, slack: Time, gap: Time, forks: bool, now: Time)
    requires Sane(cfg) && 0.0 <= gap && b.lastEvent <= now && OnTime(cfg, b, stop, slack, now, gap, gap, forks)
    ensures var t := Timers(cfg, b, now); InFamily(t.state) || OnTime(cfg, t, stop, slack, now, 0.0, gap, forks)
  {
  }

  lemma TickIsOnTime(cfg: Config, s: Row, stop: Time, slack: Time, tick: Time, gap: Time, forks: bool, now: Time)
    requires Sane(cfg) && Patient(cfg, gap) && OnTime(cfg, s, stop, slack, tick, 0.0, gap, forks)
    requires tick <= now <= tick + gap && s.lastEvent <= now
    ensures var o := TickRow(cfg, s, now);
      o.Some? && (InFamily(o.value.state) || OnTime(cfg, o.value, stop, slack, now, 0.0, gap, forks))
  {
    OpeningIsOnTime(cfg, s, stop, slack, tick, gap, forks, now);
    var b := Opening(cfg, s, now);
    if !InFamily(b.state) { TimersAreOnTime(cfg, b, stop, slack, gap, forks, now); }
  }

  lemma NotifyIsOnTime(cfg: Config, s: Row, stop: Time, slack: Time, tick: Time, gap: Time, forks: bool,
      notice: Notice, now: Time)
    requires Sane(cfg) && Patient(cfg, gap) && OnTime(cfg, s, stop, slack, tick, 0.0, gap, forks)
    requires tick <= now <= tick + gap && s.lastEvent <= now
    ensures var r := Notify(s, notice, now, ""); InFamily(r.state) || OnTime(cfg, r, stop, slack, tick, 0.0, gap, forks)
  {
  }

  lemma ForkIsOnTime(cfg: Config, s: Row, stop: Time, slack: Time, tick: Time, gap: Time, tasks: TaskList,
      agent: string, now: Time)
    requires OnTime(cfg, s, stop, slack, tick, 0.0, gap, true) && s.lastEvent <= now
    ensures OnTime(cfg, StopSubagent(s, tasks, now, agent), stop, slack, tick, 0.0, gap, true)
  {
    assert !Resync(s, tasks, now, agent).turnOver;
  }

  lemma HookIsOnTime(cfg: Config, s: Row, stop: Time, slack: Time, tick: Time, gap: Time, forks: bool,
                     ev: Event, proc: Option<Proc>, now: Time)
    requires Sane(cfg) && Patient(cfg, gap) && OnTime(cfg, s, stop, slack, tick, 0.0, gap, forks)
    requires tick <= now <= tick + gap && s.lastEvent <= now && IdleEvent(ev, forks)
    ensures var r := Receive(cfg, Some(s), ev, proc, now);
      InFamily(r.state) || OnTime(cfg, r, stop, slack, tick, 0.0, gap, forks)
  {
    var a := Admit(cfg, Some(s), ev, proc, now);
    match ev.hook
    case Notification(notice) => NotifyIsOnTime(cfg, a, stop, slack, tick, gap, forks, notice, now);
    case SubagentStop(tasks) => ForkIsOnTime(cfg, a, stop, slack, tick, gap, tasks, ev.agent, now);
    case _ =>
  }

  lemma StepIsOnTime(cfg: Config, sid: string, s: Row, stop: Time, slack: Time, tick: Time, gap: Time, forks: bool,
                     input: Input, now: Time)
    requires Sane(cfg) && Patient(cfg, gap) && OnTime(cfg, s, stop, slack, tick, 0.0, gap, forks) && 0.0 <= slack
    requires tick <= now <= tick + gap && s.lastEvent <= now && Idling(sid, input, forks)
    ensures var o := One(cfg, sid, Some(s), input, now);
      && o.Some?
      && (InFamily(o.value.state)
          || OnTime(cfg, o.value, stop, slack, if input.Tick? then now else tick, 0.0, gap, forks))
      && now <= Deadline(cfg, stop, slack, gap)
  {
    if input.Tick? {
      TickIsOnTime(cfg, s, stop, slack, tick, gap, forks, now);
    } else if input.Hooked? && !Foreign(sid, input) {
      HookIsOnTime(cfg, s, stop, slack, tick, gap, forks, input.ev, input.proc, now);
    }
  }

  /** The session after `Stop` and k more inputs is on the ladder, in time. */
  ghost predicate AlarmAt(cfg: Config, sid: string, s: Row, stop: Time, tr: seq<Timed>, deadline: Time, k: nat)
    requires k <= |tr|
  {
    Waits(Run(cfg, sid, Some(s), tr[..k])) && Clock(stop, tr[..k]) <= deadline
  }

  /** Some prefix of the run puts the session on the ladder by the deadline. */
  ghost predicate AlarmBy(cfg: Config, sid: string, s: Row, stop: Time, tr: seq<Timed>, deadline: Time) {
    exists k: nat :: k <= |tr| && AlarmAt(cfg, sid, s, stop, tr, deadline, k)
  }

  lemma {:induction false} AlarmOrOnTime(
    cfg: Config, sid: string, s: Row, stop: Time, slack: Time, tr: seq<Timed>, gap: Time, forks: bool)
    requires Sane(cfg) && Patient(cfg, gap) && 0.0 <= stop && 0.0 <= slack && Inv(cfg, stop, s)
    requires OnTime(cfg, s, stop, slack, stop, 0.0, gap, forks)
    requires OnlyIdling(sid, tr, forks) && Ordered(stop, tr) && Ticking(stop, tr, gap)
    ensures LastTick(stop, tr) <= Clock(stop, tr) <= LastTick(stop, tr) + gap
    ensures || AlarmBy(cfg, sid, s, stop, tr, Deadline(cfg, stop, slack, gap))
            || var o := Run(cfg, sid, Some(s), tr);
               o.Some? && OnTime(cfg, o.value, stop, slack, LastTick(stop, tr), 0.0, gap, forks)
    decreases |tr|
  {
    if tr != [] {
      var front, deadline := Front(tr), Deadline(cfg, stop, slack, gap);
      AlarmOrOnTime(cfg, sid, s, stop, slack, front, gap, forks);
      if k: nat :| k <= |front| && AlarmAt(cfg, sid, s, stop, front, deadline, k) {
        assert tr[..k] == front[..k];
        assert AlarmAt(cfg, sid, s, stop, tr, deadline, k);
      } else {
        var a := Run(cfg, sid, Some(s), front).value;
        RunKeepsInv(cfg, sid, stop, Some(s), front);
        assert Idling(sid, tr[|tr| - 1].input, forks);
        StepIsOnTime(cfg, sid, a, stop, slack, LastTick(stop, front), gap, forks, Last(tr).input, Last(tr).now);
        assert tr[..|tr|] == tr;
        assert Waits(Run(cfg, sid, Some(s), tr)) ==> AlarmAt(cfg, sid, s, stop, tr, deadline, |tr|);
      }
    }
  }

  /** Watched past the deadline, a session on time has reached the ladder. */
  lemma AlarmInTime(
    cfg: Config, sid: string, s: Row, stop: Time, slack: Time, tr: seq<Timed>, gap: Time, forks: bool)
    requires Sane(cfg) && Patient(cfg, gap) && 0.0 <= stop && 0.0 <= slack && Inv(cfg, stop, s)
    requires OnTime(cfg, s, stop, slack, stop, 0.0, gap, forks)
    requires OnlyIdling(sid, tr, forks) && Ordered(stop, tr) && Ticking(stop, tr, gap)
    requires Clock(stop, tr) > Deadline(cfg, stop, slack, gap)
    ensures AlarmBy(cfg, sid, s, stop, tr, Deadline(cfg, stop, slack, gap))
  {
    AlarmOrOnTime(cfg, sid, s, stop, slack, tr, gap, forks);
  }

  /**
   After a Stop with any background list, in every continuation that only idles and ticks at
   most `gap` apart, the session is on the attention ladder by
   stop + (bgQuiet + gap) + idlePrompt + look + 2 gap.
   */
  lemma NeverSilenced(
    cfg: Config, sid: string, o: Option<Row>, stop: Event, proc: Option<Proc>, at: Time, tr: seq<Timed>, gap: Time)
    requires Sane(cfg) && Patient(cfg, gap)
    requires stop.hook.Stop? && stop.sid == sid
    requires 0.0 <= at && InvOpt(cfg, at, o)
    requires OnlyIdling(sid, tr, false) && Ordered(at, tr) && Ticking(at, tr, gap)
    requires Clock(at, tr) > Deadline(cfg, at, cfg.bgQuiet + gap, gap)  // watched past the deadline
    ensures AlarmBy(cfg, sid, Receive(cfg, o, stop, proc, at), at, tr, Deadline(cfg, at, cfg.bgQuiet + gap, gap))
  {
    StopIsOnTime(cfg, o, stop, proc, at, cfg.bgQuiet + gap, gap, false);
    ReceiveKeepsInv(cfg, at, o, stop, proc, at);
    AlarmInTime(cfg, sid, Receive(cfg, o, stop, proc, at), at, cfg.bgQuiet + gap, tr, gap, false);
  }

  /**
   When the Stop lists no running subagent the quiet window does not count, and the
   SubagentStop of a fork that ends later, whatever it lists, postpones nothing.
   */
  lemma ForksDoNotPostpone(
    cfg: Config, sid: string, o: Option<Row>, stop: Event, proc: Option<Proc>, at: Time, tr: seq<Timed>, gap: Time)
    requires Sane(cfg) && Patient(cfg, gap)
    requires stop.hook.Stop? && stop.sid == sid && RunningTasks(stop.hook.tasks, "") == 0
    requires 0.0 <= at && InvOpt(cfg, at, o)
    requires OnlyIdling(sid, tr, true) && Ordered(at, tr) && Ticking(at, tr, gap)
    requires Clock(at, tr) > Deadline(cfg, at, 0.0, gap)
    ensures AlarmBy(cfg, sid, Receive(cfg, o, stop, proc, at), at, tr, Deadline(cfg, at, 0.0, gap))
  {
    StopIsOnTime(cfg, o, stop, proc, at, 0.0, gap, true);
    ReceiveKeepsInv(cfg, at, o, stop, proc, at);
    AlarmInTime(cfg, sid, Receive(cfg, o, stop, proc, at), at, 0.0, tr, gap, true);
  }

  // ---- how loud the alarm is ----

  /** The input asks for a human outright, so no count softens it. */
  predicate Asks(sid: string, input: Input) {
    !Foreign(sid, input) && input.Hooked? && DirectAsk(input.ev.hook)
  }

  /** The session exists after every input of the trace. */
  ghost predicate Present(cfg: Config, sid: string, s: Row, tr: seq<Timed>)
    decreases |tr|
  {
    Run(cfg, sid, Some(s), tr).Some? && (tr == [] || Present(cfg, sid, s, Front(tr)))
  }

  /** As loud as the untracked work listed by a Stop at `stop` lets it be: with none never soft, and
      with some never on the ladder but by way of the soft rung. */
  ghost predicate Muted(cfg: Config, s: Row, stop: Time, untracked: nat) {
    && s.bgOther == untracked
    && if untracked == 0 then !s.state.NeedsLook?
       else (s.state.NeedsLook? ==> stop <= s.stateSince) && (InFamily(s.state) ==> stop + cfg.look < s.stateSince)
  }

  lemma TickStaysMuted(cfg: Config, s: Row, stop: Time, untracked: nat, now: Time)
    requires Sane(cfg) && Muted(cfg, s, stop, untracked) && stop <= now
    ensures var o := TickRow(cfg, s, now); o.Some? ==> Muted(cfg, o.value, stop, untracked)
  {
    OpeningStaysMuted(cfg, s, stop, untracked, now);
  }

  lemma OpeningStaysMuted(cfg: Config, s: Row, stop: Time, untracked: nat, now: Time)
    requires Muted(cfg, s, stop, untracked) && stop <= now
    ensures Muted(cfg, Opening(cfg, s, now), stop, untracked)
  {
  }

  lemma NotifyStaysMuted(cfg: Config, s: Row, stop: Time, untracked: nat, notice: Notice, now: Time)
    requires Sane(cfg) && Muted(cfg, s, stop, untracked) && stop <= now
    requires untracked == 0 || !DirectAsk(Notification(notice))
    ensures Muted(cfg, Notify(s, notice, now, ""), stop, untracked)
  {
  }

  lemma HookStaysMuted(cfg: Config, s: Row, stop: Time, untracked: nat, ev: Event, now: Time)
    requires Sane(cfg) && Muted(cfg, s, stop, untracked) && stop <= now
    requires IdleEvent(ev, false) && (untracked != 0 ==> !DirectAsk(ev.hook))
    ensures Muted(cfg, Dispatch(s, ev.hook, now, ev.agent), stop, untracked)
  {
    if ev.hook.Notification? { NotifyStaysMuted(cfg, s, stop, untracked, ev.hook.notice, now); }
  }

  lemma StepStaysMuted(cfg: Config, sid: string, s: Row, stop: Time, untracked: nat, input: Input, now: Time)
    requires Sane(cfg) && Muted(cfg, s, stop, untracked) && stop <= now
    requires Idling(sid, input, false) && (untracked != 0 ==> !Asks(sid, input))
    ensures var o := One(cfg, sid, Some(s), input, now); o.Some? ==> Muted(cfg, o.value, stop, untracked)
  {
    if input.Tick? {
      TickStaysMuted(cfg, s, stop, untracked, now);
    } else if input.Hooked? && !Foreign(sid, input) {
      HookStaysMuted(cfg, Admit(cfg, Some(s), input.ev, input.proc, now), stop, untracked, input.ev, now);
    }
  }

  /**
   A Stop decides how loud the alarm will be. While the session only idles, one that listed no
   untracked work never makes it soft; and one that listed some puts it on the ladder, unless a
   human is asked for outright, only once the soft alarm has run its course, later than `look`
   after the Stop.
   */
  lemma {:induction false} StopDecidesHowLoud(
    cfg: Config, sid: string, o: Option<Row>, stop: Event, proc: Option<Proc>, at: Time, tr: seq<Timed>)
    requires Sane(cfg) && stop.hook.Stop? && Ordered(at, tr) && OnlyIdling(sid, tr, false)
    requires Present(cfg, sid, Receive(cfg, o, stop, proc, at), tr)
    requires UntrackedTasks(stop.hook.tasks, "") == 0 || forall i :: 0 <= i < |tr| ==> !Asks(sid, tr[i].input)
    ensures var a := Run(cfg, sid, Some(Receive(cfg, o, stop, proc, at)), tr).value;
      Muted(cfg, a, at, UntrackedTasks(stop.hook.tasks, ""))
    decreases |tr|
  {
    if tr != [] {
      StopDecidesHowLoud(cfg, sid, o, stop, proc, at, Front(tr));
      ClockAdvances(at, tr);
      assert Idling(sid, tr[|tr| - 1].input, false);
      var a := Run(cfg, sid, Some(Receive(cfg, o, stop, proc, at)), Front(tr)).value;
      StepStaysMuted(cfg, sid, a, at, UntrackedTasks(stop.hook.tasks, ""), Last(tr).input, Last(tr).now);
    }
  }
}
