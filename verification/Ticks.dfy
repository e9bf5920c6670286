/** What one tick settles, and what silence alone leads to. */
module Ticks {
  import opened Basics
  import opened Machine
  import opened Invariants

  // ---- deadlines ----

  /** No timer of this session has run out at `now`. */
  ghost predicate Timely(cfg: Config, s: Row, now: Time) {
    match s.state
    case Ended => now - s.stateSince <= cfg.endedGrace
    case _ =>
      && now - s.lastEvent <= cfg.ghostAfter
      && (s.bgTasks != 0 ==> now - s.bgSeen <= cfg.bgQuiet)
      && (s.idleHeld ==> s.bgTasks != 0)
      && (s.state.Working? ==> now - s.lastEvent <= cfg.staleAfter)
      && (s.state.Idle? ==> now - s.stateSince <= cfg.idlePrompt)
      && (s.state.NeedsLook? ==> now - s.stateSince <= cfg.look)
      && (s.state.Starting? ==> now - s.lastEvent <= cfg.idleStale)
      && (s.state.NeedsInput? ==> now - s.stateSince <= cfg.needPulse)
      && (s.state.NeedsInput? || s.state.NeedsHeld? ==> now - s.stateSince <= cfg.needRed)
  }

  lemma IdlePromptSurfaces(b: Row, now: Time, agent: string)
    requires !InFamily(b.state)
    ensures var r := WantAttention(b, now, agent);
      r.state == NeedsInput && r.stateSince == now == r.lastEvent && !r.idleHeld
    ensures !b.state.NeedsLook? ==>
      var r := IdlePrompt(b, now, agent);
      Surfaced(r.state) && !r.state.Waiting? && r.stateSince == now == r.lastEvent && !r.idleHeld
  {
  }

  /** `Timers` ends whatever phase has run out, and starts none that has. */
  lemma TimersSettle(cfg: Config, b: Row, now: Time)
    requires Sane(cfg) && !b.state.Ended? && now - b.lastEvent <= cfg.ghostAfter
    requires b.bgTasks != 0 ==> now - b.bgSeen <= cfg.bgQuiet
    requires b.idleHeld ==> b.bgTasks != 0
    ensures Timely(cfg, Timers(cfg, b, now), now)
  {
    if !InFamily(b.state) {
      IdlePromptSurfaces(b, now, "");
      IdlePromptSurfaces(b, now, b.attnAgent);
    }
  }

  /** One tick leaves nothing overdue, however late it comes. */
  lemma NothingOverdue(cfg: Config, s: Row, now: Time)
    requires Sane(cfg)
    ensures var o := TickRow(cfg, s, now); o.Some? ==> Timely(cfg, o.value, now)
  {
    TickOpens(cfg, s, now);
    if TickRow(cfg, s, now).Some? && !s.state.Ended? { TimersSettle(cfg, Opening(cfg, s, now), now); }
  }

  /** A tick does nothing to a session exactly when none of its timers has run out. */
  lemma TimelyIsFixed(cfg: Config, s: Row, now: Time)
    requires Sane(cfg)
    ensures TickRow(cfg, s, now) == Some(s) <==> Timely(cfg, s, now)
  {
    if TickRow(cfg, s, now) == Some(s) { NothingOverdue(cfg, s, now); }
  }

  function TickOpt(cfg: Config, o: Option<Row>, now: Time): Option<Row> {
    if o.Some? then TickRow(cfg, o.value, now) else None
  }

  lemma TickIdempotent(cfg: Config, s: Row, now: Time)
    requires Sane(cfg)
    ensures TickOpt(cfg, TickRow(cfg, s, now), now) == TickRow(cfg, s, now)
  {
    NothingOverdue(cfg, s, now);
    if TickRow(cfg, s, now).Some? { TimelyIsFixed(cfg, TickRow(cfg, s, now).value, now); }
  }

  /** A waiting session settles in one tick: the ticks a sleeping machine missed add nothing. */
  lemma TicksCoalesce(cfg: Config, s: Row, first: Time, second: Time)
    requires first <= second && InFamily(s.state) && !s.idleHeld
    ensures TickOpt(cfg, TickRow(cfg, s, first), second) == TickRow(cfg, s, second)
  {
  }

  // ---- silence ----

  /** The input is a tick, or is about another session. */
  predicate Foreign(sid: string, input: Input) {
    match input
    case Hooked(ev, _) => ev.sid != sid
    case Status(st) => st.sid != sid
    case Exited(who) => who != sid
    case Tick => true
  }

  ghost predicate Silent(sid: string, tr: seq<Timed>) {
    forall i :: 0 <= i < |tr| ==> Foreign(sid, tr[i].input)
  }

  function Rank(st: State): nat {
    match st
    case Working => 6
    case Starting => 6
    case Idle => 5
    case NeedsLook => 4
    case NeedsInput => 3
    case NeedsHeld => 2
    case Waiting => 1
    case _ => 0
  }

  /** How many more times silence can change the state: the pair (held, rank) as one number. */
  function Potential(s: Row): nat {
    (if s.idleHeld then 7 else 0) + Rank(s.state)
  }

  /** A tick that changes the state delivers the held notification or lowers the rank. */
  lemma TickDescends(cfg: Config, s: Row, now: Time)
    ensures var o := TickRow(cfg, s, now);
      o.Some? ==>
        && (o.value.idleHeld ==> s.idleHeld)
        && (o.value.idleHeld == s.idleHeld ==> Rank(o.value.state) <= Rank(s.state))
        && (o.value.idleHeld == s.idleHeld && o.value.state != s.state ==> Rank(o.value.state) < Rank(s.state))
        && (o.value.idleHeld != s.idleHeld ==> Rank(o.value.state) <= 4)
  {
    TickOpens(cfg, s, now);
    var b := Opening(cfg, s, now);
    assert b.state == s.state || (s.idleHeld && !b.idleHeld) || (b.state.Idle? && s.state.Working?);
  }

  /** How many times the state changed along a run. */
  ghost function StateChanges(cfg: Config, sid: string, o: Option<Row>, tr: seq<Timed>): nat
    decreases |tr|
  {
    if tr == [] then 0
    else
      var a, b := Run(cfg, sid, o, Front(tr)), Run(cfg, sid, o, tr);
      StateChanges(cfg, sid, o, Front(tr)) + (if a.Some? && b.Some? && a.value.state != b.value.state then 1 else 0)
  }

  ghost function PotentialOpt(o: Option<Row>): nat {
    if o.Some? then Potential(o.value) else 0
  }

  /** Left alone, a session changes state at most `Potential` times: silence has no cycle. */
  lemma {:induction false} SilenceSettles(cfg: Config, sid: string, o: Option<Row>, tr: seq<Timed>)
    requires Silent(sid, tr)
    ensures StateChanges(cfg, sid, o, tr) + PotentialOpt(Run(cfg, sid, o, tr)) <= PotentialOpt(o)
    decreases |tr|
  {
    if tr != [] {
      SilenceSettles(cfg, sid, o, Front(tr));
      assert Foreign(sid, tr[|tr| - 1].input);
      var a := Run(cfg, sid, o, Front(tr));
      if a.Some? { TickDescends(cfg, a.value, Last(tr).now); }
    }
  }

  /** The longest the timers can still restamp a session in state `st`. */
  function Fuel(cfg: Config, st: State, gap: Time): Time {
    match st
    case Working => cfg.staleAfter + cfg.idlePrompt + cfg.look + gap + gap + gap
    case Idle => cfg.idlePrompt + cfg.look + gap + gap
    case NeedsLook => cfg.look + gap
    case Starting => cfg.idleStale + gap
    case _ => 0.0
  }

  function FullFuel(cfg: Config, s: Row, gap: Time): Time {
    Fuel(cfg, s.state, gap) + if s.idleHeld then cfg.bgQuiet + cfg.look + gap + gap else 0.0
  }

  /** How long a session that falls silent can stay on the display. */
  function Lifetime(cfg: Config, s: Row, gap: Time): Time {
    if s.state.Ended? then cfg.endedGrace + gap
    else FullFuel(cfg, s, gap) + cfg.ghostAfter + gap
  }

  /** Silent since `start`, with `fuel` to spend, and last ticked at `tick`. */
  ghost predicate Draining(cfg: Config, r: Row, start: Time, fuel: Time, tick: Time, gap: Time) {
    && r.stateSince <= r.lastEvent <= tick && r.bgSeen <= start <= tick
    && (tick == start || Timely(cfg, r, tick))
    && if r.state.Ended? then r.stateSince <= start
       else Max(start, r.lastEvent) + FullFuel(cfg, r, gap) <= start + fuel
  }

  /** How long a session in state `st` can stay there. */
  function Window(cfg: Config, st: State): Time {
    match st
    case Working => cfg.staleAfter
    case Idle => cfg.idlePrompt
    case NeedsLook => cfg.look
    case Starting => cfg.idleStale
    case _ => 0.0
  }

  /** Leaving a state on time costs at least the fuel of that state. */
  lemma TimersBurn(cfg: Config, b: Row, start: Time, gap: Time, now: Time)
    requires Sane(cfg) && 0.0 <= gap && start <= now && !b.state.Ended?
    requires b.state in {Working, Idle, NeedsLook, Starting} ==>
               now <= Max(start, b.lastEvent) + Window(cfg, b.state) + gap
    ensures var t := Timers(cfg, b, now);
      && Max(start, t.lastEvent) + Fuel(cfg, t.state, gap) <= Max(start, b.lastEvent) + Fuel(cfg, b.state, gap)
      && (t.idleHeld ==> b.idleHeld) && t.bgSeen == b.bgSeen && !t.state.Ended?
      && (t.stateSince == b.stateSince || t.stateSince == now == t.lastEvent)
      && (t.lastEvent == b.lastEvent || t.lastEvent == now)
  {
  }

  /** A held notification is delivered while its share of the fuel lasts. */
  lemma OpeningBurns(cfg: Config, r: Row, start: Time, fuel: Time, tick: Time, gap: Time, now: Time)
    requires Sane(cfg) && 0.0 <= gap && tick <= now <= tick + gap
    requires Draining(cfg, r, start, fuel, tick, gap) && !r.state.Ended?
    ensures var b := Opening(cfg, r, now);
      && Max(start, b.lastEvent) + FullFuel(cfg, b, gap) <= start + fuel
      && (b.idleHeld ==> r.idleHeld) && b.bgSeen == r.bgSeen && !b.state.Ended? && b.stateSince <= b.lastEvent
      && (b.state in {Working, Idle, NeedsLook, Starting} ==>
            now <= Max(start, b.lastEvent) + Window(cfg, b.state) + gap)
  {
    TickOpens(cfg, r, now);
    var b := Opening(cfg, r, now);
    assert r.idleHeld && !b.idleHeld ==> now <= start + cfg.bgQuiet + gap;
  }

  lemma DrainingStep(cfg: Config, r: Row, start: Time, fuel: Time, tick: Time, gap: Time, now: Time)
    requires Sane(cfg) && 0.0 <= gap && tick <= now <= tick + gap
    requires Draining(cfg, r, start, fuel, tick, gap)
    ensures var o := TickRow(cfg, r, now);
      o.Some? ==> Draining(cfg, o.value, start, fuel, now, gap) && (o.value.state.Ended? <==> r.state.Ended?)
  {
    NothingOverdue(cfg, r, now);
    if TickRow(cfg, r, now).Some? && !r.state.Ended? {
      OpeningBurns(cfg, r, start, fuel, tick, gap, now);
      TimersBurn(cfg, Opening(cfg, r, now), start, gap, now);
    }
  }

  lemma {:induction false} SilenceDrains(cfg: Config, sid: string, start: Time, s: Row, tr: seq<Timed>, gap: Time)
    requires Sane(cfg) && 0.0 <= gap && Inv(cfg, start, s)
    requires Ordered(start, tr) && Ticking(start, tr, gap) && Silent(sid, tr)
    ensures start <= LastTick(start, tr) <= Clock(start, tr) <= LastTick(start, tr) + gap
    ensures var o := Run(cfg, sid, Some(s), tr);
      o.Some? ==> Draining(cfg, o.value, start, FullFuel(cfg, s, gap), LastTick(start, tr), gap)
                  && (o.value.state.Ended? <==> s.state.Ended?)
    decreases |tr|
  {
    if tr != [] {
      SilenceDrains(cfg, sid, start, s, Front(tr), gap);
      assert Foreign(sid, tr[|tr| - 1].input);
      var a := Run(cfg, sid, Some(s), Front(tr));
      if a.Some? && Last(tr).input.Tick? {
        DrainingStep(cfg, a.value, start, FullFuel(cfg, s, gap), LastTick(start, Front(tr)), gap, Last(tr).now);
      }
    }
  }

  /** A session nobody hears from again is gone within its `Lifetime`, whatever its state. */
  lemma SilenceRemoves(cfg: Config, sid: string, start: Time, s: Row, tr: seq<Timed>, gap: Time)
    requires Sane(cfg) && 0.0 <= gap && Inv(cfg, start, s)
    requires Ordered(start, tr) && Ticking(start, tr, gap) && Silent(sid, tr)
    requires Clock(start, tr) > start + Lifetime(cfg, s, gap)
    ensures Run(cfg, sid, Some(s), tr) == None
  {
    SilenceDrains(cfg, sid, start, s, tr, gap);
  }
}
