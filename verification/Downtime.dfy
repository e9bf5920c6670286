/** What schedules of ticks make of one session, in closed form, and how two schedules compare. */
module Downtime {
  import opened Basics
  import opened Machine
  import opened Invariants
  import opened Ticks
  import opened Liveness

  ghost predicate OnlyTicks(tr: seq<Timed>) {
    forall i :: 0 <= i < |tr| ==> tr[i].input.Tick?
  }

  lemma GhostAlone(cfg: Config, s: Row, now: Time)
    requires !s.state.Ended?
    ensures TickRow(cfg, s, now).Some? <==> now - s.lastEvent <= cfg.ghostAfter
  {
  }

  lemma {:induction false} AbsentStaysAbsent(cfg: Config, sid: string, tr: seq<Timed>)
    requires OnlyTicks(tr)
    ensures Run(cfg, sid, None, tr) == None
    decreases |tr|
  {
    if tr != [] {
      AbsentStaysAbsent(cfg, sid, Front(tr));
      assert tr[|tr| - 1].input.Tick?;
    }
  }

  /** The state and since when. */
  function Place(s: Row): (State, Time) {
    (s.state, s.stateSince)
  }

  // ---- on the ladder ----

  /** The place of an alarm after a tick: state and age decide it, nothing else. */
  function NextPlace(cfg: Config, st: State, since: Time, now: Time): (State, Time) {
    if st.NeedsLook? && now - since > cfg.look then (NeedsInput, now)
    else if st.NeedsInput? || st.NeedsHeld? then
      (if now - since > cfg.needRed then Waiting else if now - since > cfg.needPulse then NeedsHeld else st, since)
    else (st, since)
  }

  lemma TickMovesPlace(cfg: Config, s: Row, now: Time)
    requires Surfaced(s.state)
    ensures var o := TickRow(cfg, s, now);
      o.Some? ==>
        && Place(o.value) == NextPlace(cfg, s.state, s.stateSince, now) && Surfaced(o.value.state)
        && (!s.idleHeld ==>
              !o.value.idleHeld &&
              o.value.lastEvent == if s.state.NeedsLook? && o.value.state.NeedsInput? then now else s.lastEvent)
  {
    TickOpens(cfg, s, now);
  }

  /** Over any ticks a session in the family keeps its age, is on the rung of that age, and with
      nothing held is dropped by the ghost cutoff alone. */
  lemma {:induction false} LadderOverTicks(cfg: Config, sid: string, start: Time, s: Row, tr: seq<Timed>)
    requires Sane(cfg) && Inv(cfg, start, s) && 0.0 <= start && InFamily(s.state)
    requires OnlyTicks(tr) && Ordered(start, tr)
    ensures var o := Run(cfg, sid, Some(s), tr);
      && (o.Some? && tr != [] ==> Place(o.value) == (Rung(cfg, Last(tr).now - s.stateSince), s.stateSince))
      && (o.Some? ==> InFamily(o.value.state) && o.value.stateSince == s.stateSince)
      && (!s.idleHeld && tr != [] ==> (o.Some? <==> Last(tr).now - s.lastEvent <= cfg.ghostAfter))
      && (!s.idleHeld && o.Some? ==> !o.value.idleHeld && o.value.lastEvent == s.lastEvent)
    decreases |tr|
  {
    if tr != [] {
      LadderOverTicks(cfg, sid, start, s, Front(tr));
      RunKeepsInv(cfg, sid, start, Some(s), Front(tr));
      ClockAdvances(start, Front(tr));
      assert tr[|tr| - 1].input.Tick?;
      var a := Run(cfg, sid, Some(s), Front(tr));
      if a.Some? {
        TickMovesPlace(cfg, a.value, Last(tr).now);
        TickSettlesLadder(cfg, Clock(start, Front(tr)), a.value, Last(tr).now);
        GhostAlone(cfg, a.value, Last(tr).now);
      }
    }
  }

  // ---- the first tick past a deadline ----

  /** The first tick later than `deadline`; no deadline is never passed. */
  function FirstAfter(tr: seq<Timed>, deadline: Option<Time>): (first: Option<Time>)
    ensures first.Some? ==> tr != [] && deadline.Some? && first.value > deadline.value
    decreases |tr|
  {
    if tr == [] then None
    else
      var before := FirstAfter(Front(tr), deadline);
      if before.None? && Overdue(deadline, Last(tr).now) then Some(Last(tr).now) else before
  }

  predicate Overdue(deadline: Option<Time>, now: Time) {
    deadline.Some? && now > deadline.value
  }

  lemma {:induction false} FirstAfterMember(tr: seq<Timed>, deadline: Option<Time>)
    ensures FirstAfter(tr, deadline).Some? <==> exists i :: 0 <= i < |tr| && Overdue(deadline, tr[i].now)
    ensures FirstAfter(tr, deadline).Some? ==> exists i :: 0 <= i < |tr| && tr[i].now == FirstAfter(tr, deadline).value
    decreases |tr|
  {
    if tr != [] {
      FirstAfterMember(Front(tr), deadline);
      assert forall i :: 0 <= i < |tr| - 1 ==> tr[i] == Front(tr)[i];
      assert Last(tr) == tr[|tr| - 1];
    }
  }

  /** When the daemon that stayed up ticked through the downtime and then along with the other, the
      two first tick past a deadline together exactly when no downtime tick was past it. */
  lemma {:induction false} DowntimeDecides(down: seq<Timed>, load: Time, us: seq<Timed>, deadline: Option<Time>)
    requires Ordered(load, us)
    requires forall i :: 0 <= i < |down| ==> down[i].now < load
    ensures FirstAfter(down + us, deadline) ==
            if FirstAfter(down, deadline).Some? then FirstAfter(down, deadline) else FirstAfter(us, deadline)
    ensures FirstAfter(down, deadline).Some? <==> exists i :: 0 <= i < |down| && Overdue(deadline, down[i].now)
    ensures FirstAfter(down, deadline).Some? ==> FirstAfter(down, deadline).value < load
    ensures FirstAfter(us, deadline).Some? ==> load <= FirstAfter(us, deadline).value
    ensures FirstAfter(down + us, deadline) == FirstAfter(us, deadline) <==>
            forall i :: 0 <= i < |down| ==> !Overdue(deadline, down[i].now)
    decreases |us|
  {
    FirstAfterMember(down, deadline);
    if us == [] {
      assert down + us == down;
    } else {
      DowntimeDecides(down, load, Front(us), deadline);
      ClockAdvances(load, Front(us));
      assert Front(down + us) == down + Front(us) && Last(down + us) == Last(us);
    }
  }

  // ---- one timer ----

  /** Nothing in the background. */
  predicate Bare(s: Row) {
    s.bgTasks == 0 && s.bgOther == 0 && !s.turnOver
  }

  /** Off the ladder, with at most one timer to wait for and one place to go. */
  predicate OneTimer(s: Row) {
    || s.state.NeedsLook?
    || (Bare(s) && !s.idleHeld && s.state in {Working, Starting, Idle, Error, Stale})
  }

  /** When that timer runs out. */
  function Due(cfg: Config, s: Row): Option<Time> {
    match s.state
    case NeedsLook => Some(s.stateSince + cfg.look)
    case Idle => Some(s.stateSince + cfg.idlePrompt)
    case Working => Some(s.lastEvent + cfg.staleAfter)
    case Starting => Some(s.lastEvent + cfg.idleStale)
    case _ => None
  }

  /** The timer leads to the ladder; the others lead to STALE. */
  predicate Rises(s: Row) {
    s.state.NeedsLook? || s.state.Idle?
  }

  /** Where the session is at `now` when its timer was first found overdue at `first`. */
  function PlaceAfter(cfg: Config, s: Row, first: Option<Time>, now: Time): (State, Time) {
    match first
    case None => Place(s)
    case Some(t) => (if Rises(s) then Rung(cfg, now - t) else Stale, t)
  }

  /** `a` is what ticks up to `now` make of `s`. */
  ghost predicate Follows(cfg: Config, s: Row, first: Option<Time>, now: Time, a: Row) {
    && Place(a) == PlaceAfter(cfg, s, first, now)
    && (first.Some? ==> first.value <= now && Due(cfg, s).Some?)
    && (first.None? || !Rises(s) ==> OneTimer(a))
    && (first.None? && !s.state.NeedsLook? ==> a.lastEvent == s.lastEvent)
  }

  lemma TimerTick(cfg: Config, s: Row, before: Option<Time>, prev: Time, a: Row, now: Time)
    requires Sane(cfg) && OneTimer(s) && prev <= now && Follows(cfg, s, before, prev, a)
    ensures var first := if before.None? && Overdue(Due(cfg, s), now) then Some(now) else before;
      var o := TickRow(cfg, a, now);
      o.Some? ==> Follows(cfg, s, first, now, o.value)
  {
    if Surfaced(a.state) {
      TickMovesPlace(cfg, a, now);
    } else {
      assert Opening(cfg, a, now) == a;
    }
  }

  /** Over any ticks such a session stays put until the first tick that finds its timer overdue, and
      is on the ladder, or STALE, from that tick on. */
  lemma {:induction false} OneTimerOverTicks(cfg: Config, sid: string, start: Time, s: Row, tr: seq<Timed>)
    requires Sane(cfg) && OneTimer(s) && OnlyTicks(tr) && Ordered(start, tr)
    ensures var o := Run(cfg, sid, Some(s), tr);
      o.Some? ==> Follows(cfg, s, FirstAfter(tr, Due(cfg, s)), Clock(start, tr), o.value)
    decreases |tr|
  {
    if tr != [] {
      var front := Front(tr);
      OneTimerOverTicks(cfg, sid, start, s, front);
      assert tr[|tr| - 1].input.Tick?;
      var a := Run(cfg, sid, Some(s), front);
      if a.Some? { TimerTick(cfg, s, FirstAfter(front, Due(cfg, s)), Clock(start, front), a.value, Last(tr).now); }
    }
  }

  /** Whether it is still there at `now`: the ghost cutoff counts from its last event or, once its
      timer moved it, from the tick that did. */
  predicate Lives(cfg: Config, s: Row, first: Option<Time>, now: Time) {
    match first
    case None => now - s.lastEvent <= cfg.ghostAfter
    case Some(t) => t - s.lastEvent <= cfg.ghostAfter && now - t <= cfg.ghostAfter
  }

  /** What the ticks up to `now` have made of one without a hold. */
  ghost predicate Fate(cfg: Config, s: Row, first: Option<Time>, now: Time, o: Option<Row>) {
    && (o.Some? <==> Lives(cfg, s, first, now))
    && (o.Some? ==> !o.value.idleHeld && o.value.lastEvent == first.GetOr(s.lastEvent))
  }

  lemma FateTick(cfg: Config, s: Row, before: Option<Time>, prev: Time, a: Row, now: Time)
    requires Sane(cfg) && OneTimer(s) && prev <= now && Follows(cfg, s, before, prev, a)
    requires !a.idleHeld && a.lastEvent == before.GetOr(s.lastEvent)
    requires before.Some? ==> before.value - s.lastEvent <= cfg.ghostAfter
    ensures var first := if before.None? && Overdue(Due(cfg, s), now) then Some(now) else before;
      Fate(cfg, s, first, now, TickRow(cfg, a, now))
  {
    GhostAlone(cfg, a, now);
    if Surfaced(a.state) {
      TickMovesPlace(cfg, a, now);
    } else {
      assert Opening(cfg, a, now) == a;
    }
  }

  lemma FateGone(cfg: Config, s: Row, before: Option<Time>, prev: Time, now: Time)
    requires prev <= now && Fate(cfg, s, before, prev, None)
    ensures var first := if before.None? && Overdue(Due(cfg, s), now) then Some(now) else before;
      Fate(cfg, s, first, now, None)
  {
  }

  /** And with nothing held it is dropped exactly by the ghost cutoff. */
  lemma {:induction false} OneTimerDropped(cfg: Config, sid: string, start: Time, s: Row, tr: seq<Timed>)
    requires Sane(cfg) && OneTimer(s) && !s.idleHeld && OnlyTicks(tr) && Ordered(start, tr) && tr != []
    ensures Fate(cfg, s, FirstAfter(tr, Due(cfg, s)), Last(tr).now, Run(cfg, sid, Some(s), tr))
    decreases |tr|
  {
    var front, now := Front(tr), Last(tr).now;
    var a, before := Run(cfg, sid, Some(s), front), FirstAfter(front, Due(cfg, s));
    assert tr[|tr| - 1].input.Tick?;
    assert Run(cfg, sid, Some(s), tr) == TickOpt(cfg, a, now);
    if front == [] {
      FateTick(cfg, s, before, start, s, now);
    } else {
      OneTimerDropped(cfg, sid, start, s, front);
      if a.Some? {
        OneTimerOverTicks(cfg, sid, start, s, front);
        FateTick(cfg, s, before, Last(front).now, a.value, now);
      } else {
        FateGone(cfg, s, before, Last(front).now, now);
      }
    }
  }

  /** Two schedules leave it in the same place exactly when its timer was first found overdue at the
      same tick, or in neither. */
  lemma PlacesAgree(cfg: Config, s: Row, first: Option<Time>, other: Option<Time>, now: Time)
    requires OneTimer(s) && (first.Some? || other.Some? ==> Due(cfg, s).Some?)
    ensures PlaceAfter(cfg, s, first, now) == PlaceAfter(cfg, s, other, now) <==> first == other
  {
  }

  // ---- reaching the ladder ----

  /** Some tick puts the session on the ladder, or finds it there. */
  ghost predicate Alarms(cfg: Config, sid: string, s: Row, tr: seq<Timed>) {
    exists k: nat :: 0 < k <= |tr| && Waits(Run(cfg, sid, Some(s), tr[..k]))
  }

  lemma AlarmsOneMore(cfg: Config, sid: string, s: Row, tr: seq<Timed>)
    requires tr != []
    ensures Alarms(cfg, sid, s, tr) <==> Alarms(cfg, sid, s, Front(tr)) || Waits(Run(cfg, sid, Some(s), tr))
  {
    assert tr[..|tr|] == tr;
    assert forall k: nat :: k < |tr| ==> tr[..k] == Front(tr)[..k];
    if k: nat :| 0 < k <= |tr| - 1 && Waits(Run(cfg, sid, Some(s), Front(tr)[..k])) {
      assert tr[..k] == Front(tr)[..k];
    }
  }

  lemma {:induction false} OneTimerAlarmsExactly(cfg: Config, sid: string, start: Time, s: Row, tr: seq<Timed>)
    requires Sane(cfg) && OneTimer(s) && !s.idleHeld && OnlyTicks(tr) && Ordered(start, tr)
    ensures var first := FirstAfter(tr, Due(cfg, s));
      Alarms(cfg, sid, s, tr) <==> Rises(s) && first.Some? && first.value - s.lastEvent <= cfg.ghostAfter
    decreases |tr|
  {
    if tr != [] {
      OneTimerAlarmsExactly(cfg, sid, start, s, Front(tr));
      AlarmsOneMore(cfg, sid, s, tr);
      OneTimerOverTicks(cfg, sid, start, s, tr);
      OneTimerDropped(cfg, sid, start, s, tr);
    }
  }

  lemma {:induction false} RunFromFirst(cfg: Config, sid: string, o: Option<Row>, tr: seq<Timed>)
    requires tr != []
    ensures Run(cfg, sid, o, tr) == Run(cfg, sid, One(cfg, sid, o, tr[0].input, tr[0].now), tr[1..])
    decreases |tr|
  {
    if |tr| > 1 {
      RunFromFirst(cfg, sid, o, Front(tr));
      assert Front(tr[1..]) == Front(tr)[1..];
    } else {
      assert Front(tr) == [];
    }
  }

  lemma {:induction false} FirstAfterFromFirst(tr: seq<Timed>, deadline: Option<Time>)
    requires tr != []
    ensures FirstAfter(tr, deadline)
         == if Overdue(deadline, tr[0].now) then Some(tr[0].now) else FirstAfter(tr[1..], deadline)
    decreases |tr|
  {
    if |tr| > 1 {
      FirstAfterFromFirst(Front(tr), deadline);
      assert Front(tr[1..]) == Front(tr)[1..];
    } else {
      assert Front(tr) == [];
    }
  }

  lemma AlarmsFromFirst(cfg: Config, sid: string, s: Row, tr: seq<Timed>)
    requires OnlyTicks(tr) && tr != []
    ensures var o := TickRow(cfg, s, tr[0].now);
      Alarms(cfg, sid, s, tr) <==> o.Some? && (InFamily(o.value.state) || Alarms(cfg, sid, o.value, tr[1..]))
  {
    var o := TickRow(cfg, s, tr[0].now);
    assert tr[0].input.Tick?;
    forall k: nat | 0 < k <= |tr| ensures Run(cfg, sid, Some(s), tr[..k]) == Run(cfg, sid, o, tr[1..][..k - 1]) {
      RunFromFirst(cfg, sid, Some(s), tr[..k]);
      assert tr[..k][1..] == tr[1..][..k - 1];
      assert One(cfg, sid, Some(s), tr[..k][0].input, tr[..k][0].now) == o;
    }
    if o.None? {
      forall k: nat | 0 < k <= |tr| ensures Run(cfg, sid, Some(s), tr[..k]) == None {
        AbsentStaysAbsent(cfg, sid, tr[1..][..k - 1]);
      }
    } else if InFamily(o.value.state) {
      assert tr[1..][..0] == [] && Waits(Run(cfg, sid, Some(s), tr[..1]));
    } else {
      if k: nat :| 0 < k <= |tr| && Waits(Run(cfg, sid, Some(s), tr[..k])) {
        assert k != 1 by { assert tr[1..][..0] == []; }
        assert 0 < k - 1 <= |tr[1..]| && Waits(Run(cfg, sid, Some(o.value), tr[1..][..k - 1]));
      }
      if k: nat :| 0 < k <= |tr[1..]| && Waits(Run(cfg, sid, Some(o.value), tr[1..][..k])) {
        assert tr[1..][..k] == tr[1..][..k + 1 - 1];
        assert Waits(Run(cfg, sid, Some(s), tr[..k + 1]));
      }
    }
  }

  lemma {:induction false} EndedStaysOff(cfg: Config, sid: string, s: Row, tr: seq<Timed>)
    requires s.state.Ended? && OnlyTicks(tr)
    ensures var o := Run(cfg, sid, Some(s), tr); o.Some? ==> o.value.state.Ended?
    ensures !Alarms(cfg, sid, s, tr)
    decreases |tr|
  {
    if tr != [] {
      EndedStaysOff(cfg, sid, s, Front(tr));
      AlarmsOneMore(cfg, sid, s, tr);
      assert tr[|tr| - 1].input.Tick?;
    }
  }

  /** Ticks alone bring a session with nothing in the background onto the ladder: the first one must
      find it within the ghost cutoff, and it must wait there already, hold a notification, or have
      a timer that leads there and is found overdue before the cutoff. */
  predicate Reaches(cfg: Config, s: Row, tr: seq<Timed>) {
    && tr != [] && !s.state.Ended? && tr[0].now - s.lastEvent <= cfg.ghostAfter
    && var first := FirstAfter(tr, Due(cfg, s));
       || InFamily(s.state)
       || (s.idleHeld && !s.state.NeedsLook?)
       || (Rises(s) && first.Some? && first.value - (if s.idleHeld then tr[0].now else s.lastEvent) <= cfg.ghostAfter)
  }

  lemma HoldComesOut(cfg: Config, s: Row, now: Time)
    requires Sane(cfg) && Bare(s) && s.idleHeld && !s.state.Ended?
    ensures var o := TickRow(cfg, s, now);
      o.Some? ==>
        && !o.value.idleHeld
        && (if s.state.NeedsLook? && now - s.stateSince <= cfg.look
            then o.value.state.NeedsLook? && o.value.stateSince == s.stateSince && o.value.lastEvent == now
            else InFamily(o.value.state))
  {
  }

  /** It waits already, or a hold comes out: the first tick shows it or drops it. */
  lemma FirstTickAlarms(cfg: Config, sid: string, s: Row, tr: seq<Timed>)
    requires Sane(cfg) && Bare(s) && OnlyTicks(tr) && tr != [] && !s.state.Ended?
    requires InFamily(s.state) || (s.idleHeld && !s.state.NeedsLook?)
    ensures Alarms(cfg, sid, s, tr) <==> tr[0].now - s.lastEvent <= cfg.ghostAfter
  {
    AlarmsFromFirst(cfg, sid, s, tr);
    GhostAlone(cfg, s, tr[0].now);
    if s.idleHeld { HoldComesOut(cfg, s, tr[0].now); } else { TickMovesPlace(cfg, s, tr[0].now); }
  }

  /** A soft alarm with a hold: the first tick delivers the hold in place, and the timer goes on. */
  lemma HeldLookAlarms(cfg: Config, sid: string, start: Time, s: Row, tr: seq<Timed>)
    requires Sane(cfg) && Bare(s) && OnlyTicks(tr) && Ordered(start, tr) && tr != []
    requires s.idleHeld && s.state.NeedsLook?
    ensures var first := FirstAfter(tr, Due(cfg, s));
      Alarms(cfg, sid, s, tr) <==>
        tr[0].now - s.lastEvent <= cfg.ghostAfter && first.Some? && first.value - tr[0].now <= cfg.ghostAfter
  {
    var now := tr[0].now;
    AlarmsFromFirst(cfg, sid, s, tr);
    GhostAlone(cfg, s, now);
    HoldComesOut(cfg, s, now);
    FirstAfterFromFirst(tr, Due(cfg, s));
    var o := TickRow(cfg, s, now);
    if o.Some? && o.value.state.NeedsLook? {
      OrderedFromFirst(start, tr);
      OneTimerAlarmsExactly(cfg, sid, now, o.value, tr[1..]);
    }
  }

  lemma AlarmsExactly(cfg: Config, sid: string, start: Time, s: Row, tr: seq<Timed>)
    requires Sane(cfg) && Bare(s) && OnlyTicks(tr) && Ordered(start, tr)
    ensures Alarms(cfg, sid, s, tr) <==> Reaches(cfg, s, tr)
  {
    if tr != [] {
      if s.state.Ended? {
        EndedStaysOff(cfg, sid, s, tr);
      } else if OneTimer(s) && !s.idleHeld {
        OneTimerAlarmsExactly(cfg, sid, start, s, tr);
        FirstIsLater(start, tr, Due(cfg, s));
      } else if s.state.NeedsLook? {
        HeldLookAlarms(cfg, sid, start, s, tr);
      } else {
        FirstTickAlarms(cfg, sid, s, tr);
      }
    }
  }

  lemma {:induction false} OrderedFromFirst(start: Time, tr: seq<Timed>)
    requires tr != [] && Ordered(start, tr)
    ensures start <= tr[0].now && Ordered(tr[0].now, tr[1..])
    decreases |tr|
  {
    if |tr| > 1 {
      OrderedFromFirst(start, Front(tr));
      assert Front(tr[1..]) == Front(tr)[1..];
      assert |tr| > 2 ==> Last(Front(tr)) == Last(Front(tr[1..]));
    } else {
      assert Front(tr) == [];
    }
  }

  lemma FirstIsLater(start: Time, tr: seq<Timed>, deadline: Option<Time>)
    requires tr != [] && Ordered(start, tr)
    ensures var first := FirstAfter(tr, deadline); first.Some? ==> tr[0].now <= first.value
  {
    FirstAfterFromFirst(tr, deadline);
    OrderedFromFirst(start, tr);
    DowntimeDecides([], tr[0].now, tr[1..], deadline);
  }

  /** What ticks often enough, and for long enough, always bring onto the ladder. */
  predicate Wakeful(s: Row) {
    Surfaced(s.state) || s.state.Idle? || (s.idleHeld && !s.state.Ended?)
  }

  lemma {:induction false} FirstAfterSoon(start: Time, tr: seq<Timed>, gap: Time, deadline: Time)
    requires OnlyTicks(tr) && Ticking(start, tr, gap)
    ensures var first := FirstAfter(tr, Some(deadline));
      first.Some? ==> first.value == tr[0].now || first.value <= deadline + gap
    decreases |tr|
  {
    if |tr| > 1 {
      FirstAfterSoon(start, Front(tr), gap, deadline);
      assert tr[|tr| - 2].input.Tick? && Last(Front(tr)) == tr[|tr| - 2];
      assert FirstAfter(Front(tr), Some(deadline)).None? ==> Last(Front(tr)).now <= deadline;
    } else if |tr| == 1 {
      assert Front(tr) == [];
    }
  }

  lemma AlarmsInTime(cfg: Config, sid: string, start: Time, s: Row, tr: seq<Timed>, gap: Time)
    requires Sane(cfg) && Patient(cfg, gap) && Bare(s) && Inv(cfg, start, s)
    requires OnlyTicks(tr) && Ordered(start, tr) && Ticking(start, tr, gap)
    requires Clock(start, tr) > start + cfg.idlePrompt + cfg.look
    ensures Alarms(cfg, sid, s, tr) <==> tr[0].now - s.lastEvent <= cfg.ghostAfter && Wakeful(s)
  {
    AlarmsExactly(cfg, sid, start, s, tr);
    OrderedFromFirst(start, tr);
    var due := Due(cfg, s);
    if Rises(s) {
      assert Overdue(due, Last(tr).now) && FirstAfter(tr, due).Some?;
      FirstAfterSoon(start, tr, gap, due.value);
    }
  }
}
