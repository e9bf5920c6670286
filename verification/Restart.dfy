/** What a restart of the daemon keeps, and exactly when it can be seen. */
module Restart {
  import opened Basics
  import opened Machine
  import opened Invariants
  import opened Ticks
  import opened Product
  import opened Persist
  import opened Attention
  import opened Downtime
  import opened Liveness
  import Store

  /** What a restart forgets: the background counts and the flag that depends on them. */
  function Forgetful(s: Row): Row {
    s.(bgTasks := 0, bgOther := 0, bgSeen := 0.0, turnOver := false)
  }

  lemma SavedRestores(s: Row)
    ensures RestoreRow(SavedOf(s), s.sid, s.state) == Forgetful(s)
    ensures ParseState(SavedOf(s).state) == Some(s.state)
  {
    ParseStateName(s.state);
  }

  /** `rows` are the sessions of `m`, each once, in some order. */
  ghost predicate Lists(rows: seq<Row>, m: Sessions) {
    && (forall i :: 0 <= i < |rows| ==> rows[i].sid in m && m[rows[i].sid] == rows[i])
    && (forall i, j :: 0 <= i < j < |rows| ==> rows[i].sid != rows[j].sid)
    && (forall k :: k in m ==> exists i :: 0 <= i < |rows| && rows[i].sid == k)
  }

  /** What of one session comes back at time `now`. */
  function Survivor(cfg: Config, o: Option<Row>, now: Time): Option<Row> {
    if o.Some? && !o.value.state.Ended? && TickRow(cfg, o.value, now).Some? then Some(Forgetful(o.value)) else None
  }

  /** What of a whole store comes back at time `now`. */
  function Survivors(cfg: Config, m: Sessions, now: Time): Sessions {
    map k | k in m && Survivor(cfg, Some(m[k]), now).Some? :: Forgetful(m[k])
  }

  /** The machine restarted after the save, and no session survives that. */
  predicate RebootedSince(savedAt: Time, bootedAt: Option<Time>) {
    bootedAt.Some? && savedAt < bootedAt.value
  }

  ghost predicate DistinctIds(rows: seq<Row>) {
    && (forall i :: 0 <= i < |rows| ==> rows[i].sid != "")
    && (forall i, j :: 0 <= i < j < |rows| ==> rows[i].sid != rows[j].sid)
  }

  /** Position of `sid` among the rows. */
  ghost function Find(rows: seq<Row>, sid: string): Option<Row>
    decreases |rows|
  {
    if rows == [] then None
    else if Last(rows).sid == sid then Some(Last(rows))
    else Find(Front(rows), sid)
  }

  lemma {:induction false} FindFinds(rows: seq<Row>, sid: string)
    ensures Find(rows, sid).Some? <==> exists i :: 0 <= i < |rows| && rows[i].sid == sid
    ensures Find(rows, sid).Some? ==> Find(rows, sid).value in rows && Find(rows, sid).value.sid == sid
    decreases |rows|
  {
    if rows != [] {
      FindFinds(Front(rows), sid);
      assert rows == Front(rows) + [Last(rows)];
      if i :| 0 <= i < |rows| && rows[i].sid == sid && Last(rows).sid != sid {
        assert Front(rows)[i].sid == sid;
      }
    }
  }

  lemma LoadSavedRow(cfg: Config, m: Sessions, r: Row, now: Time, sid: string)
    requires !r.state.Ended? && r.sid != "" && r.sid !in m
    ensures Lookup(Extended(m, SavedOf(r), now, cfg.ghostAfter), sid)
         == if sid == r.sid then Survivor(cfg, Some(r), now) else Lookup(m, sid)
  {
    SavedRestores(r);
    GhostAlone(cfg, r, now);
  }

  lemma FrontDistinct(rows: seq<Row>)
    requires DistinctIds(rows) && rows != []
    ensures DistinctIds(Front(rows)) && rows == Front(rows) + [Last(rows)] && Last(rows).sid != ""
    ensures forall i :: 0 <= i < |rows| - 1 ==> Front(rows)[i].sid != Last(rows).sid
  {
    assert forall i :: 0 <= i < |rows| - 1 ==> Front(rows)[i] == rows[i];
  }

  lemma LoadLastSaved(rows: seq<Row>, now: Time, maxAge: Time)
    requires rows != []
    ensures var m := LoadRows(map[], SaveRows(Front(rows)), now, maxAge);
      LoadRows(map[], SaveRows(rows), now, maxAge)
      == if Last(rows).state.Ended? then m else Extended(m, SavedOf(Last(rows)), now, maxAge)
  {
    var saved := SaveRows(rows);
    if Last(rows).state.Ended? {
      assert saved == SaveRows(Front(rows));
    } else {
      assert Front(saved) == SaveRows(Front(rows)) && Last(saved) == SavedOf(Last(rows));
    }
  }

  lemma {:induction false} LoadSavedRows(cfg: Config, rows: seq<Row>, now: Time, sid: string)
    requires DistinctIds(rows)
    ensures Lookup(LoadRows(map[], SaveRows(rows), now, cfg.ghostAfter), sid) == Survivor(cfg, Find(rows, sid), now)
    decreases |rows|
  {
    if rows != [] {
      var r, front := Last(rows), Front(rows);
      FrontDistinct(rows);
      LoadLastSaved(rows, now, cfg.ghostAfter);
      LoadSavedRows(cfg, front, now, sid);
      FindFinds(front, r.sid);
      if !r.state.Ended? {
        LoadSavedRows(cfg, front, now, r.sid);
        LoadSavedRow(cfg, LoadRows(map[], SaveRows(front), now, cfg.ghostAfter), r, now, sid);
      }
    }
  }

  lemma FindIsLookup(rows: seq<Row>, m: Sessions, k: string)
    requires Lists(rows, m)
    ensures Find(rows, k) == Lookup(m, k)
  {
    FindFinds(rows, k);
    if k in m {
      var i :| 0 <= i < |rows| && rows[i].sid == k;
      assert Find(rows, k).Some?;
    }
  }

  lemma SurvivorsLookup(cfg: Config, m: Sessions, now: Time, k: string)
    ensures Lookup(Survivors(cfg, m, now), k) == Survivor(cfg, Lookup(m, k), now)
  {
  }

  lemma LoadedAreSurvivors(cfg: Config, m: Sessions, rows: seq<Row>, now: Time)
    requires Filed(m) && Lists(rows, m)
    ensures LoadRows(map[], SaveRows(rows), now, cfg.ghostAfter) == Survivors(cfg, m, now)
  {
    var loaded, expected := LoadRows(map[], SaveRows(rows), now, cfg.ghostAfter), Survivors(cfg, m, now);
    assert DistinctIds(rows);
    forall k ensures Lookup(loaded, k) == Lookup(expected, k) {
      LoadSavedRows(cfg, rows, now, k);
      FindIsLookup(rows, m, k);
      SurvivorsLookup(cfg, m, now, k);
    }
    SameLookups(loaded, expected);
  }

  /** The store of a daemon that loads at `now` the sessions another saved at `savedAt`. */
  function Reloaded(cfg: Config, rows: seq<Row>, savedAt: Time, now: Time, bootedAt: Option<Time>): Sessions {
    LoadFile(map[], File(Some(FORMAT_V), Some(savedAt), SaveRows(rows)), now, cfg.ghostAfter, bootedAt)
  }

  /** What should be in it. */
  function ComesBack(cfg: Config, m: Sessions, savedAt: Time, now: Time, bootedAt: Option<Time>): Sessions {
    if RebootedSince(savedAt, bootedAt) then map[] else Survivors(cfg, m, now)
  }

  /**
   Saving a store and loading the file into an empty one restores exactly the sessions that
   have not ended and that a tick at the time of the load would keep, each with everything
   but its background bookkeeping: the restore cutoff is the tick's own. A reboot in between
   leaves nothing.
   */
  lemma RoundTrip(cfg: Config, m: Sessions, rows: seq<Row>, savedAt: Time, now: Time, bootedAt: Option<Time>)
    requires Filed(m) && Lists(rows, m)
    ensures Reloaded(cfg, rows, savedAt, now, bootedAt) == ComesBack(cfg, m, savedAt, now, bootedAt)
  {
    LoadedAreSurvivors(cfg, m, rows, now);
  }

  /** Loading never touches a session the store already knows. */
  lemma {:induction false} LoadNeverOverwrites(m: Sessions, rows: seq<SavedRow>, now: Time, maxAge: Time)
    ensures forall k :: k in m ==> Lookup(LoadRows(m, rows, now, maxAge), k) == Some(m[k])
    decreases |rows|
  {
    if rows != [] { LoadNeverOverwrites(m, Front(rows), now, maxAge); }
  }

  lemma ForgettingKeepsInv(cfg: Config, now: Time, s: Row)
    requires Inv(cfg, now, s) && 0.0 <= now
    ensures Inv(cfg, now, Forgetful(s))
  {
  }

  // ---- with the restart and without ----

  lemma LaterInv(cfg: Config, start: Time, s: Row, load: Time)
    requires Inv(cfg, start, s) && 0.0 <= start <= load
    ensures Inv(cfg, load, Forgetful(s))
  {
  }

  /** At the same instant, after any ticks of the one daemon from `start` on and any ticks of the
      other from `load` on, a session in the family is on the same rung with the same age. */
  lemma LadderSimulates(cfg: Config, sid: string, start: Time, s: Row, load: Time, tr: seq<Timed>, us: seq<Timed>)
    requires Sane(cfg) && Inv(cfg, start, s) && 0.0 <= start <= load && InFamily(s.state)
    requires OnlyTicks(tr) && Ordered(start, tr) && OnlyTicks(us) && Ordered(load, us)
    requires tr != [] && us != [] && Last(tr).now == Last(us).now
    ensures var x, y := Run(cfg, sid, Some(s), tr), Run(cfg, sid, Some(Forgetful(s)), us);
      && (x.Some? && y.Some? ==> Place(x.value) == Place(y.value))
      && (!s.idleHeld ==> (x.Some? <==> y.Some?))
  {
    LadderOverTicks(cfg, sid, start, s, tr);
    LaterInv(cfg, start, s, load);
    LadderOverTicks(cfg, sid, load, Forgetful(s), us);
  }

  lemma OneTick(cfg: Config, m: Sessions, tick: Time, sid: string)
    ensures Lookup(RunAll(cfg, m, [At(Tick, tick)]), sid) == TickOpt(cfg, Lookup(m, sid), tick)
  {
    StoreIsProduct(cfg, m, [At(Tick, tick)], sid);
    assert Front([At(Tick, tick)]) == [];
  }

  /** What the loaded store shows of one session after its ticks. */
  lemma RestartedRun(
    cfg: Config, m: Sessions, rows: seq<Row>, savedAt: Time, now: Time, bootedAt: Option<Time>,
    us: seq<Timed>, sid: string)
    requires Filed(m) && Lists(rows, m) && !RebootedSince(savedAt, bootedAt)
    requires sid in m && !m[sid].state.Ended? && OnlyTicks(us)
    ensures var loaded := Reloaded(cfg, rows, savedAt, now, bootedAt);
      Lookup(RunAll(cfg, loaded, us), sid)
      == if now - m[sid].lastEvent <= cfg.ghostAfter then Run(cfg, sid, Some(Forgetful(m[sid])), us) else None
  {
    var loaded := Reloaded(cfg, rows, savedAt, now, bootedAt);
    RoundTrip(cfg, m, rows, savedAt, now, bootedAt);
    StoreIsProduct(cfg, loaded, us, sid);
    GhostAlone(cfg, m[sid], now);
    AbsentStaysAbsent(cfg, sid, us);
  }

  lemma RestartedTick(
    cfg: Config, m: Sessions, rows: seq<Row>, savedAt: Time, now: Time, bootedAt: Option<Time>, tick: Time, sid: string)
    requires Filed(m) && Lists(rows, m) && !RebootedSince(savedAt, bootedAt)
    requires sid in m && !m[sid].state.Ended? && now <= tick
    ensures var loaded := Reloaded(cfg, rows, savedAt, now, bootedAt);
      Lookup(RunAll(cfg, loaded, [At(Tick, tick)]), sid) == TickRow(cfg, Forgetful(m[sid]), tick)
  {
    RestartedRun(cfg, m, rows, savedAt, now, bootedAt, [At(Tick, tick)], sid);
    assert Front([At(Tick, tick)]) == [];
    GhostAlone(cfg, Forgetful(m[sid]), tick);
  }

  lemma ForgottenHoldAlarms(cfg: Config, s: Row, now: Time)
    requires Sane(cfg) && s.idleHeld && !Surfaced(s.state) && !s.state.Ended?
    ensures var o := TickRow(cfg, Forgetful(s), now);
      o.Some? ==> o.value.state == NeedsInput && o.value.stateSince == now && !o.value.idleHeld
  {
  }

  /** A notification held when the daemon stopped is delivered, loudly, by the first tick of the
      daemon that loads the file, whatever was running in the background before. */
  lemma HeldComesBackRed(
    cfg: Config, m: Sessions, rows: seq<Row>, savedAt: Time, now: Time, bootedAt: Option<Time>, tick: Time, sid: string)
    requires Sane(cfg) && Filed(m) && Lists(rows, m) && !RebootedSince(savedAt, bootedAt)
    requires sid in m && m[sid].idleHeld && !Surfaced(m[sid].state) && !m[sid].state.Ended?
    requires now <= tick
    ensures var loaded := Reloaded(cfg, rows, savedAt, now, bootedAt);
      var o := Lookup(RunAll(cfg, loaded, [At(Tick, tick)]), sid);
      && (o.Some? <==> tick - m[sid].lastEvent <= cfg.ghostAfter)
      && (o.Some? ==> o.value.state == NeedsInput && o.value.stateSince == tick && !o.value.idleHeld)
  {
    RestartedTick(cfg, m, rows, savedAt, now, bootedAt, tick, sid);
    GhostAlone(cfg, Forgetful(m[sid]), tick);
    ForgottenHoldAlarms(cfg, m[sid], tick);
  }

  /** When the first tick after the save shows the same with and without a restart. What a restart
      forgets is the untracked work that softens an alarm, the count that holds one
      back, and that a turn was over. */
  predicate Unseen(cfg: Config, s: Row, now: Time) {
    var unheld := s.bgTasks == 0 || now - s.bgSeen > cfg.bgQuiet;
    if Surfaced(s.state) then true
    else if s.idleHeld then s.bgOther == 0 && (unheld || (s.state.Idle? && now - s.stateSince > cfg.idlePrompt))
    else if s.state.Working? then
      !s.turnOver || (now - s.lastEvent <= cfg.staleAfter && (s.bgTasks == 0 || !unheld))
    else if s.state.Idle? then s.bgOther == 0 || now - s.stateSince <= cfg.idlePrompt
    else true
  }

  /** Off the alarm a restart can be seen: the same first tick shows the same state exactly when `Unseen`.
      `RestartTurnsIdleStale` is an input where it does not. */
  lemma RestartSeenExactly(cfg: Config, s: Row, now: Time)
    requires Sane(cfg) && !s.state.Ended? && now - s.lastEvent <= cfg.ghostAfter
    ensures TickRow(cfg, s, now).Some? && TickRow(cfg, Forgetful(s), now).Some?
    ensures TickRow(cfg, s, now).value.state == TickRow(cfg, Forgetful(s), now).value.state <==> Unseen(cfg, s, now)
  {
    ForgottenOpening(cfg, s, now);
    OpeningState(cfg, s, now);
    TimersState(cfg, Opening(cfg, s, now), now);
    TimersState(cfg, Opening(cfg, Forgetful(s), now), now);
  }

  /** The opening of the first tick after a restart delivers whatever was held, loudly. */
  lemma ForgottenOpening(cfg: Config, s: Row, now: Time)
    ensures var b := Opening(cfg, Forgetful(s), now);
      && b.bgOther == 0 && !b.turnOver
      && (Surfaced(s.state) || !s.idleHeld ==>
            b.state == s.state && b.stateSince == s.stateSince && (!s.idleHeld ==> b.lastEvent == s.lastEvent))
      && (!Surfaced(s.state) && s.idleHeld ==> b.state == NeedsInput && b.stateSince == now)
  {
  }

  lemma OpeningState(cfg: Config, s: Row, now: Time)
    ensures var b := Opening(cfg, s, now);
      var unheld := s.bgTasks == 0 || now - s.bgSeen > cfg.bgQuiet;
      var over := s.state.Working? && s.turnOver && s.bgTasks != 0 && unheld;
      && b.bgOther == s.bgOther
      && (Surfaced(s.state) ==> b.state == s.state && b.stateSince == s.stateSince)
      && (!Surfaced(s.state) && s.idleHeld && unheld ==>
            b.state == (if s.bgOther == 0 then NeedsInput else NeedsLook) && b.stateSince == now)
      && (!Surfaced(s.state) && !(s.idleHeld && unheld) ==>
            if over then b.state == Idle && b.stateSince == now
            else b.state == s.state && b.stateSince == s.stateSince && b.lastEvent == s.lastEvent
                 && (b.turnOver <==> s.turnOver && !(s.bgTasks != 0 && unheld)))
  {
  }

  /** The state `Timers` leaves. */
  lemma TimersState(cfg: Config, b: Row, now: Time)
    ensures var t := Timers(cfg, b, now).state;
      t == match b.state
           case Working => if now - b.lastEvent > cfg.staleAfter then (if b.turnOver then Idle else Stale) else Working
           case Idle =>
             if now - b.stateSince <= cfg.idlePrompt then Idle else if b.bgOther == 0 then NeedsInput else NeedsLook
           case Starting => if now - b.lastEvent > cfg.idleStale then Stale else Starting
           case _ => if Surfaced(b.state) then NextPlace(cfg, b.state, b.stateSince, now).0 else b.state
  {
  }

  /**
   The restart theorem over the store. One daemon saves at `savedAt` and runs on, ticking as it
   likes; another loads the file at `now` and ticks as it likes; both tick at the same last instant.
   A session in the family shows the same rung with the same age, and with nothing held it is in
   both stores or in neither.
   */
  lemma RestartInvisible(
    cfg: Config, m: Sessions, rows: seq<Row>, savedAt: Time, now: Time, bootedAt: Option<Time>,
    tr: seq<Timed>, us: seq<Timed>, sid: string)
    requires Sane(cfg) && Filed(m) && Lists(rows, m) && !RebootedSince(savedAt, bootedAt)
    requires sid in m && InFamily(m[sid].state) && Inv(cfg, savedAt, m[sid]) && 0.0 <= savedAt <= now
    requires OnlyTicks(tr) && Ordered(savedAt, tr) && OnlyTicks(us) && Ordered(now, us)
    requires tr != [] && us != [] && Last(tr).now == Last(us).now
    ensures var loaded := Reloaded(cfg, rows, savedAt, now, bootedAt);
      var x, y := Lookup(RunAll(cfg, m, tr), sid), Lookup(RunAll(cfg, loaded, us), sid);
      && (x.Some? && y.Some? ==> Place(x.value) == Place(y.value))
      && (!m[sid].idleHeld ==> (x.Some? <==> y.Some?))
  {
    StoreIsProduct(cfg, m, tr, sid);
    RestartedRun(cfg, m, rows, savedAt, now, bootedAt, us, sid);
    LadderSimulates(cfg, sid, savedAt, m[sid], now, tr, us);
    if now - m[sid].lastEvent > cfg.ghostAfter {
      ClockAdvances(now, us);
      LadderOverTicks(cfg, sid, savedAt, m[sid], tr);
    }
  }

  lemma ForgettingKeepsTimer(cfg: Config, s: Row)
    requires OneTimer(s)
    ensures OneTimer(Forgetful(s)) && Due(cfg, Forgetful(s)) == Due(cfg, s)
    ensures forall first, now :: PlaceAfter(cfg, Forgetful(s), first, now) == PlaceAfter(cfg, s, first, now)
    ensures forall first, now :: Lives(cfg, Forgetful(s), first, now) == Lives(cfg, s, first, now)
  {
  }

  /** Off the ladder, for a session with one timer, each store shows what its own ticks decide. */
  lemma RestartedPlaces(
    cfg: Config, m: Sessions, rows: seq<Row>, savedAt: Time, now: Time, bootedAt: Option<Time>,
    tr: seq<Timed>, us: seq<Timed>, sid: string)
    requires Sane(cfg) && Filed(m) && Lists(rows, m) && !RebootedSince(savedAt, bootedAt)
    requires sid in m && OneTimer(m[sid])
    requires OnlyTicks(tr) && Ordered(savedAt, tr) && OnlyTicks(us) && Ordered(now, us)
    ensures var loaded := Reloaded(cfg, rows, savedAt, now, bootedAt);
      var x, y := Lookup(RunAll(cfg, m, tr), sid), Lookup(RunAll(cfg, loaded, us), sid);
      var due := Due(cfg, m[sid]);
      && (x.Some? ==> Place(x.value) == PlaceAfter(cfg, m[sid], FirstAfter(tr, due), Clock(savedAt, tr)))
      && (y.Some? ==> Place(y.value) == PlaceAfter(cfg, m[sid], FirstAfter(us, due), Clock(now, us)))
  {
    StoreIsProduct(cfg, m, tr, sid);
    RestartedRun(cfg, m, rows, savedAt, now, bootedAt, us, sid);
    ForgettingKeepsTimer(cfg, m[sid]);
    OneTimerOverTicks(cfg, sid, savedAt, m[sid], tr);
    OneTimerOverTicks(cfg, sid, now, Forgetful(m[sid]), us);
  }

  /** For such a session the downtime decides. One daemon ticks `down` while the other is down, and
      both tick `us` from the load on: it is in the same state with the same age in both exactly
      when no tick of the downtime found its timer overdue. */
  lemma RestartAgesExactly(
    cfg: Config, m: Sessions, rows: seq<Row>, savedAt: Time, now: Time, bootedAt: Option<Time>,
    down: seq<Timed>, us: seq<Timed>, sid: string)
    requires Sane(cfg) && Filed(m) && Lists(rows, m) && !RebootedSince(savedAt, bootedAt)
    requires sid in m && OneTimer(m[sid])
    requires OnlyTicks(down + us) && Ordered(savedAt, down + us) && OnlyTicks(us) && Ordered(now, us) && us != []
    requires forall i :: 0 <= i < |down| ==> down[i].now < now
    ensures var loaded := Reloaded(cfg, rows, savedAt, now, bootedAt);
      var x, y := Lookup(RunAll(cfg, m, down + us), sid), Lookup(RunAll(cfg, loaded, us), sid);
      x.Some? && y.Some? ==>
        (Place(x.value) == Place(y.value) <==> forall i :: 0 <= i < |down| ==> !Overdue(Due(cfg, m[sid]), down[i].now))
  {
    var due := Due(cfg, m[sid]);
    RestartedPlaces(cfg, m, rows, savedAt, now, bootedAt, down + us, us, sid);
    DowntimeDecides(down, now, us, due);
    PlacesAgree(cfg, m[sid], FirstAfter(down + us, due), FirstAfter(us, due), Last(us).now);
    assert Last(down + us) == Last(us);
  }

  /** And with nothing held each store keeps it exactly as long as the ghost cutoff lets it, counted
      from its last event or from the tick that moved it: the same where no tick of the downtime
      found it overdue. */
  lemma RestartKeepsExactly(
    cfg: Config, m: Sessions, rows: seq<Row>, savedAt: Time, now: Time, bootedAt: Option<Time>,
    down: seq<Timed>, us: seq<Timed>, sid: string)
    requires Sane(cfg) && Filed(m) && Lists(rows, m) && !RebootedSince(savedAt, bootedAt)
    requires sid in m && OneTimer(m[sid]) && !m[sid].idleHeld
    requires OnlyTicks(down + us) && Ordered(savedAt, down + us) && OnlyTicks(us) && Ordered(now, us) && us != []
    requires forall i :: 0 <= i < |down| ==> down[i].now < now
    ensures var loaded := Reloaded(cfg, rows, savedAt, now, bootedAt);
      var x, y := Lookup(RunAll(cfg, m, down + us), sid), Lookup(RunAll(cfg, loaded, us), sid);
      var due := Due(cfg, m[sid]);
      && (x.Some? <==> Lives(cfg, m[sid], FirstAfter(down + us, due), Last(us).now))
      && (y.Some? <==> Lives(cfg, m[sid], FirstAfter(us, due), Last(us).now))
      && ((forall i :: 0 <= i < |down| ==> !Overdue(due, down[i].now)) ==> (x.Some? <==> y.Some?))
  {
    var s, due := m[sid], Due(cfg, m[sid]);
    assert Last(down + us) == Last(us);
    StoreIsProduct(cfg, m, down + us, sid);
    RestartedRun(cfg, m, rows, savedAt, now, bootedAt, us, sid);
    ForgettingKeepsTimer(cfg, s);
    DowntimeDecides(down, now, us, due);
    OneTimerDropped(cfg, sid, savedAt, s, down + us);
    OneTimerDropped(cfg, sid, now, Forgetful(s), us);
    ClockAdvances(now, us);
  }

  /** A soft alarm that the downtime outlasted: the daemon that stayed up put it on the ladder at 11,
      the one started at 20 puts it there at 21, so the ages differ. */
  lemma DowntimeIsSeen(cfg: Config, sid: string, s: Row)
    requires Sane(cfg) && cfg.look == 10.0 && cfg.ghostAfter >= 100.0
    requires s.state.NeedsLook? && s.stateSince == s.lastEvent == 0.0 && !s.idleHeld
    ensures var x := Run(cfg, sid, Some(s), [At(Tick, 11.0), At(Tick, 21.0)]);
      var y := Run(cfg, sid, Some(Forgetful(s)), [At(Tick, 21.0)]);
      x.Some? && y.Some? && x.value.stateSince == 11.0 && y.value.stateSince == 21.0
  {
    var tr, us := [At(Tick, 11.0), At(Tick, 21.0)], [At(Tick, 21.0)];
    assert Front(tr) == [At(Tick, 11.0)] && Front(Front(tr)) == [] && Front(us) == [];
    TickMovesPlace(cfg, s, 11.0);
    assert Run(cfg, sid, Some(s), Front(tr)) == TickRow(cfg, s, 11.0);
    var a := TickRow(cfg, s, 11.0).value;
    TickMovesPlace(cfg, a, 21.0);
    TickMovesPlace(cfg, Forgetful(s), 21.0);
  }

  /** A turn that ended on a subagent and then went quiet: without a restart its count runs out and
      the row goes IDLE, with one it goes STALE. */
  lemma RestartTurnsIdleStale(cfg: Config, at: Time, tick: Time)
    requires Sane(cfg) && 0.0 <= at && at + cfg.bgQuiet < tick && at + cfg.staleAfter < tick <= at + cfg.ghostAfter
    ensures
      var stop := Event("s", "", "", "", Stop(Tasks([Task(Text("a1"), Text("subagent"), Missing)])));
      var m := RunAll(cfg, map[], [At(Hooked(stop, None), at)]);
      && m.Keys == {"s"}
      && var loaded := Reloaded(cfg, [m["s"]], at, at, None);
         var x, y := Lookup(RunAll(cfg, m, [At(Tick, tick)]), "s"), Lookup(RunAll(cfg, loaded, [At(Tick, tick)]), "s");
         x.Some? && x.value.state == Idle && y.Some? && y.value.state == Stale
  {
    var stop := Event("s", "", "", "", Stop(Tasks([Task(Text("a1"), Text("subagent"), Missing)])));
    var s := Receive(cfg, None, stop, None, at);
    StoppedOnOne(cfg, stop, at);
    assert RunAll(cfg, map[], [At(Hooked(stop, None), at)]) == map["s" := s] by { OneStop(cfg, stop, at); }
    QuietRestart(cfg, s, at, tick);
  }

  /** The loaded store shows the session on the ladder after some tick. */
  ghost predicate Alarmed(cfg: Config, loaded: Sessions, us: seq<Timed>, sid: string) {
    exists k: nat :: 0 < k <= |us| && Waits(Lookup(RunAll(cfg, loaded, us[..k]), sid))
  }

  /** What still alarms after a restart, over every run of ticks. */
  lemma RestartAlarmsExactly(
    cfg: Config, m: Sessions, rows: seq<Row>, savedAt: Time, now: Time, bootedAt: Option<Time>,
    us: seq<Timed>, sid: string)
    requires Sane(cfg) && Filed(m) && Lists(rows, m) && !RebootedSince(savedAt, bootedAt)
    requires sid in m && OnlyTicks(us) && Ordered(now, us)
    ensures var loaded := Reloaded(cfg, rows, savedAt, now, bootedAt);
      Alarmed(cfg, loaded, us, sid) <==> Reaches(cfg, Forgetful(m[sid]), us)
  {
    var loaded := Reloaded(cfg, rows, savedAt, now, bootedAt);
    var s := Forgetful(m[sid]);
    var kept := !s.state.Ended? && now - s.lastEvent <= cfg.ghostAfter;
    forall k: nat | k <= |us|
      ensures Lookup(RunAll(cfg, loaded, us[..k]), sid) == if kept then Run(cfg, sid, Some(s), us[..k]) else None
    {
      LoadedRun(cfg, m, rows, savedAt, now, bootedAt, us[..k], sid);
    }
    if us != [] { OrderedFromFirst(now, us); }
    AlarmsExactly(cfg, sid, now, s, us);
  }

  lemma LoadedRun(
    cfg: Config, m: Sessions, rows: seq<Row>, savedAt: Time, now: Time, bootedAt: Option<Time>,
    us: seq<Timed>, sid: string)
    requires Filed(m) && Lists(rows, m) && !RebootedSince(savedAt, bootedAt) && sid in m && OnlyTicks(us)
    ensures var loaded := Reloaded(cfg, rows, savedAt, now, bootedAt);
      Lookup(RunAll(cfg, loaded, us), sid)
      == if !m[sid].state.Ended? && now - m[sid].lastEvent <= cfg.ghostAfter
         then Run(cfg, sid, Some(Forgetful(m[sid])), us) else None
  {
    if m[sid].state.Ended? {
      var loaded := Reloaded(cfg, rows, savedAt, now, bootedAt);
      RoundTrip(cfg, m, rows, savedAt, now, bootedAt);
      StoreIsProduct(cfg, loaded, us, sid);
      AbsentStaysAbsent(cfg, sid, us);
    } else {
      RestartedRun(cfg, m, rows, savedAt, now, bootedAt, us, sid);
    }
  }

  /** With ticks at most `gap` apart, watched long enough, that is a condition on the saved session
      alone, once the first tick finds it within the ghost cutoff: it is on the alarm, IDLE, or holds
      a notification. A turn that is WORKING with nothing held never alarms after a restart. */
  lemma RestartAlarmsInTime(
    cfg: Config, m: Sessions, rows: seq<Row>, savedAt: Time, now: Time, bootedAt: Option<Time>,
    us: seq<Timed>, gap: Time, sid: string)
    requires Sane(cfg) && Patient(cfg, gap) && Filed(m) && Lists(rows, m) && !RebootedSince(savedAt, bootedAt)
    requires sid in m && Inv(cfg, savedAt, m[sid]) && 0.0 <= savedAt <= now
    requires OnlyTicks(us) && Ordered(now, us) && Ticking(now, us, gap)
    requires Clock(now, us) > now + cfg.idlePrompt + cfg.look
    ensures var loaded := Reloaded(cfg, rows, savedAt, now, bootedAt);
      Alarmed(cfg, loaded, us, sid) <==> us[0].now - m[sid].lastEvent <= cfg.ghostAfter && Wakeful(m[sid])
  {
    RestartAlarmsExactly(cfg, m, rows, savedAt, now, bootedAt, us, sid);
    LaterInv(cfg, savedAt, m[sid], now);
    AlarmsExactly(cfg, sid, now, Forgetful(m[sid]), us);
    AlarmsInTime(cfg, sid, now, Forgetful(m[sid]), us, gap);
  }

  lemma WorkingIsSilenced(cfg: Config, s: Row, savedAt: Time, now: Time, us: seq<Timed>)
    requires Sane(cfg) && s.sid != "" && s.state.Working? && !s.idleHeld && OnlyTicks(us) && Ordered(now, us)
    ensures var loaded := Reloaded(cfg, [s], savedAt, now, None);
      !Alarmed(cfg, loaded, us, s.sid)
  {
    OneRow(s);
    RestartAlarmsExactly(cfg, map[s.sid := s], [s], savedAt, now, None, us, s.sid);
  }

  /** So a restart can silence a turn for good. From an empty store, a Stop lists one subagent, and
      then nothing but ticks: the daemon that stays up is on the ladder by the deadline of
      `NeverSilenced`, and the one restarted right after the Stop never is. */
  lemma RestartSilencesTurn(cfg: Config, at: Time, us: seq<Timed>, gap: Time)
    requires Sane(cfg) && Patient(cfg, gap) && 0.0 <= at
    requires OnlyTicks(us) && Ordered(at, us) && Ticking(at, us, gap)
    requires Clock(at, us) > Deadline(cfg, at, cfg.bgQuiet + gap, gap)
    ensures
      var stop := Event("s", "", "", "", Stop(Tasks([Task(Text("a1"), Text("subagent"), Missing)])));
      var m := RunAll(cfg, map[], [At(Hooked(stop, None), at)]);
      && m.Keys == {"s"}
      && AlarmBy(cfg, "s", m["s"], at, us, Deadline(cfg, at, cfg.bgQuiet + gap, gap))
      && var loaded := Reloaded(cfg, [m["s"]], at, at, None);
         !Alarmed(cfg, loaded, us, "s")
  {
    var stop := Event("s", "", "", "", Stop(Tasks([Task(Text("a1"), Text("subagent"), Missing)])));
    var s := Receive(cfg, None, stop, None, at);
    StoppedOnOne(cfg, stop, at);
    assert RunAll(cfg, map[], [At(Hooked(stop, None), at)]) == map["s" := s] by { OneStop(cfg, stop, at); }
    NeverSilenced(cfg, "s", None, stop, None, at, us, gap);
    WorkingIsSilenced(cfg, s, at, at, us);
  }

  lemma QuietRestart(cfg: Config, s: Row, at: Time, tick: Time)
    requires Sane(cfg) && 0.0 <= at && at + cfg.bgQuiet < tick && at + cfg.staleAfter < tick <= at + cfg.ghostAfter
    requires s.sid == "s" && s.state == Working && s.turnOver && s.bgTasks == 1 && !s.idleHeld
    requires s.bgSeen == s.lastEvent == s.stateSince == at
    ensures
      var m := map["s" := s];
      var loaded := Reloaded(cfg, [s], at, at, None);
      var x, y := Lookup(RunAll(cfg, m, [At(Tick, tick)]), "s"), Lookup(RunAll(cfg, loaded, [At(Tick, tick)]), "s");
      x.Some? && x.value.state == Idle && y.Some? && y.value.state == Stale
  {
    var m := map["s" := s];
    OneTick(cfg, m, tick, "s");
    OneRow(s);
    RestartedTick(cfg, m, [s], at, at, None, tick, "s");
    QuietStop(cfg, s, at, tick);
  }

  lemma OneStop(cfg: Config, stop: Event, at: Time)
    requires stop.sid == "s" && stop.hook.Stop?
    ensures RunAll(cfg, map[], [At(Hooked(stop, None), at)]) == map["s" := Receive(cfg, None, stop, None, at)]
  {
    assert Front([At(Hooked(stop, None), at)]) == [];
  }

  lemma OneRow(s: Row)
    ensures s.sid != "" ==> Filed(map[s.sid := s])
    ensures Lists([s], map[s.sid := s])
  {
    assert [s][0].sid == s.sid;
  }

  lemma QuietStop(cfg: Config, s: Row, at: Time, tick: Time)
    requires Sane(cfg) && at + cfg.bgQuiet < tick && at + cfg.staleAfter < tick <= at + cfg.ghostAfter
    requires s.state == Working && s.turnOver && s.bgTasks == 1 && !s.idleHeld
    requires s.bgSeen == s.lastEvent == s.stateSince == at
    ensures var x, y := TickRow(cfg, s, tick), TickRow(cfg, Forgetful(s), tick);
      x.Some? && x.value.state == Idle && y.Some? && y.value.state == Stale
  {
  }

  lemma RowsAreListed(store: Store.SessionStore)
    requires store.Valid()
    ensures Lists(store.Rows(), store.View())
  {
    var rows := store.Rows();
    forall i | 0 <= i < |rows| ensures rows[i].sid == store.order[i] && store.order[i] in store.View() {
      assert store.order[i] in store.order;
    }
    forall k | k in store.View() ensures exists i :: 0 <= i < |rows| && rows[i].sid == k {
      var i :| 0 <= i < |store.order| && store.order[i] == k;
      assert rows[i].sid == k;
    }
  }

  lemma {:induction false} KeptOneMore(keys: seq<string>, k: string, live: set<string>)
    ensures Store.Kept(keys + [k], live) == Store.Kept(keys, live) + if k in live then [k] else []
  {
    if keys == [] {
      assert keys + [k] == [k];
    } else {
      KeptOneMore(keys[1..], k, live);
      assert (keys + [k])[1..] == keys[1..] + [k];
    }
  }

  lemma {:induction false} KeptSame(keys: seq<string>, live: set<string>, other: set<string>)
    requires forall k :: k in keys ==> (k in live <==> k in other)
    ensures Store.Kept(keys, live) == Store.Kept(keys, other)
  {
    if keys != [] {
      assert keys[0] in keys && forall k :: k in keys[1..] ==> k in keys;
      KeptSame(keys[1..], live, other);
    }
  }

  ghost function Ids(rows: seq<Row>): seq<string> {
    seq(|rows|, i requires 0 <= i < |rows| => rows[i].sid)
  }

  lemma AddedLast(cfg: Config, rows: seq<Row>, now: Time)
    requires rows != [] && Last(rows).sid != ""
    ensures var r, before := Last(rows), LoadRows(map[], SaveRows(Front(rows)), now, cfg.ghostAfter);
      Added(map[], SaveRows(rows), now, cfg.ghostAfter)
      == Added(map[], SaveRows(Front(rows)), now, cfg.ghostAfter)
         + if r.sid !in before && Survivor(cfg, Some(r), now).Some? then [r.sid] else []
  {
    var r, saved := Last(rows), SaveRows(rows);
    if r.state.Ended? {
      assert saved == SaveRows(Front(rows));
    } else {
      assert Front(saved) == SaveRows(Front(rows)) && Last(saved) == SavedOf(r);
      SavedRestores(r);
      GhostAlone(cfg, r, now);
    }
  }

  lemma KeptGrows(front: seq<Row>, r: Row, before: set<string>, after: set<string>)
    requires forall i :: 0 <= i < |front| ==> front[i].sid != r.sid
    requires forall k :: k != r.sid ==> (k in before <==> k in after)
    ensures Store.Kept(Ids(front + [r]), after)
         == Store.Kept(Ids(front), before) + if r.sid in after then [r.sid] else []
  {
    assert Ids(front + [r]) == Ids(front) + [r.sid];
    KeptOneMore(Ids(front), r.sid, after);
    KeptSame(Ids(front), before, after);
  }

  lemma LoadedMembers(cfg: Config, rows: seq<Row>, now: Time, k: string)
    requires DistinctIds(rows) && rows != []
    ensures var before, after := LoadRows(map[], SaveRows(Front(rows)), now, cfg.ghostAfter),
                                 LoadRows(map[], SaveRows(rows), now, cfg.ghostAfter);
      && Last(rows).sid !in before
      && (Last(rows).sid in after <==> Survivor(cfg, Some(Last(rows)), now).Some?)
      && (k != Last(rows).sid ==> (k in before <==> k in after))
  {
    var r, front := Last(rows), Front(rows);
    FrontDistinct(rows);
    LoadSavedRows(cfg, front, now, k);
    LoadSavedRows(cfg, front, now, r.sid);
    LoadSavedRows(cfg, rows, now, k);
    LoadSavedRows(cfg, rows, now, r.sid);
    FindFinds(front, r.sid);
  }

  /** The sessions that come back come back in the order they had. */
  lemma {:induction false} AddedInOrder(cfg: Config, rows: seq<Row>, now: Time)
    requires DistinctIds(rows)
    ensures Added(map[], SaveRows(rows), now, cfg.ghostAfter)
         == Store.Kept(Ids(rows), LoadRows(map[], SaveRows(rows), now, cfg.ghostAfter).Keys)
    decreases |rows|
  {
    if rows != [] {
      var before, after := LoadRows(map[], SaveRows(Front(rows)), now, cfg.ghostAfter),
                           LoadRows(map[], SaveRows(rows), now, cfg.ghostAfter);
      FrontDistinct(rows);
      AddedInOrder(cfg, Front(rows), now);
      AddedLast(cfg, rows, now);
      forall k ensures k != Last(rows).sid ==> (k in before.Keys <==> k in after.Keys) {
        LoadedMembers(cfg, rows, now, k);
      }
      LoadedMembers(cfg, rows, now, "");
      KeptGrows(Front(rows), Last(rows), before.Keys, after.Keys);
    }
  }

  lemma SurvivorsInOrder(cfg: Config, m: Sessions, rows: seq<Row>, now: Time)
    requires Filed(m) && Lists(rows, m)
    ensures Added(map[], SaveRows(rows), now, cfg.ghostAfter) == Store.Kept(Ids(rows), Survivors(cfg, m, now).Keys)
  {
    assert DistinctIds(rows);
    AddedInOrder(cfg, rows, now);
    LoadedAreSurvivors(cfg, m, rows, now);
  }

  /** A new daemon starts from a file. */
  method Launch(cfg: Config, file: File, now: Time, bootedAt: Option<Time>) returns (store: Store.SessionStore)
    ensures store.Valid() && store.cfg == cfg && fresh(store)
    ensures store.View() == LoadFile(map[], file, now, cfg.ghostAfter, bootedAt)
    ensures store.order == LoadedOrder(cfg, file, now, bootedAt)
  {
    store := new Store.SessionStore(cfg);
    var _ := Load(file, store, now, cfg.ghostAfter, bootedAt);
  }

  /** The ids that a daemon loading this file adds, in order. */
  function LoadedOrder(cfg: Config, file: File, now: Time, bootedAt: Option<Time>): seq<string> {
    if Refused(file, bootedAt) then [] else Added(map[], file.rows, now, cfg.ghostAfter)
  }

  lemma OrderSurvives(cfg: Config, m: Sessions, rows: seq<Row>, savedAt: Time, now: Time, bootedAt: Option<Time>)
    requires Filed(m) && Lists(rows, m)
    ensures LoadedOrder(cfg, File(Some(FORMAT_V), Some(savedAt), SaveRows(rows)), now, bootedAt)
         == Store.Kept(Ids(rows), ComesBack(cfg, m, savedAt, now, bootedAt).Keys)
  {
    if RebootedSince(savedAt, bootedAt) {
      var none: Sessions := map[];
      assert none.Keys == {};
      KeptNone(Ids(rows));
    } else {
      SurvivorsInOrder(cfg, m, rows, now);
    }
  }

  lemma IdsAreTheOrder(store: Store.SessionStore)
    requires store.Valid()
    ensures Ids(store.Rows()) == store.order
  {
  }

  /** What a daemon that loads the file of this store has, and in which order. */
  lemma FileBringsBack(store: Store.SessionStore, savedAt: Time, now: Time, bootedAt: Option<Time>)
    requires store.Valid() && Filed(store.View())
    ensures var file := File(Some(FORMAT_V), Some(savedAt), SaveRows(store.Rows()));
      var expected := ComesBack(store.cfg, store.View(), savedAt, now, bootedAt);
      && LoadFile(map[], file, now, store.cfg.ghostAfter, bootedAt) == expected
      && LoadedOrder(store.cfg, file, now, bootedAt) == Store.Kept(store.order, expected.Keys)
  {
    var m, rows, cfg := store.View(), store.Rows(), store.cfg;
    RowsAreListed(store);
    IdsAreTheOrder(store);
    BringsBack(cfg, m, rows, savedAt, now, bootedAt);
  }

  lemma BringsBack(cfg: Config, m: Sessions, rows: seq<Row>, savedAt: Time, now: Time, bootedAt: Option<Time>)
    requires Filed(m) && Lists(rows, m)
    ensures var file := File(Some(FORMAT_V), Some(savedAt), SaveRows(rows));
      var expected := ComesBack(cfg, m, savedAt, now, bootedAt);
      && LoadFile(map[], file, now, cfg.ghostAfter, bootedAt) == expected
      && LoadedOrder(cfg, file, now, bootedAt) == Store.Kept(Ids(rows), expected.Keys)
  {
    RoundTrip(cfg, m, rows, savedAt, now, bootedAt);
    OrderSurvives(cfg, m, rows, savedAt, now, bootedAt);
  }

  lemma {:induction false} KeptNone(keys: seq<string>)
    ensures Store.Kept(keys, {}) == []
  {
    if keys != [] { KeptNone(keys[1..]); }
  }

  /** The daemon stops and a new one starts: the new store holds exactly the survivors, and none
      of them if the machine restarted in between; and they are in the order they were in. */
  method Relaunch(store: Store.SessionStore, savedAt: Time, now: Time, bootedAt: Option<Time>)
    returns (again: Store.SessionStore)
    requires store.Valid() && Filed(store.View())
    ensures again.Valid() && again.cfg == store.cfg
    ensures again.View() == ComesBack(store.cfg, old(store.View()), savedAt, now, bootedAt)
    ensures again.order == Store.Kept(old(store.order), again.View().Keys)
  {
    ghost var expected := ComesBack(store.cfg, store.View(), savedAt, now, bootedAt);
    ghost var order := Store.Kept(store.order, expected.Keys);
    FileBringsBack(store, savedAt, now, bootedAt);
    var file := Save(store, savedAt);
    again := Launch(store.cfg, file, now, bootedAt);
    assert again.View() == expected && again.order == order;
  }
}
