/** Saving the store and restoring it after the daemon restarts. */
module Persist {
  import opened Basics
  import opened Machine
  import opened Invariants
  import opened Ticks
  import opened Product
  import Store

  const FORMAT_V := 1

  /** One saved session. A member that is null or absent is None. */
  datatype SavedRow = SavedRow(
    sid: Option<string>, cwd: Option<string>, title: Option<string>, state: Option<string>,
    stateSince: Option<Time>, lastEvent: Option<Time>,
    lastTool: Option<string>, model: Option<string>, cost: Option<real>, ctx: Option<int>,
    mode: Option<string>, errorType: Option<string>, attnAgent: Option<string>,
    idleHeld: Option<bool>, idleHeldAgent: Option<string>,
    pid: Option<int>, pidCreated: Option<Time>)

  datatype File =
    | Unreadable  // missing, or not the JSON that `save` writes
    | File(version: Option<int>, savedAt: Option<Time>, rows: seq<SavedRow>)

  // ---- state names ----

  function StateName(st: State): string {
    match st
    case Starting => "start"
    case Working => "work"
    case NeedsInput => "need"
    case NeedsHeld => "held"
    case NeedsLook => "look"
    case Waiting => "wait"
    case Error => "err"
    case Idle => "idle"
    case Stale => "stale"
    case Ended => "end"
  }

  function ParseState(name: Option<string>): Option<State> {
    if name.None? then None
    else if name.value == "start" then Some(Starting)
    else if name.value == "work" then Some(Working)
    else if name.value == "need" then Some(NeedsInput)
    else if name.value == "held" then Some(NeedsHeld)
    else if name.value == "look" then Some(NeedsLook)
    else if name.value == "wait" then Some(Waiting)
    else if name.value == "err" then Some(Error)
    else if name.value == "idle" then Some(Idle)
    else if name.value == "stale" then Some(Stale)
    else if name.value == "end" then Some(Ended)
    else None
  }

  lemma ParseStateName(st: State)
    ensures ParseState(Some(StateName(st))) == Some(st)
  {
  }

  /** The names in the file, which are those on the display. */
  const NAMES: map<State, string> := map[
    Starting := "start", Working := "work", NeedsInput := "need", NeedsHeld := "held", NeedsLook := "look",
    Waiting := "wait", Error := "err", Idle := "idle", Stale := "stale", Ended := "end"]

  lemma NamesAreThese(st: State, name: string)
    ensures st in NAMES && StateName(st) == NAMES[st]
    ensures ParseState(Some(name)) == Some(st) <==> NAMES[st] == name
  {
  }

  // ---- save ----

  function SavedOf(s: Row): SavedRow {
    SavedRow(Some(s.sid), Some(s.about.cwd), Some(s.about.title), Some(StateName(s.state)),
             Some(s.stateSince), Some(s.lastEvent),
             Some(s.about.lastTool), Some(s.about.model), s.about.cost, s.about.ctx,
             Some(s.about.mode), Some(s.about.errorType), Some(s.attnAgent),
             Some(s.idleHeld), Some(s.idleHeldAgent), Some(s.pid), Some(s.pidCreated))
  }

  /** The rows written for these sessions, in order. */
  function SaveRows(rows: seq<Row>): seq<SavedRow>
    decreases |rows|
  {
    if rows == [] then []
    else SaveRows(Front(rows)) + if Last(rows).state.Ended? then [] else [SavedOf(Last(rows))]
  }

  /** Each session that has not ended adds one row, after those of the sessions before it. */
  lemma SavesInOrder(before: seq<Row>, r: Row)
    ensures SaveRows([]) == []
    ensures SaveRows(before + [r]) == SaveRows(before) + if r.state == Ended then [] else [SavedOf(r)]
  {
    assert Front(before + [r]) == before;
  }

  method Save(store: Store.SessionStore, now: Time) returns (file: File)
    requires store.Valid()
    ensures file == File(Some(FORMAT_V), Some(now), SaveRows(store.Rows()))
  {
    var sessions := store.Rows();
    var rows: seq<SavedRow> := [];
    for i := 0 to |sessions|
      invariant rows == SaveRows(sessions[..i])
    {
      assert Front(sessions[..i + 1]) == sessions[..i];
      if sessions[i].state != Ended {
        rows := rows + [SavedOf(sessions[i])];
      }
    }
    assert sessions[..|sessions|] == sessions;
    file := File(Some(FORMAT_V), Some(now), rows);
  }

  // ---- load ----

  function RestoreRow(row: SavedRow, sid: string, st: State): Row {
    Row(sid,
        About(row.cwd.GetOr(""), row.title.GetOr(""), row.lastTool.GetOr(""), row.model.GetOr(""),
              row.cost, row.ctx, row.mode.GetOr(""), row.errorType.GetOr("")),
        st, row.stateSince.GetOr(0.0), row.lastEvent.GetOr(0.0), 0, 0,
        row.attnAgent.GetOr(""), 0.0, false,
        row.idleHeld.GetOr(false), row.idleHeldAgent.GetOr(""),
        row.pid.GetOr(0), row.pidCreated.GetOr(0.0))
  }

  /** The session a saved row restores, if it is neither a duplicate, nor too old, nor of an unknown state. */
  function Restored(m: Sessions, row: SavedRow, now: Time, maxAge: Time): Option<Row> {
    var sid := row.sid.GetOr("");
    if sid == "" || sid in m then None
    else if now - row.lastEvent.GetOr(0.0) > maxAge then None
    else
      match ParseState(row.state)
      case None => None
      case Some(st) => Some(RestoreRow(row, sid, st))
  }

  function Extended(m: Sessions, row: SavedRow, now: Time, maxAge: Time): Sessions {
    match Restored(m, row, now, maxAge)
    case None => m
    case Some(s) => m[s.sid := s]
  }

  function LoadRows(m: Sessions, rows: seq<SavedRow>, now: Time, maxAge: Time): Sessions
    decreases |rows|
  {
    if rows == [] then m else Extended(LoadRows(m, Front(rows), now, maxAge), Last(rows), now, maxAge)
  }

  /** Later rows change nothing about a session an earlier one restored: of two rows with one id the
      first counts. */
  lemma {:induction false} EarlierRowsWin(m: Sessions, a: seq<SavedRow>, b: seq<SavedRow>, now: Time, maxAge: Time)
    ensures var once := LoadRows(m, a, now, maxAge);
      forall k :: k in once ==> Lookup(LoadRows(m, a + b, now, maxAge), k) == Some(once[k])
    decreases |b|
  {
    if b == [] {
      assert a + b == a;
    } else {
      EarlierRowsWin(m, a, Front(b), now, maxAge);
      assert Front(a + b) == a + Front(b) && Last(a + b) == Last(b);
    }
  }

  /** The ids of the sessions these rows add, in the order they are added. */
  function Added(m: Sessions, rows: seq<SavedRow>, now: Time, maxAge: Time): seq<string>
    decreases |rows|
  {
    if rows == [] then []
    else Added(m, Front(rows), now, maxAge) + AddedBy(LoadRows(m, Front(rows), now, maxAge), Last(rows), now, maxAge)
  }

  /** What one more row adds: at most its own session. */
  function AddedBy(m: Sessions, row: SavedRow, now: Time, maxAge: Time): seq<string> {
    match Restored(m, row, now, maxAge)
    case None => []
    case Some(s) => [s.sid]
  }

  lemma OneRowMore(m: Sessions, rows: seq<SavedRow>, i: nat, now: Time, maxAge: Time)
    requires i < |rows|
    ensures var before := LoadRows(m, rows[..i], now, maxAge);
      && LoadRows(m, rows[..i + 1], now, maxAge) == Extended(before, rows[i], now, maxAge)
      && Added(m, rows[..i + 1], now, maxAge)
         == Added(m, rows[..i], now, maxAge) + AddedBy(before, rows[i], now, maxAge)
  {
    assert Front(rows[..i + 1]) == rows[..i] && Last(rows[..i + 1]) == rows[i];
  }

  /** Nothing in this file can be trusted: unreadable, another format, or from before a reboot. */
  predicate Refused(file: File, bootedAt: Option<Time>) {
    || file.Unreadable?
    || file.version != Some(FORMAT_V)
    || (bootedAt.Some? && file.savedAt.Some? && file.savedAt.value < bootedAt.value)
  }

  function LoadFile(m: Sessions, file: File, now: Time, maxAge: Time, bootedAt: Option<Time>): Sessions {
    if Refused(file, bootedAt) then m else LoadRows(m, file.rows, now, maxAge)
  }

  /** A row that holds nothing but what it must restores a session that claims nothing. */
  lemma BareRowRestores(sid: string, st: State)
    ensures
      var row := SavedRow(Some(sid), None, None, Some(NAMES[st]), None, None, None, None, None, None, None, None, None,
                          None, None, None, None);
      RestoreRow(row, sid, st) == Row(sid, About("", "", "", "", None, None, "", ""), st, 0.0, 0.0,
                                      0, 0, "", 0.0, false, false, "", 0, 0.0)
  {
  }

  /** What a file of one row adds to an empty store: the session, exactly when the file is of format 1
      and not from before a reboot, and the row names a session in a known state that was heard of
      recently enough. */
  lemma FileIsTrustedExactly(
    version: Option<int>, savedAt: Option<Time>, row: SavedRow, now: Time, maxAge: Time, bootedAt: Option<Time>)
    ensures var m := LoadFile(map[], File(version, savedAt, [row]), now, maxAge, bootedAt);
      var trusted := version == Some(1) && !(savedAt.Some? && bootedAt.Some? && savedAt.value < bootedAt.value);
      var sid := row.sid.GetOr("");
      var known := exists st :: st in NAMES && row.state == Some(NAMES[st]);
      && (m != map[] <==> trusted && sid != "" && known && now - row.lastEvent.GetOr(0.0) <= maxAge)
      && (m != map[] ==> m.Keys == {sid})
    ensures LoadFile(map[], Unreadable, now, maxAge, bootedAt) == map[]
  {
    OneRowLoads(row, now, maxAge);
  }

  lemma KnownNames(name: Option<string>)
    ensures ParseState(name).Some? <==> exists st :: st in NAMES && name == Some(NAMES[st])
  {
    if ParseState(name).Some? {
      NamesAreThese(ParseState(name).value, name.value);
    } else if st :| st in NAMES && name == Some(NAMES[st]) {
      NamesAreThese(st, name.value);
    }
  }

  lemma OneRowLoads(row: SavedRow, now: Time, maxAge: Time)
    ensures var m := LoadRows(map[], [row], now, maxAge);
      var sid := row.sid.GetOr("");
      var known := exists st :: st in NAMES && row.state == Some(NAMES[st]);
      && (m != map[] <==> sid != "" && known && now - row.lastEvent.GetOr(0.0) <= maxAge)
      && (m != map[] ==> m.Keys == {sid})
  {
    KnownNames(row.state);
    assert Front([row]) == [] && Last([row]) == row;
    assert LoadRows(map[], [row], now, maxAge) == Extended(map[], row, now, maxAge);
    var sid := row.sid.GetOr("");
    if sid != "" && ParseState(row.state).Some? && now - row.lastEvent.GetOr(0.0) <= maxAge {
      assert sid in Extended(map[], row, now, maxAge);
    }
  }

  /** The saved members that describe the session. */
  method RestoreDetails(s: Store.Session, row: SavedRow)
    modifies s
    ensures s.Value() == old(s.Value()).(
      about := old(s.Value()).about.(
        lastTool := row.lastTool.GetOr(old(s.lastTool)), model := row.model.GetOr(old(s.model)),
        cost := row.cost, ctx := row.ctx,
        mode := row.mode.GetOr(old(s.mode)), errorType := row.errorType.GetOr(old(s.errorType))))
  {
    s.lastTool := row.lastTool.GetOr(s.lastTool);
    s.model := row.model.GetOr(s.model);
    s.cost := row.cost;
    s.ctx := row.ctx;
    s.mode := row.mode.GetOr(s.mode);
    s.errorType := row.errorType.GetOr(s.errorType);
  }

  /** The saved members that say what it wants and whose it is. */
  method RestoreClaims(s: Store.Session, row: SavedRow)
    modifies s
    ensures s.Value() == old(s.Value()).(
      stateSince := row.stateSince.GetOr(old(s.stateSince)), lastEvent := row.lastEvent.GetOr(old(s.lastEvent)),
      attnAgent := row.attnAgent.GetOr(old(s.attnAgent)), idleHeld := row.idleHeld.GetOr(old(s.idleHeld)),
      idleHeldAgent := row.idleHeldAgent.GetOr(old(s.idleHeldAgent)),
      pid := row.pid.GetOr(old(s.pid)), pidCreated := row.pidCreated.GetOr(old(s.pidCreated)))
  {
    s.stateSince := row.stateSince.GetOr(s.stateSince);
    s.lastEvent := row.lastEvent.GetOr(s.lastEvent);
    s.attnAgent := row.attnAgent.GetOr(s.attnAgent);
    s.idleHeld := row.idleHeld.GetOr(s.idleHeld);
    s.idleHeldAgent := row.idleHeldAgent.GetOr(s.idleHeldAgent);
    s.pid := row.pid.GetOr(s.pid);
    s.pidCreated := row.pidCreated.GetOr(s.pidCreated);
  }

  method NewSession(row: SavedRow, sid: string, st: State) returns (s: Store.Session)
    ensures fresh(s) && s.Value() == RestoreRow(row, sid, st)
  {
    s := new Store.Session(sid, row.cwd.GetOr(""), row.title.GetOr(""), st, 0.0, 0.0);
    RestoreDetails(s, row);
    RestoreClaims(s, row);
  }

  /** One row of the file. */
  method LoadRow(row: SavedRow, store: Store.SessionStore, now: Time, maxAge: Time) returns (restored: nat)
    requires store.Valid()
    modifies store`sessions, store`order
    ensures store.Valid()
    ensures store.View() == Extended(old(store.View()), row, now, maxAge)
    ensures store.order == old(store.order) + AddedBy(old(store.View()), row, now, maxAge)
    ensures restored == |store.sessions| - old(|store.sessions|)
  {
    restored := 0;
    var sid := row.sid.GetOr("");
    if sid == "" || sid in store.sessions {
      return;
    }
    if now - row.lastEvent.GetOr(0.0) > maxAge {
      return;
    }
    var state := ParseState(row.state);
    if state.None? {
      return;
    }
    var s := NewSession(row, sid, state.value);
    assert Restored(store.View(), row, now, maxAge) == Some(s.Value());
    store.Add(s);
    restored := 1;
  }

  /** The rows of the file in turn. */
  method LoadEach(rows: seq<SavedRow>, store: Store.SessionStore, now: Time, maxAge: Time) returns (restored: nat)
    requires store.Valid()
    modifies store`sessions, store`order
    ensures store.Valid()
    ensures store.View() == LoadRows(old(store.View()), rows, now, maxAge)
    ensures store.order == old(store.order) + Added(old(store.View()), rows, now, maxAge)
    ensures restored == |store.sessions| - old(|store.sessions|)
  {
    restored := 0;
    ghost var was, order := store.View(), store.order;
    for i := 0 to |rows|
      invariant store.Valid()
      invariant store.View() == LoadRows(was, rows[..i], now, maxAge)
      invariant store.order == order + Added(was, rows[..i], now, maxAge)
      invariant restored == |store.sessions| - old(|store.sessions|)
    {
      OneRowMore(was, rows, i, now, maxAge);
      var one := LoadRow(rows[i], store, now, maxAge);
      restored := restored + one;
    }
    assert rows[..|rows|] == rows;
  }

  method Load(file: File, store: Store.SessionStore, now: Time, maxAge: Time, bootedAt: Option<Time>)
    returns (restored: nat)
    requires store.Valid()
    modifies store`sessions, store`order
    ensures store.Valid()
    ensures store.View() == LoadFile(old(store.View()), file, now, maxAge, bootedAt)
    ensures store.order == old(store.order) +
      if Refused(file, bootedAt) then [] else Added(old(store.View()), file.rows, now, maxAge)
    ensures restored == |store.sessions| - old(|store.sessions|)
  {
    restored := 0;
    if file.Unreadable? || file.version != Some(FORMAT_V) {
      return;
    }
    if bootedAt.Some? && file.savedAt.Some? && file.savedAt.value < bootedAt.value {
      return;
    }
    restored := LoadEach(file.rows, store, now, maxAge);
  }
}
