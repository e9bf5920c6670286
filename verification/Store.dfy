/** The session store as the daemon runs it: records updated in place, held in a dictionary. */
module Store {
  import opened Basics
  import M = Machine
  import opened Product
  import opened Selection
  import D = Snapshot

  class Session {
    const sid: string
    var cwd: string
    var title: string
    var state: M.State
    var stateSince: Time
    var lastEvent: Time
    var lastTool: string
    var model: string
    var cost: Option<real>
    var ctx: Option<int>
    var mode: string
    var errorType: string
    var bgTasks: int
    var bgOther: int
    var attnAgent: string
    var bgSeen: Time
    var turnOver: bool
    var idleHeld: bool
    var idleHeldAgent: string
    var pid: int
    var pidCreated: Time

    function Value(): M.Row
      reads this
    {
      M.Row(sid, M.About(cwd, title, lastTool, model, cost, ctx, mode, errorType), state, stateSince, lastEvent,
            bgTasks, bgOther, attnAgent, bgSeen, turnOver, idleHeld, idleHeldAgent, pid, pidCreated)
    }

    constructor (sid: string, cwd: string, title: string, state: M.State, stateSince: Time, lastEvent: Time)
      ensures Value() == M.Row(sid, M.About(cwd, title, "", "", None, None, "", ""), state, stateSince, lastEvent,
                               0, 0, "", 0.0, false, false, "", 0, 0.0)
    {
      this.sid, this.cwd, this.title, this.state := sid, cwd, title, state;
      this.stateSince, this.lastEvent := stateSince, lastEvent;
      lastTool, model, cost, ctx, mode, errorType := "", "", None, None, "", "";
      bgTasks, bgOther, attnAgent, bgSeen := 0, 0, "", 0.0;
      turnOver, idleHeld, idleHeldAgent, pid, pidCreated := false, false, "", 0, 0.0;
    }

    method SetState(st: M.State, now: Time)
      modifies this
      ensures Value() == M.SetState(old(Value()), st, now)
    {
      if st != state {
        state := st;
        stateSince := now;
      }
      lastEvent := now;
    }
  }

  twostate lemma Unmoved(s: Session)
    requires unchanged(s)
    ensures s.Value() == old(s.Value())
  {
  }

  /** The members of `keys` that are still in `live`, in order. */
  function Kept(keys: seq<string>, live: set<string>): seq<string> {
    if keys == [] then []
    else (if keys[0] in live then [keys[0]] else []) + Kept(keys[1..], live)
  }

  predicate Distinct(keys: seq<string>) {
    forall i, j :: 0 <= i < j < |keys| ==> keys[i] != keys[j]
  }

  lemma KeptMembers(keys: seq<string>, live: set<string>)
    ensures forall k :: k in Kept(keys, live) <==> k in keys && k in live
  {
  }

  lemma {:induction false} KeptDistinct(keys: seq<string>, live: set<string>)
    requires Distinct(keys)
    ensures Distinct(Kept(keys, live))
  {
    if keys != [] {
      KeptDistinct(keys[1..], live);
      KeptMembers(keys[1..], live);
      var rest := Kept(keys[1..], live);
      assert forall i :: 0 <= i < |rest| ==> rest[i] in rest;
    }
  }

  lemma KeptAll(keys: seq<string>, live: set<string>)
    requires forall k :: k in keys ==> k in live
    ensures Kept(keys, live) == keys
  {
  }

  lemma {:induction false} KeptKept(keys: seq<string>, more: set<string>, less: set<string>)
    requires less <= more
    ensures Kept(Kept(keys, more), less) == Kept(keys, less)
  {
    if keys != [] {
      KeptKept(keys[1..], more, less);
      if keys[0] in more {
        assert Kept(keys, more)[1..] == Kept(keys[1..], more);
      } else {
        assert Kept(keys, more) == Kept(keys[1..], more);
      }
    }
  }

  class SessionStore {
    const cfg: M.Config
    var sessions: map<string, Session>
    var order: seq<string>  // the dictionary's insertion order

    ghost predicate Valid()
      reads this
    {
      && Distinct(order)
      && (forall k :: k in order <==> k in sessions)
      && (forall k :: k in sessions ==> sessions[k].sid == k)
    }

    /** The dictionary's contents as values. */
    ghost function View(): Sessions
      reads this, sessions.Values
    {
      map k | k in sessions :: sessions[k].Value()
    }

    constructor (cfg: M.Config)
      ensures Valid() && View() == map[] && this.cfg == cfg && order == [] && sessions == map[]
    {
      this.cfg := cfg;
      sessions, order := map[], [];
    }

    /** Filing `s` under `sid` and touching no other record updates one entry of the view. */
    twostate lemma ViewSet(sid: string, new s: Session)
      requires old(Valid()) && Valid() && sessions == old(sessions)[sid := s]
      requires forall k :: k in old(sessions) && k != sid ==> unchanged(old(sessions)[k])
      ensures View() == old(View())[sid := s.Value()]
    {
      var after := old(View())[sid := s.Value()];
      assert View().Keys == after.Keys;
      forall k | k in after ensures View()[k] == after[k] {
        if k != sid { Unmoved(old(sessions)[k]); }
      }
    }

    method GetOrCreate(sid: string, cwd: string, now: Time) returns (s: Session)
      requires Valid()
      modifies this`sessions, this`order, sessions.Values
      ensures Valid() && sessions == old(sessions)[sid := s]
      ensures sid in old(sessions) ==> s == old(sessions)[sid]
      ensures sid !in old(sessions) ==> fresh(s)
      ensures forall k :: k in old(sessions) && k != sid ==> unchanged(old(sessions)[k])
      ensures s.Value() == M.GetOrCreate(cfg, Lookup(old(View()), sid), sid, cwd, now)
      ensures order == if sid in old(sessions) then old(order) else old(order) + [sid]
    {
      if sid !in sessions {
        s := new Session(sid, cwd, cfg.titleOf(cwd), M.Starting, now, now);
        sessions := sessions[sid := s];
        order := order + [sid];
      } else {
        s := sessions[sid];
        assert old(View())[sid] == s.Value();
        if cwd != "" && cwd != s.cwd {
          s.cwd, s.title := cwd, cfg.titleOf(cwd);
        }
      }
    }

    /** Files a session under its own, still unused, id. */
    method Add(s: Session)
      requires Valid() && s.sid !in sessions
      modifies this`sessions, this`order
      ensures Valid() && View() == old(View())[s.sid := s.Value()]
      ensures sessions == old(sessions)[s.sid := s] && order == old(order) + [s.sid]
    {
      sessions := sessions[s.sid := s];
      order := order + [s.sid];
      ViewSet(s.sid, s);
    }

    static method Activity(s: Session, now: Time, agent: string)
      modifies s
      ensures s.Value() == M.Activity(old(s.Value()), now, agent)
    {
      if agent == "" {
        s.turnOver, s.idleHeld := false, false;
      }
      if M.InFamily(s.state) && agent != s.attnAgent {
        s.lastEvent := now;
        return;
      }
      s.SetState(M.Working, now);
    }

    static method WantAttention(s: Session, now: Time, agent: string)
      modifies s
      ensures s.Value() == M.WantAttention(old(s.Value()), now, agent)
    {
      if M.InFamily(s.state) {
        s.lastEvent := now;
        return;
      }
      s.idleHeld := false;
      s.attnAgent := agent;
      assert s.Value() == old(s.Value()).(idleHeld := false, attnAgent := agent);
      s.SetState(M.NeedsInput, now);
    }

    static method IdlePrompt(s: Session, now: Time, agent: string)
      modifies s
      ensures s.Value() == M.IdlePrompt(old(s.Value()), now, agent)
    {
      if M.InFamily(s.state) || s.state == M.NeedsLook {
        s.lastEvent := now;
        return;
      }
      if s.bgOther == 0 {
        WantAttention(s, now, agent);
        return;
      }
      s.idleHeld := false;
      s.attnAgent := agent;
      assert s.Value() == old(s.Value()).(idleHeld := false, attnAgent := agent);
      s.SetState(M.NeedsLook, now);
    }

    static method Resync(s: Session, tasks: M.TaskList, now: Time, agent: string)
      modifies s
      ensures s.Value() == M.Resync(old(s.Value()), tasks, now, agent)
    {
      if !tasks.NoTasks? {
        s.bgTasks := M.RunningTasks(tasks, agent);
        s.bgOther := M.UntrackedTasks(tasks, agent);
      } else {
        s.bgTasks := if 0 < s.bgTasks - 1 then s.bgTasks - 1 else 0;
      }
      s.bgSeen := now;
    }

    static method StopSubagent(s: Session, tasks: M.TaskList, now: Time, agent: string)
      modifies s
      ensures s.Value() == M.StopSubagent(old(s.Value()), tasks, now, agent)
    {
      Resync(s, tasks, now, agent);
      if s.turnOver && s.bgTasks == 0 {
        s.turnOver := false;
        assert s.Value() == M.Resync(old(s.Value()), tasks, now, agent).(turnOver := false);
        s.SetState(M.Idle, now);
      } else {
        s.lastEvent := now;
      }
    }

    static method Notify(s: Session, notice: M.Notice, now: Time, agent: string)
      modifies s
      ensures s.Value() == M.Notify(old(s.Value()), notice, now, agent)
    {
      if notice.Informational? {
        s.lastEvent := now;
      } else if notice.IdlePromptNotice? && s.bgTasks != 0 {
        s.idleHeld, s.idleHeldAgent := true, agent;
        s.lastEvent := now;
      } else if notice.IdlePromptNotice? {
        IdlePrompt(s, now, agent);
      } else {
        WantAttention(s, now, agent);
      }
    }

    static method StopTurn(s: Session, tasks: M.TaskList, now: Time)
      modifies s
      ensures s.Value() == M.StopTurn(old(s.Value()), tasks, now)
    {
      s.bgTasks := M.RunningTasks(tasks, "");
      s.bgOther := M.UntrackedTasks(tasks, "");
      s.bgSeen := now;
      s.turnOver := s.bgTasks != 0;
      assert s.Value() == old(s.Value()).(bgTasks := M.RunningTasks(tasks, ""), bgOther := M.UntrackedTasks(tasks, ""),
                                          bgSeen := now, turnOver := s.bgTasks != 0);
      s.SetState(if s.bgTasks != 0 then M.Working else M.Idle, now);
    }

    static method SubmitPrompt(s: Session, now: Time)
      modifies s
      ensures s.Value() == M.Dispatch(old(s.Value()), M.UserPromptSubmit, now, "")
    {
      s.errorType := "";
      s.bgTasks, s.bgOther := 0, 0;
      s.turnOver := false;
      s.idleHeld := false;
      assert s.Value()
          == M.SetError(old(s.Value()), "").(bgTasks := 0, bgOther := 0, turnOver := false, idleHeld := false);
      s.SetState(M.Working, now);
    }

    static method SetError(s: Session, errorType: string)
      modifies s
      ensures s.Value() == M.SetError(old(s.Value()), errorType)
    {
      s.errorType := errorType;
    }

    static method UseTool(s: Session, tool: string, now: Time, agent: string)
      modifies s
      ensures s.Value() == M.Activity(M.NameTool(old(s.Value()), tool), now, agent)
    {
      s.lastTool := if tool != "" then tool else s.lastTool;
      assert s.Value() == M.NameTool(old(s.Value()), tool);
      Activity(s, now, agent);
    }

    static method Dispatch(s: Session, hook: M.Hook, now: Time, agent: string)
      modifies s
      ensures s.Value() == M.Dispatch(old(s.Value()), hook, now, agent)
    {
      match hook
      case SessionStart =>
        SetError(s, "");
        s.SetState(M.Starting, now);
      case UserPromptSubmit =>
        SubmitPrompt(s, now);
      case ToolUse(_, tool) =>
        UseTool(s, tool, now, agent);
      case PostToolBatch(calls) =>
        UseTool(s, M.LastBatchTool(calls), now, agent);
      case PermissionRequest =>
        WantAttention(s, now, agent);
      case PermissionDenied =>
        Activity(s, now, agent);
      case Notification(notice) =>
        Notify(s, notice, now, agent);
      case Stop(tasks) =>
        StopTurn(s, tasks, now);
      case SubagentStop(tasks) =>
        StopSubagent(s, tasks, now, agent);
      case StopFailure(errorType) =>
        SetError(s, if errorType != "" then errorType else "error");
        s.SetState(M.Error, now);
      case SessionEnd =>
        s.SetState(M.Ended, now);
      case OtherHook =>
        s.lastEvent := now;
    }

    static method Note(s: Session, ev: M.Event, proc: Option<M.Proc>, now: Time)
      modifies s
      ensures s.Value() == M.Note(old(s.Value()), ev, proc, now)
    {
      if proc.Some? && (ev.hook.SessionStart? || s.pid == 0) {
        s.pid, s.pidCreated := proc.value.pid, proc.value.created;
      }
      assert s.Value() == old(s.Value()).(pid := s.pid, pidCreated := s.pidCreated);
      if ev.mode != "" {
        s.mode := ev.mode;
      }
      if ev.agent != "" {
        s.bgSeen := now;
      }
    }

    static method ShowStatus(s: Session, st: M.StatusLine)
      modifies s
      ensures s.Value() == M.ShowStatus(old(s.Value()), st)
    {
      s.model := st.model;
      if st.cost.Some? {
        s.cost := st.cost;
      }
      s.ctx := st.ctx;
    }

    method ApplyEvent(ev: M.Event, now: Time, proc: Option<M.Proc>)
      requires Valid()
      modifies this`sessions, this`order, sessions.Values
      ensures Valid() && fresh(sessions.Values - old(sessions.Values))
      ensures View() == Step(cfg, old(View()), M.Hooked(ev, proc), now)
      ensures order == if ev.sid == "" || ev.sid in old(sessions) then old(order) else old(order) + [ev.sid]
    {
      if ev.sid == "" {
        return;
      }
      var s := GetOrCreate(ev.sid, ev.cwd, now);
      Note(s, ev, proc, now);
      Dispatch(s, ev.hook, now, ev.agent);
      ViewSet(ev.sid, s);
    }

    method ApplyStatus(st: M.StatusLine, now: Time)
      requires Valid()
      modifies this`sessions, this`order, sessions.Values
      ensures Valid() && fresh(sessions.Values - old(sessions.Values))
      ensures View() == Step(cfg, old(View()), M.Status(st), now)
      ensures order == if st.sid == "" || st.sid in old(sessions) then old(order) else old(order) + [st.sid]
    {
      if st.sid == "" {
        return;
      }
      var s := GetOrCreate(st.sid, st.cwd, now);
      ShowStatus(s, st);
      ViewSet(st.sid, s);
    }

    method ProcessGone(sid: string, now: Time) returns (ended: bool)
      requires Valid()
      modifies sessions.Values
      ensures Valid()
      ensures sessions == old(sessions) && order == old(order)
      ensures View() == Step(cfg, old(View()), M.Exited(sid), now)
      ensures ended <==> sid in old(View()) && !old(View())[sid].state.Ended?
    {
      if sid !in sessions || sessions[sid].state == M.Ended {
        assert sid in sessions ==> View()[sid] == sessions[sid].Value();
        return false;
      }
      var s := sessions[sid];
      s.SetState(M.Ended, now);
      assert sessions == sessions[sid := s];
      ViewSet(sid, s);
      return true;
    }

    /** The sessions in dictionary order, as values. */
    function Rows(): seq<M.Row>
      requires Valid()
      reads this, sessions.Values
    {
      seq(|order|, i requires 0 <= i < |order| && order[i] in sessions reads this, sessions.Values =>
        sessions[order[i]].Value())
    }

    method Forget(key: string, now: Time) returns (hits: seq<M.Row>)
      requires Valid()
      modifies sessions.Values
      ensures Valid() && sessions == old(sessions) && order == old(order)
      ensures hits == Hits(old(Rows()), key)
      ensures View() == if |hits| == 1 then Step(cfg, old(View()), M.Exited(hits[0].sid), now) else old(View())
    {
      hits := Hits(Rows(), key);
      if |hits| == 1 {
        HitsAreLive(Rows(), key);
        assert hits[0] in hits;
        var sid := hits[0].sid;
        var _ := ProcessGone(sid, now);
      }
    }

    /** What the display is sent. */
    function Snapshot(): D.Snap
      requires Valid()
      reads this, sessions.Values
    {
      D.Take(cfg, Rows())
    }

    /** The sessions whose process is known. */
    function Watched(): (w: map<string, M.Proc>)
      reads this, sessions.Values
      ensures w == WatchedRows(View())
    {
      map k | k in sessions && sessions[k].pid != 0 && sessions[k].state != M.Ended ::
        M.Proc(sessions[k].pid, sessions[k].pidCreated)
    }

    /** One session's share of a tick. */
    method TickOne(s: Session, now: Time) returns (keep: bool)
      modifies s
      ensures keep <==> M.TickRow(cfg, old(s.Value()), now).Some?
      ensures keep ==> s.Value() == M.TickRow(cfg, old(s.Value()), now).value
    {
      if s.state == M.Ended {
        return now - s.stateSince <= cfg.endedGrace;
      }
      if now - s.lastEvent > cfg.ghostAfter {
        return false;
      }
      Retire(s, now);
      Release(s, now);
      Timers(s, now);
      return true;
    }

    method Retire(s: Session, now: Time)
      modifies s
      ensures s.Value() == M.Retire(cfg, old(s.Value()), now)
    {
      if s.bgTasks != 0 && now - s.bgSeen > cfg.bgQuiet {
        s.bgTasks := 0;
        if s.turnOver {
          s.turnOver := false;
          assert s.Value() == old(s.Value()).(bgTasks := 0, turnOver := false);
          if s.state == M.Working {
            s.SetState(M.Idle, now);
          }
        }
      }
    }

    static method Release(s: Session, now: Time)
      modifies s
      ensures s.Value() == M.Release(old(s.Value()), now)
    {
      if s.idleHeld && s.bgTasks == 0 {
        s.idleHeld := false;
        var agent := s.idleHeldAgent;
        s.idleHeldAgent := "";
        assert s.Value() == old(s.Value()).(idleHeld := false, idleHeldAgent := "");
        IdlePrompt(s, now, agent);
      }
    }

    method Timers(s: Session, now: Time)
      modifies s
      ensures s.Value() == M.Timers(cfg, old(s.Value()), now)
    {
      if s.state == M.Working && now - s.lastEvent > cfg.staleAfter {
        s.SetState(if s.turnOver then M.Idle else M.Stale, now);
      } else if s.state == M.Idle && now - s.stateSince > cfg.idlePrompt {
        IdlePrompt(s, now, "");
      } else if s.state == M.Starting && now - s.lastEvent > cfg.idleStale {
        s.SetState(M.Stale, now);
      } else if s.state == M.NeedsLook && now - s.stateSince > cfg.look {
        WantAttention(s, now, s.attnAgent);
      } else if s.state == M.NeedsInput || s.state == M.NeedsHeld {
        var waited := now - s.stateSince;
        if waited > cfg.needRed {
          s.state := M.Waiting;
        } else if waited > cfg.needPulse {
          s.state := M.NeedsHeld;
        }
      }
    }

    method Drop(sid: string)
      requires Valid() && sid in sessions
      modifies this`sessions, this`order
      ensures Valid() && sessions == old(sessions) - {sid}
      ensures View() == old(View()) - {sid} && order == Kept(old(order), sessions.Keys)
    {
      sessions := sessions - {sid};
      order := Kept(order, sessions.Keys);
      KeptMembers(old(order), sessions.Keys);
      KeptDistinct(old(order), sessions.Keys);
    }

    /** Ticks the session filed under `sid`. */
    method Advance(sid: string, now: Time) returns (keep: bool)
      requires Valid() && sid in sessions
      modifies sessions.Values
      ensures Valid() && sessions == old(sessions) && order == old(order)
      ensures sid in old(View()) && (keep <==> M.TickRow(cfg, old(View())[sid], now).Some?)
      ensures keep ==> View() == old(View())[sid := M.TickRow(cfg, old(View())[sid], now).value]
      ensures !keep ==> View().Keys == old(View()).Keys && View() - {sid} == old(View()) - {sid}
    {
      var s := sessions[sid];
      assert s.Value() == View()[sid];
      keep := TickOne(s, now);
      assert sessions == sessions[sid := s];
      ViewSet(sid, s);
    }

    /** One turn of the tick's loop. */
    method TickSession(sid: string, now: Time)
      requires Valid() && sid in sessions
      modifies this`sessions, this`order, sessions.Values
      ensures Valid() && sessions.Values <= old(sessions.Values)
      ensures View() == Ticked(cfg, old(View()), sid, now)
      ensures sessions.Keys <= old(sessions.Keys) && order == Kept(old(order), sessions.Keys)
    {
      var keep := Advance(sid, now);
      if keep {
        KeptAll(order, sessions.Keys);
      } else {
        Drop(sid);
      }
    }

    method Tick(now: Time)
      requires Valid()
      modifies this`sessions, this`order, sessions.Values
      ensures Valid() && sessions.Values <= old(sessions.Values)
      ensures View() == Step(cfg, old(View()), M.Tick, now)
      ensures order == Kept(old(order), sessions.Keys)
    {
      KeptAll(order, sessions.Keys);
      assert forall k :: k in order <==> k in View();
      TickBegins(cfg, order, View(), now);
      TickKeys(order, View(), now);
    }

    /** The tick's loop over `keys`, a copy of the dictionary's keys. */
    method TickKeys(keys: seq<string>, ghost was: Sessions, now: Time)
      requires Valid() && order == Kept(keys, sessions.Keys)
      requires TickProgress(cfg, keys, was, View(), 0, now)
      modifies this`sessions, this`order, sessions.Values
      ensures Valid() && sessions.Values <= old(sessions.Values)
      ensures View() == TickAll(cfg, was, now) && order == Kept(keys, sessions.Keys)
    {
      for i := 0 to |keys|
        invariant Valid() && sessions.Values <= old(sessions.Values)
        invariant TickProgress(cfg, keys, was, View(), i, now)
        invariant order == Kept(keys, sessions.Keys)
      {
        ghost var before := sessions.Keys;
        TickProgresses(cfg, keys, was, View(), i, now);
        TickSession(keys[i], now);
        assert order == Kept(keys, sessions.Keys) by { KeptKept(keys, before, sessions.Keys); }
      }
      TickedEverywhere(cfg, keys, was, View(), now);
    }
  }

  /** The store after the tick's loop has passed `sid`. */
  ghost function Ticked(cfg: M.Config, m: Sessions, sid: string, now: Time): Sessions
    requires sid in m
  {
    match M.TickRow(cfg, m[sid], now)
    case Some(r) => m[sid := r]
    case None => m - {sid}
  }

  /** The first `i` keys have been ticked, and nothing else has happened. */
  ghost predicate TickProgress(cfg: M.Config, keys: seq<string>, was: Sessions, m: Sessions, i: nat, now: Time) {
    && Distinct(keys) && i <= |keys|
    && (forall k :: k in keys <==> k in was)
    && (forall k :: k in m ==> k in was)
    && (forall j :: 0 <= j < i ==> Lookup(m, keys[j]) == M.TickRow(cfg, was[keys[j]], now))
    && (forall j :: i <= j < |keys| ==> Lookup(m, keys[j]) == Some(was[keys[j]]))
  }

  lemma TickBegins(cfg: M.Config, keys: seq<string>, was: Sessions, now: Time)
    requires Distinct(keys) && forall k :: k in keys <==> k in was
    ensures TickProgress(cfg, keys, was, was, 0, now)
  {
  }

  lemma TickProgresses(cfg: M.Config, keys: seq<string>, was: Sessions, m: Sessions, i: nat, now: Time)
    requires TickProgress(cfg, keys, was, m, i, now) && i < |keys|
    ensures keys[i] in m && TickProgress(cfg, keys, was, Ticked(cfg, m, keys[i], now), i + 1, now)
  {
    assert Lookup(m, keys[i]) == Some(was[keys[i]]);
    var after := Ticked(cfg, m, keys[i], now);
    forall j | 0 <= j < |keys| && j != i ensures Lookup(after, keys[j]) == Lookup(m, keys[j]) {
      assert keys[j] != keys[i];
    }
  }

  lemma TickedEverywhere(cfg: M.Config, keys: seq<string>, was: Sessions, m: Sessions, now: Time)
    requires TickProgress(cfg, keys, was, m, |keys|, now)
    ensures m == TickAll(cfg, was, now)
  {
    forall k ensures Lookup(m, k) == Lookup(TickAll(cfg, was, now), k) {
      if k in was { var j :| 0 <= j < |keys| && keys[j] == k; }
    }
    SameLookups(m, TickAll(cfg, was, now));
  }
}
