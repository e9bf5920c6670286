/** The whole store as a map, and its refinement of independent single-session machines. */
module Product {
  import opened Basics
  import opened Machine
  import opened Invariants
  import opened Ticks

  type Sessions = map<string, Row>

  function TickAll(cfg: Config, m: Sessions, now: Time): Sessions {
    map k | k in m && TickRow(cfg, m[k], now).Some? :: TickRow(cfg, m[k], now).value
  }

  /** One input as the store handles it. */
  function Step(cfg: Config, m: Sessions, input: Input, now: Time): Sessions {
    match input
    case Hooked(ev, proc) =>
      if ev.sid == "" then m else m[ev.sid := Receive(cfg, Lookup(m, ev.sid), ev, proc, now)]
    case Status(st) =>
      if st.sid == "" then m else m[st.sid := Refresh(cfg, Lookup(m, st.sid), st, now)]
    case Exited(sid) =>
      if sid in m then m[sid := Exit(m[sid], now)] else m
    case Tick => TickAll(cfg, m, now)
  }

  function RunAll(cfg: Config, m: Sessions, tr: seq<Timed>): Sessions
    decreases |tr|
  {
    if tr == [] then m else Step(cfg, RunAll(cfg, m, Front(tr)), Last(tr).input, Last(tr).now)
  }

  /** What one step does to one session depends on that session alone. */
  lemma StepIsLocal(cfg: Config, m: Sessions, input: Input, now: Time, sid: string)
    ensures Lookup(Step(cfg, m, input, now), sid) == One(cfg, sid, Lookup(m, sid), input, now)
  {
  }

  /** Looking one session up after any trace is running that session's own machine. */
  lemma {:induction false} StoreIsProduct(cfg: Config, m: Sessions, tr: seq<Timed>, sid: string)
    ensures Lookup(RunAll(cfg, m, tr), sid) == Run(cfg, sid, Lookup(m, sid), tr)
    decreases |tr|
  {
    if tr != [] {
      StoreIsProduct(cfg, m, Front(tr), sid);
      StepIsLocal(cfg, RunAll(cfg, m, Front(tr)), Last(tr).input, Last(tr).now, sid);
    }
  }

  /** The inputs session `sid` has a part in: the ticks and those that name it. */
  function Own(sid: string, tr: seq<Timed>): seq<Timed>
    decreases |tr|
  {
    if tr == [] then []
    else if Last(tr).input.Tick? || !Foreign(sid, Last(tr).input) then Own(sid, Front(tr)) + [Last(tr)]
    else Own(sid, Front(tr))
  }

  lemma {:induction false} OwnInputsSuffice(cfg: Config, sid: string, o: Option<Row>, tr: seq<Timed>)
    ensures Run(cfg, sid, o, tr) == Run(cfg, sid, o, Own(sid, tr))
    decreases |tr|
  {
    if tr != [] {
      OwnInputsSuffice(cfg, sid, o, Front(tr));
      var own := Own(sid, tr);
      if Last(tr).input.Tick? || !Foreign(sid, Last(tr).input) {
        assert Front(own) == Own(sid, Front(tr)) && Last(own) == Last(tr);
      }
    }
  }

  /** Two traces that look the same to every session leave the same store: what happens to
      one session is invisible to all the others, deletion and re-creation included. */
  lemma SameViewsSameStore(cfg: Config, m: Sessions, tr: seq<Timed>, us: seq<Timed>)
    requires forall sid :: Own(sid, tr) == Own(sid, us)
    ensures RunAll(cfg, m, tr) == RunAll(cfg, m, us)
  {
    forall sid ensures Lookup(RunAll(cfg, m, tr), sid) == Lookup(RunAll(cfg, m, us), sid) {
      assert Own(sid, tr) == Own(sid, us);
      StoreIsProduct(cfg, m, tr, sid);
      StoreIsProduct(cfg, m, us, sid);
      OwnInputsSuffice(cfg, sid, Lookup(m, sid), tr);
      OwnInputsSuffice(cfg, sid, Lookup(m, sid), us);
    }
    SameLookups(RunAll(cfg, m, tr), RunAll(cfg, m, us));
  }

  /** Inputs of different sessions commute. */
  lemma DifferentSessionsCommute(cfg: Config, m: Sessions, a: Timed, b: Timed)
    requires !a.input.Tick? && !b.input.Tick?
    requires forall sid :: Foreign(sid, a.input) || Foreign(sid, b.input)
    ensures Step(cfg, Step(cfg, m, a.input, a.now), b.input, b.now)
         == Step(cfg, Step(cfg, m, b.input, b.now), a.input, a.now)
  {
    var ab := Step(cfg, Step(cfg, m, a.input, a.now), b.input, b.now);
    var ba := Step(cfg, Step(cfg, m, b.input, b.now), a.input, a.now);
    forall sid ensures Lookup(ab, sid) == Lookup(ba, sid) {
      StepIsLocal(cfg, m, a.input, a.now, sid);
      StepIsLocal(cfg, m, b.input, b.now, sid);
      StepIsLocal(cfg, Step(cfg, m, a.input, a.now), b.input, b.now, sid);
      StepIsLocal(cfg, Step(cfg, m, b.input, b.now), a.input, a.now, sid);
      assert Foreign(sid, a.input) || Foreign(sid, b.input);
    }
    SameLookups(ab, ba);
  }

  /** Two ticks at one instant are one tick, over the whole store. */
  lemma TickAllIdempotent(cfg: Config, m: Sessions, now: Time)
    requires Sane(cfg)
    ensures TickAll(cfg, TickAll(cfg, m, now), now) == TickAll(cfg, m, now)
  {
    var t := TickAll(cfg, m, now);
    forall k | k in t ensures TickRow(cfg, t[k], now) == Some(t[k]) {
      NothingOverdue(cfg, m[k], now);
      TimelyIsFixed(cfg, t[k], now);
    }
  }

  /** A store some run of the daemon reaches by the time `now`. */
  ghost predicate Reachable(cfg: Config, m: Sessions, now: Time) {
    exists start: Time, tr: seq<Timed> ::
      0.0 <= start && Ordered(start, tr) && Clock(start, tr) <= now && m == RunAll(cfg, map[], tr)
  }

  /** A session is filed under its own, non-empty id. */
  ghost predicate Filed(m: Sessions) {
    forall k :: k in m ==> k != "" && m[k].sid == k
  }

  lemma DispatchKeepsId(s: Row, hook: Hook, now: Time, agent: string)
    ensures Dispatch(s, hook, now, agent).sid == s.sid
  {
  }

  lemma TickKeepsId(cfg: Config, s: Row, now: Time)
    ensures TickRow(cfg, s, now).Some? ==> TickRow(cfg, s, now).value.sid == s.sid
  {
    assert Retire(cfg, s, now).sid == s.sid;
    assert Opening(cfg, s, now).sid == s.sid;
  }

  lemma StepKeepsFiled(cfg: Config, m: Sessions, input: Input, now: Time)
    requires Filed(m)
    ensures Filed(Step(cfg, m, input, now))
  {
    match input
    case Hooked(ev, proc) => DispatchKeepsId(Admit(cfg, Lookup(m, ev.sid), ev, proc, now), ev.hook, now, ev.agent);
    case Status(st) =>
    case Exited(who) =>
    case Tick => forall k | k in m { TickKeepsId(cfg, m[k], now); }
  }

  lemma {:induction false} RunKeepsFiled(cfg: Config, m: Sessions, tr: seq<Timed>)
    requires Filed(m)
    ensures Filed(RunAll(cfg, m, tr))
    decreases |tr|
  {
    if tr != [] {
      RunKeepsFiled(cfg, m, Front(tr));
      StepKeepsFiled(cfg, RunAll(cfg, m, Front(tr)), Last(tr).input, Last(tr).now);
    }
  }

  /** Every session of every reachable store has its bookkeeping in order. */
  lemma ReachableInv(cfg: Config, m: Sessions, now: Time)
    requires Reachable(cfg, m, now)
    ensures Filed(m) && forall k :: k in m ==> Inv(cfg, now, m[k])
  {
    var start: Time, tr: seq<Timed> :|
      0.0 <= start && Ordered(start, tr) && Clock(start, tr) <= now && m == RunAll(cfg, map[], tr);
    RunKeepsFiled(cfg, map[], tr);
    forall k | k in m ensures Inv(cfg, now, m[k]) {
      StoreIsProduct(cfg, map[], tr, k);
      RunKeepsInv(cfg, k, start, None, tr);
      assert Lookup(m, k) == Some(m[k]);
    }
  }
}
