/** Which process owns a session, and whether it is certainly gone. */
module ProcWatch {
  import opened Basics
  import M = Machine
  import opened Invariants
  import opened Product
  import opened Selection
  import opened Store
  import opened Ticks

  const MAX_DEPTH := 8

  datatype Entry = Entry(parent: int, image: string)

  /** A snapshot of the process table, and the creation time of a process if it can be read. */
  datatype Processes = Processes(table: map<int, Entry>, created: map<int, Time>)

  datatype Owner = Owner(pid: int, created: Time, chain: seq<string>)

  // ---- the walk up from the hook ----

  /** `parent` is believed to have started `pid`: it is not `pid` itself, both creation times
      are known, and it is not the younger of the two. */
  predicate StartedBy(ps: Processes, pid: int, parent: int) {
    && pid in ps.table && ps.table[pid].parent == parent
    && parent in ps.table && parent != pid
    && parent in ps.created && pid in ps.created && ps.created[parent] <= ps.created[pid]
  }

  /** The owner found from `pid` in at most `depth` steps up, `chain` being the images so far. */
  function Walk(ps: Processes, isSession: string -> bool, pid: int, chain: seq<string>, depth: nat): Option<Owner>
    decreases depth
  {
    if depth == 0 || pid !in ps.table then None
    else
      var parent := ps.table[pid].parent;
      if !StartedBy(ps, pid, parent) then None
      else if isSession(ps.table[parent].image)
      then Some(Owner(parent, ps.created[parent], chain + [ps.table[parent].image]))
      else Walk(ps, isSession, parent, chain + [ps.table[parent].image], depth - 1)
  }

  method FindOwner(ps: Processes, isSession: string -> bool, peer: Option<int>) returns (owner: Option<Owner>)
    ensures owner == if peer.Some? && peer.value in ps.table
                     then Walk(ps, isSession, peer.value, [ps.table[peer.value].image], MAX_DEPTH)
                     else None
  {
    if peer.None? || peer.value !in ps.table {
      return None;
    }
    var pid := peer.value;
    var chain := [ps.table[pid].image];
    var childCreated := Lookup(ps.created, pid);
    var cur := pid;
    for step := 0 to MAX_DEPTH
      invariant cur in ps.table && childCreated == Lookup(ps.created, cur)
      invariant Walk(ps, isSession, pid, [ps.table[pid].image], MAX_DEPTH)
             == Walk(ps, isSession, cur, chain, MAX_DEPTH - step)
    {
      var parent := ps.table[cur].parent;
      if parent !in ps.table || parent == cur {
        return None;
      }
      var parentCreated := Lookup(ps.created, parent);
      if parentCreated.None? || childCreated.None? || parentCreated.value > childCreated.value {
        return None;
      }
      var name := ps.table[parent].image;
      chain := chain + [name];
      if isSession(name) {
        return Some(Owner(parent, parentCreated.value, chain));
      }
      cur, childCreated := parent, parentCreated;
    }
    return None;
  }

  /** The table says that `parent` started `child`, both creation times can be read, and a PID that was
      handed out again since is ruled out: no process is older than the one that started it. */
  ghost predicate Begot(ps: Processes, parent: int, child: int) {
    && child in ps.table && parent in ps.table && child != parent && ps.table[child].parent == parent
    && Lookup(ps.created, child).Some? && Lookup(ps.created, parent).Some?
    && !(Lookup(ps.created, child).value < Lookup(ps.created, parent).value)
  }

  /** `line` is a chain of processes, each started by the next, from `pid` up. */
  ghost predicate Ancestry(ps: Processes, pid: int, line: seq<int>) {
    && line != [] && line[0] == pid
    && forall i :: 0 <= i < |line| - 1 ==> Begot(ps, line[i + 1], line[i])
  }

  /** The images of these processes. */
  ghost function Images(ps: Processes, line: seq<int>): seq<string> {
    seq(|line|, i requires 0 <= i < |line| => if line[i] in ps.table then ps.table[line[i]].image else "")
  }

  predicate RunsSession(ps: Processes, isSession: string -> bool, pid: int) {
    pid in ps.table && isSession(ps.table[pid].image)
  }

  /** The last of `line` is the first session image above `pid`. */
  ghost predicate NearestSession(ps: Processes, isSession: string -> bool, pid: int, line: seq<int>) {
    && Ancestry(ps, pid, line) && 2 <= |line|
    && RunsSession(ps, isSession, Last(line))
    && forall i :: 1 <= i < |line| - 1 ==> !RunsSession(ps, isSession, line[i])
  }

  lemma {:induction false} WalkFinds(ps: Processes, isSession: string -> bool, pid: int, chain: seq<string>, depth: nat)
    returns (line: seq<int>)
    requires Walk(ps, isSession, pid, chain, depth).Some?
    ensures NearestSession(ps, isSession, pid, line) && |line| <= depth + 1
    ensures var o := Walk(ps, isSession, pid, chain, depth).value;
      && o.pid == Last(line) && Lookup(ps.created, Last(line)) == Some(o.created)
      && o.chain == chain + Images(ps, line[1..])
    decreases depth
  {
    var parent := ps.table[pid].parent;
    if isSession(ps.table[parent].image) {
      line := [pid, parent];
      assert Images(ps, line[1..]) == [ps.table[parent].image];
    } else {
      var above := WalkFinds(ps, isSession, parent, chain + [ps.table[parent].image], depth - 1);
      line := [pid] + above;
      assert Last(line) == Last(above) && line[1..] == above;
      assert Images(ps, above) == [ps.table[parent].image] + Images(ps, above[1..]);
      forall i | 0 <= i < |line| - 1 ensures Begot(ps, line[i + 1], line[i]) {
        if i > 0 { assert Begot(ps, above[i], above[i - 1]); }
      }
      forall i | 1 <= i < |line| - 1 ensures !RunsSession(ps, isSession, line[i]) {
        if i > 1 { assert !RunsSession(ps, isSession, above[i - 1]); }
      }
    }
  }

  lemma {:induction false} WalkMisses(ps: Processes, isSession: string -> bool, pid: int,
      chain: seq<string>, depth: nat, line: seq<int>)
    requires NearestSession(ps, isSession, pid, line) && |line| <= depth + 1
    ensures var o := Walk(ps, isSession, pid, chain, depth);
      && o.Some? && o.value.pid == Last(line) && Lookup(ps.created, Last(line)) == Some(o.value.created)
      && o.value.chain == chain + Images(ps, line[1..])
    decreases depth
  {
    assert Begot(ps, line[1], line[0]);
    if |line| == 2 {
      assert Images(ps, line[1..]) == [ps.table[line[1]].image];
    } else {
      var above := line[1..];
      assert Last(above) == Last(line);
      assert Images(ps, above) == [ps.table[line[1]].image] + Images(ps, above[1..]);
      forall i | 0 <= i < |above| - 1 ensures Begot(ps, above[i + 1], above[i]) {
        assert Begot(ps, line[i + 2], line[i + 1]);
      }
      WalkMisses(ps, isSession, line[1], chain + [ps.table[line[1]].image], depth - 1, above);
    }
  }

  /** The walk names a process exactly when it is the nearest session image above the hook, within
      MAX_DEPTH steps, along a chain in which no parent is younger than its child, with the images on the
      way. */
  lemma WalkIsNearest(ps: Processes, isSession: string -> bool, pid: int, chain: seq<string>, found: Owner)
    ensures Walk(ps, isSession, pid, chain, MAX_DEPTH) == Some(found) <==>
      exists line: seq<int> ::
        && NearestSession(ps, isSession, pid, line) && |line| <= 9
        && Last(line) == found.pid && Lookup(ps.created, found.pid) == Some(found.created)
        && found.chain == chain + Images(ps, line[1..])
  {
    var o := Walk(ps, isSession, pid, chain, MAX_DEPTH);
    if o.Some? { var line := WalkFinds(ps, isSession, pid, chain, MAX_DEPTH); }
    forall line: seq<int> | NearestSession(ps, isSession, pid, line) && |line| <= 9
      ensures o.Some? && o.value.pid == Last(line) && Lookup(ps.created, Last(line)) == Some(o.value.created)
      ensures o.value.chain == chain + Images(ps, line[1..])
    {
      WalkMisses(ps, isSession, pid, chain, MAX_DEPTH, line);
    }
  }

  // ---- liveness ----

  const STILL_ACTIVE := 259

  /** What the operating system answers about a PID. */
  datatype Answer =
    | CannotOpen(invalid: bool)  // `invalid` when it says there is no such PID
    | Opened(exitCode: Option<int>, created: Option<Time>)
    | Failed                     // not Windows, or the query itself failed

  /** True, False, or None when it cannot be told. */
  function Alive(pid: int, created: Time, answer: Answer): Option<bool> {
    if pid <= 0 || answer.Failed? then None
    else
      match answer
      case CannotOpen(invalid) => if invalid then Some(false) else None
      case Opened(None, _) => None
      case Opened(Some(code), seen) =>
        if code != STILL_ACTIVE then Some(false)
        else if seen.None? then None
        else Some(-0.001 < seen.value - created < 0.001)
  }

  /** A process as the operating system knows it: `exitCode` is None while it runs. */
  datatype Process = Process(created: Time, exitCode: Option<int>)

  /** The answers the operating system may give about `pid` when `os` holds its processes. A
      running process reports the code 259; access may be denied and any query may fail. */
  predicate Honest(os: map<int, Process>, pid: int, answer: Answer) {
    match answer
    case Failed => true
    case CannotOpen(invalid) => invalid ==> pid !in os
    case Opened(code, seen) =>
      && pid in os
      && (code.Some? ==> code.value == os[pid].exitCode.GetOr(259))
      && (seen.Some? ==> seen.value == os[pid].created)
  }

  /** The process created at `created` under this PID is still running. */
  predicate Running(os: map<int, Process>, p: M.Proc) {
    p.pid in os && os[p.pid].exitCode.None? && os[p.pid].created == p.created
  }

  /** Not there, replaced, or exited with another code than the one that means still active. */
  predicate Dead(os: map<int, Process>, p: M.Proc) {
    || p.pid !in os
    || os[p.pid].exitCode.GetOr(259) != 259
    || !(-0.001 < os[p.pid].created - p.created < 0.001)
  }

  /** Nothing was hidden from the question. */
  predicate Answered(answer: Answer) {
    match answer
    case Failed => false
    case CannotOpen(invalid) => invalid
    case Opened(code, seen) => code.Some? && seen.Some?
  }

  /** "Gone" is never said of a process that runs; and an operating system that hides nothing gets
      "gone" said of exactly the processes that are dead. */
  lemma GoneIsCertain(os: map<int, Process>, p: M.Proc, answer: Answer)
    requires Honest(os, p.pid, answer)
    ensures Alive(p.pid, p.created, answer) == Some(false) ==> !Running(os, p)
    ensures p.pid > 0 && Answered(answer) ==> (Alive(p.pid, p.created, answer) == Some(false) <==> Dead(os, p))
  {
  }

  /** The store after the liveness poll, given what the operating system answered about each session. */
  function Polled(m: Sessions, answers: map<string, Answer>, now: Time): Sessions {
    map k | k in m ::
      if k in WatchedRows(m) && k in answers && Alive(m[k].pid, m[k].pidCreated, answers[k]) == Some(false)
      then M.Exit(m[k], now) else m[k]
  }

  /** What asking about `sid` does to the store. */
  function Asked(m: Sessions, sid: string, p: M.Proc, answers: map<string, Answer>, now: Time): Sessions {
    if sid in answers && Alive(p.pid, p.created, answers[sid]) == Some(false) && sid in m
    then m[sid := M.Exit(m[sid], now)] else m
  }

  method Ask(store: SessionStore, sid: string, p: M.Proc, answers: map<string, Answer>, now: Time)
    requires store.Valid()
    modifies store.sessions.Values
    ensures store.Valid() && store.sessions == old(store.sessions)
    ensures store.View() == Asked(old(store.View()), sid, p, answers, now)
  {
    if sid in answers && Alive(p.pid, p.created, answers[sid]) == Some(false) {
      var _ := store.ProcessGone(sid, now);
    }
  }

  /** The poll of the main loop: each watched session is asked about, and ended only on a definite "gone". */
  method PollLiveness(store: SessionStore, answers: map<string, Answer>, now: Time)
    requires store.Valid()
    modifies store.sessions.Values
    ensures store.Valid()
    ensures store.View() == Polled(old(store.View()), answers, now)
  {
    var watched := store.Watched();
    PollBegins(store.View(), answers, now);
    PollWatched(store, store.View(), watched, answers, now);
  }

  method PollWatched(store: SessionStore, ghost was: Sessions, watched: map<string, M.Proc>,
      answers: map<string, Answer>, now: Time)
    requires store.Valid() && watched == WatchedRows(was)
    requires PollProgress(was, store.View(), watched.Keys, answers, now)
    modifies store.sessions.Values
    ensures store.Valid() && store.View() == Polled(was, answers, now)
  {
    var left := watched.Keys;
    while left != {}
      invariant store.Valid() && store.sessions == old(store.sessions)
      invariant left <= watched.Keys && PollProgress(was, store.View(), left, answers, now)
      decreases left
    {
      var sid :| sid in left;
      PollProgresses(was, store.View(), left, answers, now, sid);
      Ask(store, sid, watched[sid], answers, now);
      left := left - {sid};
    }
    PollEnds(was, store.View(), left, answers, now);
  }

  /** All watched sessions but those in `left` have been asked about. */
  ghost predicate PollProgress(was: Sessions, m: Sessions, left: set<string>, answers: map<string, Answer>, now: Time) {
    m.Keys == was.Keys && forall k :: k in was ==> m[k] == if k in left then was[k] else Polled(was, answers, now)[k]
  }

  lemma PollBegins(was: Sessions, answers: map<string, Answer>, now: Time)
    ensures PollProgress(was, was, WatchedRows(was).Keys, answers, now)
  {
  }

  lemma PollProgresses(was: Sessions, m: Sessions, left: set<string>, answers: map<string, Answer>, now: Time,
      sid: string)
    requires sid in left && sid in WatchedRows(was) && PollProgress(was, m, left, answers, now)
    ensures PollProgress(was, Asked(m, sid, WatchedRows(was)[sid], answers, now), left - {sid}, answers, now)
  {
  }

  lemma PollEnds(was: Sessions, m: Sessions, left: set<string>, answers: map<string, Answer>, now: Time)
    requires left == {} && PollProgress(was, m, left, answers, now)
    ensures m == Polled(was, answers, now)
  {
  }

  lemma PollSparesTheLiving(m: Sessions, answers: map<string, Answer>, os: map<int, Process>, now: Time, k: string)
    requires k in m ==> Accompanied(os, m[k], k, answers)
    ensures Lookup(Polled(m, answers, now), k) == Lookup(m, k)
  {
    if k in m && k in answers { GoneIsCertain(os, M.Proc(m[k].pid, m[k].pidCreated), answers[k]); }
  }

  /** The recorded process runs, or none is recorded, and what was answered about it is true. */
  predicate Accompanied(os: map<int, Process>, s: M.Row, k: string, answers: map<string, Answer>) {
    && (k in answers ==> Honest(os, s.pid, answers[k]))
    && (Running(os, M.Proc(s.pid, s.pidCreated)) || s.pid == 0)
  }

  /** One thing the daemon handles: an input, or a poll against the processes of that moment. */
  datatype Moment =
    | Given(timed: M.Timed)
    | Poll(os: map<int, Process>, answers: map<string, Answer>, now: Time)

  /** The store after a history of inputs and polls. */
  function Lived(cfg: M.Config, m: Sessions, history: seq<Moment>): Sessions
    decreases |history|
  {
    if history == [] then m
    else
      var before := Lived(cfg, m, Front(history));
      match Last(history)
      case Given(timed) => Step(cfg, before, timed.input, timed.now)
      case Poll(_, answers, now) => Polled(before, answers, now)
  }

  /** The history without its polls. */
  function Inputs(history: seq<Moment>): seq<M.Timed>
    decreases |history|
  {
    if history == [] then []
    else Inputs(Front(history)) + if Last(history).Given? then [Last(history).timed] else []
  }

  /** At every poll the process that the inputs alone recorded for the session runs, or there is none. */
  ghost predicate LivesOn(cfg: M.Config, k: string, o: Option<M.Row>, history: seq<Moment>)
    decreases |history|
  {
    history == [] ||
    (LivesOn(cfg, k, o, Front(history)) &&
     match Last(history)
     case Given(_) => true
     case Poll(os, answers, _) =>
       var before := M.Run(cfg, k, o, Inputs(Front(history)));
       before.Some? ==> Accompanied(os, before.value, k, answers))
  }

  /**
   Along any history of inputs and polls, each poll against its own process table, a session whose
   recorded process ran at every poll is what its inputs alone make of it: the polls are invisible,
   whatever processes came and went elsewhere, PIDs reused included.
   */
  lemma {:induction false} PollsAreInvisible(cfg: M.Config, k: string, m: Sessions, history: seq<Moment>)
    requires LivesOn(cfg, k, Lookup(m, k), history)
    ensures Lookup(Lived(cfg, m, history), k) == M.Run(cfg, k, Lookup(m, k), Inputs(history))
    decreases |history|
  {
    if history != [] {
      PollsAreInvisible(cfg, k, m, Front(history));
      var before, given := Lived(cfg, m, Front(history)), Inputs(history);
      match Last(history)
      case Given(timed) =>
        StepIsLocal(cfg, before, timed.input, timed.now, k);
        assert Front(given) == Inputs(Front(history)) && Last(given) == timed;
      case Poll(os, answers, now) =>
        assert given == Inputs(Front(history));
        PollSparesTheLiving(before, answers, os, now, k);
    }
  }

  // ---- a killed session ----

  lemma PollLeavesEnded(m: Sessions, answers: map<string, Answer>, now: Time, k: string)
    requires k in m ==> m[k].state.Ended?
    ensures Lookup(Polled(m, answers, now), k) == Lookup(m, k)
  {
  }

  /** A session that has ended is left to the clock, whatever else happens and however often it is polled. */
  lemma {:induction false} EndedIsLeft(cfg: M.Config, m: Sessions, history: seq<Moment>, k: string)
    requires (k in m ==> m[k].state.Ended?) && Silent(k, Inputs(history))
    ensures Lookup(Lived(cfg, m, history), k) == M.Run(cfg, k, Lookup(m, k), Inputs(history))
    ensures k in Lived(cfg, m, history) ==> Lived(cfg, m, history)[k].state.Ended?
    decreases |history|
  {
    if history != [] {
      var before, given, front := Lived(cfg, m, Front(history)), Inputs(history), Inputs(Front(history));
      match Last(history)
      case Given(timed) =>
        assert given == front + [timed];
        assert Silent(k, front) && Foreign(k, timed.input) by {
          assert forall i :: 0 <= i < |front| ==> front[i] == given[i];
          assert given[|front|] == timed;
        }
        EndedIsLeft(cfg, m, Front(history), k);
        StepIsLocal(cfg, before, timed.input, timed.now, k);
        assert Front(given) == front && Last(given) == timed;
      case Poll(os, answers, now) =>
        assert given == front;
        EndedIsLeft(cfg, m, Front(history), k);
        PollLeavesEnded(before, answers, now, k);
    }
  }

  /**
   A killed session is gone soon: once one poll of a dead process was answered in full, and nothing
   more is heard from the session, it has left the store after the grace period and one tick,
   whatever other sessions and later polls do.
   */
  lemma KilledSessionGoes(cfg: M.Config, m: Sessions, k: string, os: map<int, Process>, answers: map<string, Answer>,
      at: Time, history: seq<Moment>, gap: Time)
    requires M.Sane(cfg) && 0.0 <= gap && k in m && Inv(cfg, at, m[k]) && !m[k].state.Ended? && m[k].pid > 0
    requires k in answers && Honest(os, m[k].pid, answers[k]) && Answered(answers[k])
    requires Dead(os, M.Proc(m[k].pid, m[k].pidCreated))
    requires M.Ordered(at, Inputs(history)) && M.Ticking(at, Inputs(history), gap) && Silent(k, Inputs(history))
    requires M.Clock(at, Inputs(history)) > at + cfg.endedGrace + gap
    ensures k !in Lived(cfg, Polled(m, answers, at), history)
  {
    var p, ended := M.Proc(m[k].pid, m[k].pidCreated), M.Exit(m[k], at);
    var polled := Polled(m, answers, at);
    GoneIsCertain(os, p, answers[k]);
    assert Lookup(polled, k) == Some(ended);
    EndedIsLeft(cfg, polled, history, k);
    SilenceRemoves(cfg, k, at, ended, Inputs(history), gap);
    assert Lookup(Lived(cfg, polled, history), k) == None;
  }
}
