/** What the background lists of a payload count. */
module Background {
  import opened Basics
  import opened Machine

  // ---- what is meant ----

  /** Listed as a task, with a status that says it goes on or with none, and not the one to leave out. */
  predicate Live(t: TaskEntry, exclude: string) {
    && t.Task? && t.status in {Missing, Text("running"), Text("pending")}
    && (exclude == "" || t.id != Text(exclude))
  }

  const COUNTED: set<Field> := {Text("subagent")}
  const ENDLESS: set<Field> := {Text("monitor"), Text("dream"), Text("auto-mode scan")}

  /** Where on the list the subagents in flight stand. */
  ghost function Subagents(es: seq<TaskEntry>, exclude: string): set<nat> {
    set i: nat | i < |es| && Live(es[i], exclude) && es[i].kind in COUNTED
  }

  /** Where the work that never ends stands. */
  ghost function Endless(es: seq<TaskEntry>, exclude: string): set<nat> {
    set i: nat | i < |es| && Live(es[i], exclude) && es[i].kind in ENDLESS
  }

  /** Where all other work in flight stands, that of unknown kinds and of none included. */
  ghost function Others(es: seq<TaskEntry>, exclude: string): set<nat> {
    set i: nat | i < |es| && Live(es[i], exclude) && es[i].kind !in COUNTED + ENDLESS
  }

  // ---- counting ----

  ghost function Positions(es: seq<TaskEntry>, keep: TaskEntry -> bool): set<nat> {
    set i: nat | i < |es| && keep(es[i])
  }

  ghost function Shift(s: set<nat>): set<nat> {
    set i | i in s :: i + 1
  }

  lemma {:induction false} ShiftKeepsSize(s: set<nat>)
    ensures |Shift(s)| == |s|
    decreases |s|
  {
    if s == {} {
      assert Shift(s) == {};
    } else {
      var x :| x in s;
      ShiftKeepsSize(s - {x});
      assert x + 1 !in Shift(s - {x});
      forall i ensures i in Shift(s) <==> i in Shift(s - {x}) || i == x + 1 {
        if i in Shift(s) && i != x + 1 { assert i - 1 in s - {x}; }
      }
      assert Shift(s) == Shift(s - {x}) + {x + 1};
    }
  }

  lemma PositionsOfRest(es: seq<TaskEntry>, keep: TaskEntry -> bool)
    requires es != []
    ensures |Positions(es, keep)| == (if keep(es[0]) then 1 else 0) + |Positions(es[1..], keep)|
  {
    var rest, first := Positions(es[1..], keep), if keep(es[0]) then {0} else {};
    forall i | i in Positions(es, keep) ensures i in Shift(rest) + first {
      if i > 0 { assert i - 1 in rest && (i - 1) + 1 in Shift(rest); }
    }
    assert Positions(es, keep) == Shift(rest) + first;
    ShiftKeepsSize(rest);
  }

  lemma {:induction false} CountIsSize(es: seq<TaskEntry>, keep: TaskEntry -> bool)
    ensures Count(es, keep) == |Positions(es, keep)|
  {
    if es != [] {
      CountIsSize(es[1..], keep);
      PositionsOfRest(es, keep);
    }
  }

  /** The counts are the numbers of subagents and of other tasks on the list, wherever they stand;
      a list that is absent or malformed counts none. */
  lemma CountsAreSizes(es: seq<TaskEntry>, exclude: string)
    ensures RunningTasks(Tasks(es), exclude) == |Subagents(es, exclude)|
    ensures UntrackedTasks(Tasks(es), exclude) == |Others(es, exclude)|
    ensures RunningTasks(NoTasks, exclude) == RunningTasks(BadTasks, exclude) == 0
    ensures UntrackedTasks(NoTasks, exclude) == UntrackedTasks(BadTasks, exclude) == 0
  {
    CountIsSize(es, t => InFlight(t, exclude) && IsSubagent(t));
    CountIsSize(es, t => InFlight(t, exclude) && !IsSubagent(t) && !NeverFinishes(t));
    assert Positions(es, t => InFlight(t, exclude) && IsSubagent(t)) == Subagents(es, exclude);
    assert Positions(es, t => InFlight(t, exclude) && !IsSubagent(t) && !NeverFinishes(t)) == Others(es, exclude);
  }

  /** Every task in flight is counted once: as a subagent, as other work, or as one that never ends. */
  lemma TasksCountedOnce(es: seq<TaskEntry>, exclude: string)
    ensures |set i: nat | i < |es| && Live(es[i], exclude)|
         == RunningTasks(Tasks(es), exclude) + UntrackedTasks(Tasks(es), exclude) + |Endless(es, exclude)|
  {
    CountsAreSizes(es, exclude);
    assert (set i: nat | i < |es| && Live(es[i], exclude))
        == Subagents(es, exclude) + Others(es, exclude) + Endless(es, exclude);
    assert Subagents(es, exclude) !! Others(es, exclude);
    assert Subagents(es, exclude) + Others(es, exclude) !! Endless(es, exclude);
  }

  /** The tasks among `places` that carry this id. */
  ghost function Named(es: seq<TaskEntry>, places: set<nat>, agent: string): set<nat> {
    set i | i in places && i < |es| && es[i].Task? && es[i].id == Text(agent)
  }

  lemma LiveUnlessNamed(es: seq<TaskEntry>, agent: string)
    requires agent != ""
    ensures Subagents(es, agent) == Subagents(es, "") - Named(es, Subagents(es, ""), agent)
    ensures Others(es, agent) == Others(es, "") - Named(es, Others(es, ""), agent)
  {
    assert forall i: nat :: i < |es| ==> (Live(es[i], agent) <==> Live(es[i], "") && es[i].id != Text(agent));
  }

  lemma SizeWithout(all: set<nat>, gone: set<nat>)
    requires gone <= all
    ensures |all - gone| == |all| - |gone|
  {
    assert all == (all - gone) + gone;
  }

  /** Excluding an agent drops exactly the live entries that carry its id from either count. */
  lemma ExcludingDropsOneAgent(es: seq<TaskEntry>, agent: string)
    requires agent != ""
    ensures RunningTasks(Tasks(es), agent) == RunningTasks(Tasks(es), "") - |Named(es, Subagents(es, ""), agent)|
    ensures UntrackedTasks(Tasks(es), agent) == UntrackedTasks(Tasks(es), "") - |Named(es, Others(es, ""), agent)|
  {
    CountsAreSizes(es, agent);
    CountsAreSizes(es, "");
    LiveUnlessNamed(es, agent);
    SizeWithout(Subagents(es, ""), Named(es, Subagents(es, ""), agent));
    SizeWithout(Others(es, ""), Named(es, Others(es, ""), agent));
  }
}
