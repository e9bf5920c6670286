/** What the display is sent: the most urgent sessions first, and totals over all of them. */
module Snapshot {
  import opened Basics
  import opened Machine

  /** Display priority: lower sorts first. */
  function Priority(st: State): nat {
    match st
    case NeedsInput => 0
    case NeedsHeld => 1
    case Error => 2
    case NeedsLook => 3
    case Working => 4
    case Waiting => 5
    case Stale => 6
    case Starting => 7
    case Idle => 8
    case Ended => 9
  }

  /** The sort key of `a` is not after that of `b`. */
  predicate KeyLeq(a: Row, b: Row) {
    Priority(a.state) < Priority(b.state) ||
    (Priority(a.state) == Priority(b.state) && a.stateSince <= b.stateSince)
  }

  /** The place of one more session, the last of the dictionary, among those already sorted. */
  function Insert(sorted: seq<Row>, r: Row): seq<Row>
    decreases |sorted|
  {
    if sorted == [] || KeyLeq(Last(sorted), r) then sorted + [r]
    else Insert(Front(sorted), r) + [Last(sorted)]
  }

  /** `sorted(…)`: by priority and age, ties in dictionary order. */
  function Sorted(rows: seq<Row>): seq<Row>
    decreases |rows|
  {
    if rows == [] then [] else Insert(Sorted(Front(rows)), Last(rows))
  }

  /** Python's `xs[:n]`. */
  function Slice<T>(xs: seq<T>, n: int): seq<T> {
    if n >= |xs| then xs
    else if n >= 0 then xs[..n]
    else if |xs| + n >= 0 then xs[..|xs| + n]
    else []
  }

  function TotalCost(rows: seq<Row>): real
    decreases |rows|
  {
    if rows == [] then 0.0 else TotalCost(Front(rows)) + Last(rows).about.cost.GetOr(0.0)
  }

  datatype Snap = Snap(n: nat, sel: int, shown: seq<Row>, cost: Option<real>)

  function Take(cfg: Config, rows: seq<Row>): Snap {
    var live := Sorted(rows);
    var shown := Slice(live, cfg.maxRows);
    Snap(|live|, if shown != [] then 0 else -1, shown,
         if exists i :: 0 <= i < |live| && live[i].about.cost.Some? then Some(TotalCost(live)) else None)
  }

  // ---- the order ----

  /** `p` names each index below `n` exactly once. */
  ghost predicate Permutation(p: seq<nat>, n: nat) {
    && |p| == n
    && (forall i :: 0 <= i < n ==> p[i] < n)
    && (forall v: nat :: v < n ==> v in p)
    && (forall i, j :: 0 <= i < j < n ==> p[i] != p[j])
  }

  /** Strictly before: by priority, then by age, then by place in the dictionary. */
  ghost predicate Before(rows: seq<Row>, i: nat, j: nat)
    requires i < |rows| && j < |rows|
  {
    KeyLeq(rows[i], rows[j]) && (KeyLeq(rows[j], rows[i]) ==> i < j)
  }

  /** `out` is `rows` rearranged by the permutation `p` into strictly increasing order. */
  ghost predicate StableSort(rows: seq<Row>, out: seq<Row>, p: seq<nat>) {
    && Permutation(p, |rows|) && |out| == |rows|
    && (forall i :: 0 <= i < |out| ==> out[i] == rows[p[i]])
    && (forall i, j :: 0 <= i < j < |out| ==> Before(rows, p[i], p[j]))
  }

  /** Where each session of `Insert(sorted, r)` came from, `n` being the newcomer's index. */
  ghost function InsertOrder(sorted: seq<Row>, r: Row, p: seq<nat>, n: nat): seq<nat>
    requires |p| == |sorted|
    decreases |sorted|
  {
    if sorted == [] || KeyLeq(Last(sorted), r) then p + [n]
    else InsertOrder(Front(sorted), r, Front(p), n) + [Last(p)]
  }

  ghost function Order(rows: seq<Row>): (p: seq<nat>)
    ensures |p| == |rows| == |Sorted(rows)|
    decreases |rows|
  {
    if rows == [] then []
    else
      InsertLength(Sorted(Front(rows)), Last(rows), Order(Front(rows)), |rows| - 1);
      InsertOrder(Sorted(Front(rows)), Last(rows), Order(Front(rows)), |rows| - 1)
  }

  lemma {:induction false} InsertLength(sorted: seq<Row>, r: Row, p: seq<nat>, n: nat)
    requires |p| == |sorted|
    ensures |InsertOrder(sorted, r, p, n)| == |Insert(sorted, r)| == |sorted| + 1
    decreases |sorted|
  {
    if sorted != [] { InsertLength(Front(sorted), r, Front(p), n); }
  }

  /** `s` with `x` put in at position `k`. */
  function Splice<T>(s: seq<T>, k: nat, x: T): (t: seq<T>)
    requires k <= |s|
    ensures |t| == |s| + 1
    ensures forall i :: 0 <= i < |t| ==> t[i] == (if i < k then s[i] else if i == k then x else s[i - 1])
  {
    s[..k] + [x] + s[k..]
  }

  lemma SpliceFront<T>(s: seq<T>, k: nat, x: T)
    requires k < |s|
    ensures Splice(s, k, x) == Splice(Front(s), k, x) + [Last(s)]
  {
  }

  ghost function InsertAt(sorted: seq<Row>, r: Row): (k: nat)
    ensures k <= |sorted|
    decreases |sorted|
  {
    if sorted == [] || KeyLeq(Last(sorted), r) then |sorted| else InsertAt(Front(sorted), r)
  }

  /** The newcomer goes in at `InsertAt`. */
  lemma {:induction false} InsertIsSplice(sorted: seq<Row>, r: Row, p: seq<nat>, n: nat)
    requires |p| == |sorted|
    ensures Insert(sorted, r) == Splice(sorted, InsertAt(sorted, r), r)
    ensures InsertOrder(sorted, r, p, n) == Splice(p, InsertAt(sorted, r), n)
    decreases |sorted|
  {
    if sorted == [] || KeyLeq(Last(sorted), r) {
      assert Splice(sorted, |sorted|, r) == sorted + [r] && Splice(p, |sorted|, n) == p + [n];
    } else {
      InsertIsSplice(Front(sorted), r, Front(p), n);
      SpliceFront(sorted, InsertAt(sorted, r), r);
      SpliceFront(p, InsertAt(sorted, r), n);
    }
  }

  /** That is behind everything not after it and ahead of the rest. */
  lemma {:induction false} InsertAtSplits(sorted: seq<Row>, r: Row)
    requires forall i, j :: 0 <= i < j < |sorted| ==> KeyLeq(sorted[i], sorted[j])
    ensures forall i :: 0 <= i < InsertAt(sorted, r) ==> KeyLeq(sorted[i], r)
    ensures forall i :: InsertAt(sorted, r) <= i < |sorted| ==> !KeyLeq(sorted[i], r)
    decreases |sorted|
  {
    if sorted != [] && !KeyLeq(Last(sorted), r) {
      InsertAtSplits(Front(sorted), r);
      assert forall i :: 0 <= i < |sorted| - 1 ==> Front(sorted)[i] == sorted[i];
    }
  }

  lemma {:induction false} SortedIsStable(rows: seq<Row>)
    ensures StableSort(rows, Sorted(rows), Order(rows))
    decreases |rows|
  {
    if rows != [] {
      var front, r, n := Front(rows), Last(rows), |rows| - 1;
      SortedIsStable(front);
      var sorted, p := Sorted(front), Order(front);
      InsertIsSplice(sorted, r, p, n);
      forall i, j | 0 <= i < j < |sorted| ensures KeyLeq(sorted[i], sorted[j]) {
        assert Before(front, p[i], p[j]);
      }
      InsertAtSplits(sorted, r);
      PlacedIsStable(rows, sorted, p, InsertAt(sorted, r));
    }
  }

  lemma SpliceMembers(p: seq<nat>, n: nat, k: nat, v: nat)
    requires k <= |p|
    ensures v in Splice(p, k, n) <==> v in p || v == n
  {
    var q := Splice(p, k, n);
    assert q[k] == n;
    if i :| 0 <= i < |p| && p[i] == v { assert q[if i < k then i else i + 1] == v; }
  }

  lemma SplicePermutation(p: seq<nat>, n: nat, k: nat)
    requires Permutation(p, n) && k <= n
    ensures Permutation(Splice(p, k, n), n + 1)
  {
    forall v: nat | v < n + 1 ensures v in Splice(p, k, n) { SpliceMembers(p, n, k, v); }
  }

  lemma SpliceOrdered(rows: seq<Row>, sorted: seq<Row>, p: seq<nat>, k: nat, i: nat, j: nat)
    requires rows != [] && StableSort(Front(rows), sorted, p) && k <= |sorted|
    requires forall i :: 0 <= i < k ==> KeyLeq(sorted[i], Last(rows))
    requires forall i :: k <= i < |sorted| ==> !KeyLeq(sorted[i], Last(rows))
    requires i < j < |rows|
    ensures var q := Splice(p, k, |rows| - 1); q[i] < |rows| && q[j] < |rows| && Before(rows, q[i], q[j])
  {
    if i != k && j != k {
      assert Before(Front(rows), p[if i < k then i else i - 1], p[if j < k then j else j - 1]);
    } else if i == k {
      assert rows[p[j - 1]] == sorted[j - 1];
    } else {
      assert rows[p[i]] == sorted[i];
    }
  }

  lemma SpliceValues(rows: seq<Row>, sorted: seq<Row>, p: seq<nat>, k: nat, i: nat)
    requires rows != [] && StableSort(Front(rows), sorted, p) && k <= |sorted| && i < |rows|
    ensures var q := Splice(p, k, |rows| - 1); q[i] < |rows| && Splice(sorted, k, Last(rows))[i] == rows[q[i]]
  {
    if i != k { assert sorted[if i < k then i else i - 1] == Front(rows)[p[if i < k then i else i - 1]]; }
  }

  lemma PlacedIsStable(rows: seq<Row>, sorted: seq<Row>, p: seq<nat>, k: nat)
    requires rows != [] && StableSort(Front(rows), sorted, p) && k <= |sorted|
    requires forall i :: 0 <= i < k ==> KeyLeq(sorted[i], Last(rows))
    requires forall i :: k <= i < |sorted| ==> !KeyLeq(sorted[i], Last(rows))
    ensures StableSort(rows, Splice(sorted, k, Last(rows)), Splice(p, k, |rows| - 1))
  {
    SplicePermutation(p, |rows| - 1, k);
    var out, q := Splice(sorted, k, Last(rows)), Splice(p, k, |rows| - 1);
    forall i | 0 <= i < |out| ensures out[i] == rows[q[i]] { SpliceValues(rows, sorted, p, k, i); }
    forall i, j | 0 <= i < j < |out| ensures Before(rows, q[i], q[j]) { SpliceOrdered(rows, sorted, p, k, i, j); }
  }

  lemma {:induction false} SameOrder(rows: seq<Row>, a: seq<Row>, p: seq<nat>, b: seq<Row>, q: seq<nat>, n: nat)
    requires StableSort(rows, a, p) && StableSort(rows, b, q) && n <= |rows|
    ensures p[..n] == q[..n]
  {
    if n > 0 {
      var i := n - 1;
      SameOrder(rows, a, p, b, q, i);
      assert forall j :: 0 <= j < i ==> p[..i][j] == p[j] && q[..i][j] == q[j];
      assert q[i] in p && p[i] in q;
      var x :| 0 <= x < |p| && p[x] == q[i];
      var y :| 0 <= y < |q| && q[y] == p[i];
      assert x >= i && y >= i;
      assert p[..n] == p[..i] + [p[i]] && q[..n] == q[..i] + [q[i]];
    }
  }

  /** The stable order is the only one: any stable sort of the sessions is `Sorted`. */
  lemma StableSortUnique(rows: seq<Row>, out: seq<Row>, p: seq<nat>)
    requires StableSort(rows, out, p)
    ensures out == Sorted(rows)
  {
    SortedIsStable(rows);
    SameOrder(rows, out, p, Sorted(rows), Order(rows), |rows|);
    assert p == p[..|rows|] && Order(rows) == Order(rows)[..|rows|];
  }

  // ---- what is shown and what is hidden ----

  lemma {:induction false} InsertCost(sorted: seq<Row>, r: Row)
    ensures TotalCost(Insert(sorted, r)) == TotalCost(sorted) + r.about.cost.GetOr(0.0)
    decreases |sorted|
  {
    if sorted == [] || KeyLeq(Last(sorted), r) {
      assert Front(sorted + [r]) == sorted;
    } else {
      InsertCost(Front(sorted), r);
      assert Front(Insert(sorted, r)) == Insert(Front(sorted), r);
    }
  }

  lemma {:induction false} SortedCost(rows: seq<Row>)
    ensures TotalCost(Sorted(rows)) == TotalCost(rows)
    decreases |rows|
  {
    if rows != [] {
      SortedCost(Front(rows));
      InsertCost(Sorted(Front(rows)), Last(rows));
    }
  }

  lemma SortedMembers(rows: seq<Row>)
    ensures forall r :: r in Sorted(rows) <==> r in rows
  {
    SortedIsStable(rows);
    var live, p := Sorted(rows), Order(rows);
    forall r | r in rows ensures r in live {
      var v :| 0 <= v < |rows| && rows[v] == r;
      assert v in p;
      var i :| 0 <= i < |p| && p[i] == v;
      assert live[i] == r;
    }
    forall r | r in live ensures r in rows {
      var i :| 0 <= i < |live| && live[i] == r;
      assert rows[p[i]] in rows;
    }
  }

  /** The states from the most urgent down, as the display ranks them. */
  const URGENCY: seq<State> :=
    [NeedsInput, NeedsHeld, Error, NeedsLook, Working, Waiting, Stale, Starting, Idle, Ended]

  /** Ranked before it, or in the same state and there for at least as long. */
  ghost predicate AtLeastAsUrgent(a: Row, b: Row) {
    || (exists i, j :: 0 <= i < j < |URGENCY| && URGENCY[i] == a.state && URGENCY[j] == b.state)
    || (a.state == b.state && a.stateSince <= b.stateSince)
  }

  lemma KeyRanks(a: Row, b: Row)
    ensures KeyLeq(a, b) <==> AtLeastAsUrgent(a, b)
  {
    assert URGENCY[Priority(a.state)] == a.state && URGENCY[Priority(b.state)] == b.state;
    forall k | 0 <= k < |URGENCY| ensures Priority(URGENCY[k]) == k {}
  }

  /** The rows shown are the first of the one stable order, and no hidden session is more
      urgent than a shown one. */
  lemma ShownAreUrgent(cfg: Config, rows: seq<Row>, i: nat, j: nat)
    requires i < |Take(cfg, rows).shown| <= j < |rows|
    ensures |Sorted(rows)| == |rows| && Take(cfg, rows).shown == Slice(Sorted(rows), cfg.maxRows)
    ensures Take(cfg, rows).shown[i] == Sorted(rows)[i] && AtLeastAsUrgent(Sorted(rows)[i], Sorted(rows)[j])
    ensures Sorted(rows)[j].state.Working? ==>
      Take(cfg, rows).shown[i].state !in {Waiting, Stale, Starting, Idle, Ended}
    ensures Sorted(rows)[j].state.NeedsLook? ==>
      Take(cfg, rows).shown[i].state in {NeedsInput, NeedsHeld, Error, NeedsLook}
    ensures Sorted(rows)[j].state in {NeedsInput, NeedsHeld} ==>
      Take(cfg, rows).shown[i].state in {NeedsInput, NeedsHeld}
  {
    SortedIsStable(rows);
    assert Before(rows, Order(rows)[i], Order(rows)[j]);
    KeyRanks(Sorted(rows)[i], Sorted(rows)[j]);
  }

  /** The count and the cost cover every session, hidden ones too. */
  lemma TotalsCoverAll(cfg: Config, rows: seq<Row>)
    ensures var snap := Take(cfg, rows);
      && snap.n == |rows|
      && |snap.shown| == (if |rows| <= cfg.maxRows then |rows|
                          else if 0 <= cfg.maxRows then cfg.maxRows
                          else if 0 <= |rows| + cfg.maxRows then |rows| + cfg.maxRows else 0)
      && (snap.sel == 0 <==> snap.shown != [])
      && (snap.cost.Some? <==> exists r :: r in rows && r.about.cost.Some?)
      && (snap.cost.Some? ==> snap.cost.value == TotalCost(rows))
  {
    var live := Sorted(rows);
    assert |live| == |rows| by { SortedIsStable(rows); }
    SliceLength(live, cfg.maxRows);
    SortedCost(rows);
    CostIsKnown(rows);
    assert Take(cfg, rows).cost.Some? <==> AnyCost(live);
  }

  lemma SliceLength<T>(xs: seq<T>, n: int)
    ensures |Slice(xs, n)| == (if |xs| <= n then |xs| else if 0 <= n then n else if 0 <= |xs| + n then |xs| + n else 0)
  {
  }

  /** The total is the sum of the known costs: nothing for no session, each its own, and additive. */
  lemma {:induction false} CostIsTheSum(r: Row, a: seq<Row>, b: seq<Row>)
    ensures TotalCost([]) == 0.0 && TotalCost([r]) == r.about.cost.GetOr(0.0)
    ensures TotalCost(a + b) == TotalCost(a) + TotalCost(b)
    decreases |b|
  {
    assert Front([r]) == [];
    if b == [] {
      assert a + b == a;
    } else {
      CostIsTheSum(r, a, Front(b));
      assert Front(a + b) == a + Front(b) && Last(a + b) == Last(b);
    }
  }

  ghost predicate AnyCost(rows: seq<Row>) {
    exists i :: 0 <= i < |rows| && rows[i].about.cost.Some?
  }

  /** Whether any cost is known depends on which sessions there are, not on their order. */
  lemma SameMembersSameCost(live: seq<Row>, rows: seq<Row>)
    requires forall r :: r in live ==> r in rows
    ensures AnyCost(live) ==> AnyCost(rows)
  {
    if AnyCost(live) {
      var i :| 0 <= i < |live| && live[i].about.cost.Some?;
      assert live[i] in rows;
      var j :| 0 <= j < |rows| && rows[j] == live[i];
    }
  }

  lemma CostIsKnown(rows: seq<Row>)
    ensures AnyCost(Sorted(rows)) <==> exists r :: r in rows && r.about.cost.Some?
  {
    SortedMembers(rows);
    SameMembersSameCost(Sorted(rows), rows);
    SameMembersSameCost(rows, Sorted(rows));
    if AnyCost(rows) {
      var i :| 0 <= i < |rows| && rows[i].about.cost.Some?;
      assert rows[i] in rows;
    }
  }
}
