/** Which sessions a request to forget names, which are watched, and how labels are cut. */
module Selection {
  import opened Basics
  import opened Machine

  function Filter<T>(xs: seq<T>, keep: T -> bool): (ys: seq<T>)
  {
    if xs == [] then []
    else (if keep(xs[0]) then [xs[0]] else []) + Filter(xs[1..], keep)
  }

  const WIDTH := 16
  const HEAD := 9
  const TAIL := 5

  /** A label fitted to the display by cutting its middle. */
  function Elide(title: string): (e: string) {
    if |title| <= WIDTH then title
    else title[..HEAD] + ".." + title[|title| - TAIL..]
  }

  predicate NamedById(r: Row, key: string) {
    |key| >= 4 && key <= r.sid
  }

  predicate NamedByLabel(r: Row, key: string) {
    key == r.about.title || key == Elide(r.about.title)
  }

  /** The live sessions a key names, `key` being already stripped of blanks. */
  function Hits(rows: seq<Row>, key: string): seq<Row> {
    if key == "" then []
    else
      var live := Filter(rows, (r: Row) => !r.state.Ended?);
      var hits := Filter(live, (r: Row) => NamedById(r, key));
      if hits == [] then Filter(live, (r: Row) => NamedByLabel(r, key)) else hits
  }

  lemma FilterMembers<T>(xs: seq<T>, keep: T -> bool)
    ensures forall y :: y in Filter(xs, keep) <==> y in xs && keep(y)
  {
  }

  /** Position `i` is the only one that satisfies `keep`. */
  ghost predicate OnlyAt<T>(xs: seq<T>, keep: T -> bool, i: int) {
    0 <= i < |xs| && keep(xs[i]) && forall j :: 0 <= j < |xs| && j != i ==> !keep(xs[j])
  }

  lemma {:induction false} FilterNone<T>(xs: seq<T>, keep: T -> bool)
    ensures |Filter(xs, keep)| == 0 <==> forall j :: 0 <= j < |xs| ==> !keep(xs[j])
  {
    if xs != [] {
      FilterNone(xs[1..], keep);
      assert forall j :: 0 < j < |xs| ==> xs[j] == xs[1..][j - 1];
      assert forall j :: 0 <= j < |xs| - 1 ==> xs[1..][j] == xs[j + 1];
    }
  }

  lemma {:induction false} FilterOne<T>(xs: seq<T>, keep: T -> bool)
    ensures |Filter(xs, keep)| == 1 <==> exists i :: OnlyAt(xs, keep, i)
    ensures forall i :: OnlyAt(xs, keep, i) ==> Filter(xs, keep) == [xs[i]]
  {
    if xs != [] {
      var rest := xs[1..];
      FilterNone(rest, keep);
      FilterOne(rest, keep);
      assert forall j :: 0 < j < |xs| ==> xs[j] == rest[j - 1];
      assert forall j :: 0 <= j < |rest| ==> rest[j] == xs[j + 1];
      if keep(xs[0]) {
        if |Filter(xs, keep)| == 1 { assert OnlyAt(xs, keep, 0); }
        forall i | OnlyAt(xs, keep, i) ensures Filter(xs, keep) == [xs[i]] {
          assert i == 0;
          assert Filter(rest, keep) == [];
        }
      } else {
        forall i | OnlyAt(rest, keep, i) ensures OnlyAt(xs, keep, i + 1) {}
        forall i | OnlyAt(xs, keep, i) ensures OnlyAt(rest, keep, i - 1) {}
      }
    }
  }

  /** The session's id starts with the key, which is at least four characters long. */
  predicate IdStarts(r: Row, key: string) {
    !r.state.Ended? && |key| >= 4 && key <= r.sid
  }

  /** The key is the session's label, in full or as the display shows it. */
  predicate LabelIs(r: Row, key: string) {
    !r.state.Ended? && (key == r.about.title || (|r.about.title| > 16 && key == Shortened(r.about.title)))
  }

  function Shortened(title: string): string
    requires |title| > 16
  {
    title[..9] + ".." + title[|title| - 5..]
  }

  /** The candidates are live, and are exactly the sessions the key names: those whose id it starts,
      if there is one, and else those whose label it is. An empty key names nobody. */
  lemma HitsAreLive(rows: seq<Row>, key: string)
    ensures forall h :: h in Hits(rows, key) ==> h in rows && !h.state.Ended?
    ensures forall h :: h in Hits(rows, key) <==>
      h in rows && key != "" && if exists r :: r in rows && IdStarts(r, key) then IdStarts(h, key) else LabelIs(h, key)
  {
    var live := Filter(rows, (r: Row) => !r.state.Ended?);
    FilterMembers(rows, (r: Row) => !r.state.Ended?);
    FilterMembers(live, (r: Row) => NamedById(r, key));
    FilterMembers(live, (r: Row) => NamedByLabel(r, key));
    var byId := Filter(live, (r: Row) => NamedById(r, key));
    assert forall r :: r in byId <==> r in rows && IdStarts(r, key);
    if byId != [] { assert byId[0] in byId; }
  }

  lemma {:induction false} FilterFilter<T>(xs: seq<T>, first: T -> bool, second: T -> bool, both: T -> bool)
    requires forall x :: x in xs ==> both(x) == (first(x) && second(x))
    ensures Filter(Filter(xs, first), second) == Filter(xs, both)
  {
    if xs != [] {
      assert xs[0] in xs && forall x :: x in xs[1..] ==> x in xs;
      FilterFilter(xs[1..], first, second, both);
      if first(xs[0]) {
        assert Filter(xs, first)[0] == xs[0] && Filter(xs, first)[1..] == Filter(xs[1..], first);
      } else {
        assert Filter(xs, first) == Filter(xs[1..], first);
      }
    }
  }

  /** A key ends a session exactly when it singles one live session out, by id if any live id
      has it as a prefix and by label otherwise. */
  lemma ForgetNeedsOneMatch(rows: seq<Row>, key: string, byId: Row -> bool, byLabel: Row -> bool)
    requires forall r :: byId(r) == IdStarts(r, key)
    requires forall r :: byLabel(r) == LabelIs(r, key)
    ensures |Hits(rows, key)| == 1 <==>
        && key != ""
        && if exists j :: 0 <= j < |rows| && byId(rows[j])
           then exists i :: OnlyAt(rows, byId, i)
           else exists i :: OnlyAt(rows, byLabel, i)
  {
    var live := (r: Row) => !r.state.Ended?;
    FilterFilter(rows, live, (r: Row) => NamedById(r, key), byId);
    FilterFilter(rows, live, (r: Row) => NamedByLabel(r, key), byLabel);
    FilterNone(rows, byId);
    FilterOne(rows, byId);
    FilterOne(rows, byLabel);
  }

  /** The cut never exceeds the display, and labels it touches are told apart by either end. */
  lemma ElideKeepsBothEnds(a: string, b: string)
    ensures |Elide(a)| <= 16 && (|a| <= 16 ==> Elide(a) == a) && (|a| > 16 ==> Elide(a) == Shortened(a))
    ensures |a| > WIDTH && |b| > WIDTH ==>
      (Elide(a) == Elide(b) <==> a[..HEAD] == b[..HEAD] && a[|a| - TAIL..] == b[|b| - TAIL..])
  {
    if |a| > WIDTH && |b| > WIDTH && Elide(a) == Elide(b) {
      assert a[..HEAD] == Elide(a)[..HEAD] && b[..HEAD] == Elide(b)[..HEAD];
      assert a[|a| - TAIL..] == Elide(a)[HEAD + 2..] && b[|b| - TAIL..] == Elide(b)[HEAD + 2..];
    }
  }

  /** The sessions whose process is known and that have not ended. */
  function WatchedRows(m: map<string, Row>): map<string, Proc> {
    map k | k in m && m[k].pid != 0 && !m[k].state.Ended? :: Proc(m[k].pid, m[k].pidCreated)
  }

  /** Asked about are exactly the sessions with a known process that have not ended, each with it. */
  lemma WatchedAreLive(m: map<string, Row>, k: string)
    ensures k in WatchedRows(m) <==> k in m && m[k].pid != 0 && m[k].state != Ended
    ensures k in WatchedRows(m) ==> WatchedRows(m)[k] == Proc(m[k].pid, m[k].pidCreated)
  {
  }
}
