/** A hand-arranged task list: how it is sorted, what a drop in it plans, and the
    move the vault then makes (crates/sunrise-domain/src/task_order.rs,
    crates/sunrise-client-core/src/task_order.rs, crates/sunrise-core/src/engine/task_order.rs). */
module ManualOrder {
  import opened Wrappers
  import opened Sequences
  import opened SortOrder

  type Id = nat

  /** One row as a list shows it; `None` for a task nobody has placed. */
  datatype Row = Row(id: Id, key: Option<string>)

  predicate Placed(row: Row) { row.key.Some? }

  predicate Unplaced(row: Row) { row.key.None? }

  function Ids(rows: seq<Row>): seq<Id> {
    Map(rows, (r: Row) => r.id)
  }

  lemma {:induction false} IdsConcat(a: seq<Row>, b: seq<Row>)
    ensures Ids(a + b) == Ids(a) + Ids(b)
  {
  }

  // ---- The order a list is shown in ----

  /** By key, and by id where two keys are equal. */
  predicate PlacedBefore(a: Row, b: Row)
    requires a.key.Some? && b.key.Some?
  {
    Less(a.key.value, b.key.value) || (a.key == b.key && a.id < b.id)
  }

  function Insert(row: Row, sorted: seq<Row>): seq<Row>
    requires row.key.Some? && forall r | r in sorted :: r.key.Some?
  {
    if sorted == [] || PlacedBefore(row, sorted[0]) then [row] + sorted
    else [sorted[0]] + Insert(row, sorted[1..])
  }

  function SortPlaced(rows: seq<Row>): (sorted: seq<Row>)
    requires forall r | r in rows :: r.key.Some?
    ensures forall r :: r in sorted <==> r in rows
    ensures |sorted| == |rows|
  {
    if rows == [] then []
    else
      var tail := SortPlaced(rows[1..]);
      InsertKeeps(rows[0], tail);
      Insert(rows[0], tail)
  }

  lemma {:induction false} InsertKeeps(row: Row, sorted: seq<Row>)
    requires row.key.Some? && forall r | r in sorted :: r.key.Some?
    ensures forall r :: r in Insert(row, sorted) <==> r == row || r in sorted
    ensures |Insert(row, sorted)| == |sorted| + 1
  {
    if sorted != [] && !PlacedBefore(row, sorted[0]) {
      InsertKeeps(row, sorted[1..]);
    }
  }

  /** Placed rows first, sorted; then the unplaced, in the order the list already had. */
  function ShowManually(rows: seq<Row>): seq<Row> {
    SortPlaced(Filter(rows, Placed)) + Filter(rows, Unplaced)
  }

  ghost predicate RowsInOrder(a: Row, b: Row) {
    && (a.key.None? ==> b.key.None?)
    && (a.key.Some? && b.key.Some? ==> PlacedBefore(a, b))
  }

  ghost predicate InManualOrder(rows: seq<Row>) {
    forall i, j | 0 <= i < j < |rows| :: RowsInOrder(rows[i], rows[j])
  }

  lemma {:induction false} PlacedBeforeIsAnOrder(a: Row, b: Row, c: Row)
    requires a.key.Some? && b.key.Some? && c.key.Some?
    ensures !PlacedBefore(a, a) && !(PlacedBefore(a, b) && PlacedBefore(b, a))
    ensures PlacedBefore(a, b) && PlacedBefore(b, c) ==> PlacedBefore(a, c)
    ensures PlacedBefore(a, b) || PlacedBefore(b, a) || a.id == b.id
  {
    LessIsTotal(a.key.value, b.key.value);
    LessIsTotal(b.key.value, c.key.value);
    if Less(a.key.value, b.key.value) && Less(b.key.value, c.key.value) {
      LessIsTransitive(a.key.value, b.key.value, c.key.value);
    }
  }

  ghost predicate SortedPlaced(rows: seq<Row>) {
    (forall r | r in rows :: r.key.Some?) && InManualOrder(rows)
  }

  /** A key appears on one row: ids are unique in a list. */
  ghost predicate OneRowPerId(rows: seq<Row>) {
    forall i, j | 0 <= i < j < |rows| :: rows[i].id != rows[j].id
  }

  lemma {:induction false} InsertSorts(row: Row, sorted: seq<Row>)
    requires row.key.Some? && SortedPlaced(sorted)
    requires forall r | r in sorted :: r.id != row.id
    ensures SortedPlaced(Insert(row, sorted))
  {
    InsertKeeps(row, sorted);
    if sorted != [] {
      PlacedBeforeIsAnOrder(row, sorted[0], row);
      if PlacedBefore(row, sorted[0]) {
        forall j | 0 <= j < |sorted|
          ensures PlacedBefore(row, sorted[j])
        {
          if j > 0 {
            assert RowsInOrder(sorted[0], sorted[j]);
            PlacedBeforeIsAnOrder(row, sorted[0], sorted[j]);
          }
        }
      } else {
        InsertSorts(row, sorted[1..]);
        var rest := Insert(row, sorted[1..]);
        forall j | 0 <= j < |rest|
          ensures RowsInOrder(sorted[0], rest[j])
        {
          assert rest[j] in rest;
          InsertKeeps(row, sorted[1..]);
          if rest[j] != row {
            var k :| 0 <= k < |sorted[1..]| && sorted[1..][k] == rest[j];
            assert RowsInOrder(sorted[0], sorted[k + 1]);
          }
        }
        assert Insert(row, sorted) == [sorted[0]] + rest;
      }
    }
  }

  lemma {:induction false} SortPlacedSorts(rows: seq<Row>)
    requires OneRowPerId(rows) && forall r | r in rows :: r.key.Some?
    ensures SortedPlaced(SortPlaced(rows))
  {
    if rows != [] {
      SortPlacedSorts(rows[1..]);
      var tail := SortPlaced(rows[1..]);
      forall r | r in tail
        ensures r.id != rows[0].id
      {
        var k :| 0 <= k < |rows[1..]| && rows[1..][k] == r;
        assert rows[k + 1] == r;
      }
      InsertSorts(rows[0], tail);
    }
  }

  /** Two sorted arrangements of the same placed rows are the same arrangement. */
  lemma {:induction false} SortedIsUnique(a: seq<Row>, b: seq<Row>)
    requires SortedPlaced(a) && SortedPlaced(b)
    requires forall r :: r in a <==> r in b
    ensures a == b
  {
    if b != [] {
      assert b[0] in a;
    }
    if a != [] {
      assert a[0] in b;
      HeadIsLeast(a, b[0]);
      HeadIsLeast(b, a[0]);
      if a[0] != b[0] {
        PlacedBeforeIsAnOrder(a[0], b[0], a[0]);
      }
      forall r
        ensures r in a[1..] <==> r in b[1..]
      {
        HeadDoesNotRecur(a);
        HeadDoesNotRecur(b);
        assert r in a <==> r == a[0] || r in a[1..];
        assert r in b <==> r == b[0] || r in b[1..];
      }
      SortedIsUnique(a[1..], b[1..]);
      assert a == [a[0]] + a[1..] && b == [b[0]] + b[1..];
    }
  }

  lemma {:induction false} HeadIsLeast(a: seq<Row>, r: Row)
    requires SortedPlaced(a) && r in a
    ensures a[0] == r || PlacedBefore(a[0], r)
  {
    var k :| 0 <= k < |a| && a[k] == r;
    if k > 0 {
      assert RowsInOrder(a[0], a[k]);
    }
  }

  lemma {:induction false} HeadDoesNotRecur(a: seq<Row>)
    requires SortedPlaced(a) && a != []
    ensures a[0] !in a[1..]
  {
    if a[0] in a[1..] {
      var k :| 0 <= k < |a[1..]| && a[1..][k] == a[0];
      assert RowsInOrder(a[0], a[k + 1]);
      PlacedBeforeIsAnOrder(a[0], a[0], a[0]);
    }
  }

  /** What a list in manual order is: the only arrangement of the same rows that
      is in order and keeps the unplaced where they were. */
  lemma {:induction false} ManualOrderIsUnique(base: seq<Row>, shown: seq<Row>)
    requires OneRowPerId(base) && InManualOrder(shown)
    requires forall r :: r in shown <==> r in base
    requires Filter(shown, Unplaced) == Filter(base, Unplaced)
    ensures shown == ShowManually(base)
  {
    PlacedThenUnplaced(shown);
    var p, q := Filter(shown, Placed), Filter(base, Placed);
    var at := FilterIndices(shown, Placed);
    assert SortedPlaced(p);
    var bt := FilterIndices(base, Placed);
    assert OneRowPerId(q);
    SortPlacedSorts(q);
    SortedIsUnique(p, SortPlaced(q));
  }

  lemma {:induction false} PlacedThenUnplaced(rows: seq<Row>)
    requires InManualOrder(rows)
    ensures rows == Filter(rows, Placed) + Filter(rows, Unplaced)
  {
    if rows != [] {
      if rows[0].key.None? {
        assert forall r | r in rows :: r.key.None? by {
          forall r | r in rows
            ensures r.key.None?
          {
            var k :| 0 <= k < |rows| && rows[k] == r;
            assert k > 0 ==> RowsInOrder(rows[0], rows[k]);
          }
        }
        FilterNone(rows, Placed);
        FilterAll(rows, Unplaced);
      } else {
        PlacedThenUnplaced(rows[1..]);
      }
    }
  }

  lemma {:induction false} ShownIsInManualOrder(base: seq<Row>)
    requires OneRowPerId(base)
    ensures InManualOrder(ShowManually(base)) && OneRowPerId(ShowManually(base))
    ensures forall r :: r in ShowManually(base) <==> r in base
    ensures Filter(ShowManually(base), Unplaced) == Filter(base, Unplaced)
  {
    var q, u := Filter(base, Placed), Filter(base, Unplaced);
    var qt := FilterIndices(base, Placed);
    var ut := FilterIndices(base, Unplaced);
    assert OneRowPerId(q) && OneRowPerId(u);
    SortPlacedSorts(q);
    var sorted := SortPlaced(q);
    UnplacedOfBoth(sorted, u);
    SortedThenUnplaced(sorted, u);
    SortedHasOneRowPerId(base, sorted);
    BothHaveOneRowPerId(base, sorted, u);
  }

  lemma {:induction false} UnplacedOfBoth(sorted: seq<Row>, u: seq<Row>)
    requires (forall r | r in sorted :: r.key.Some?) && (forall r | r in u :: r.key.None?)
    ensures Filter(sorted + u, Unplaced) == u
  {
    FilterConcat(sorted, u, Unplaced);
    FilterNone(sorted, Unplaced);
    FilterAll(u, Unplaced);
  }

  lemma {:induction false} BothHaveOneRowPerId(base: seq<Row>, sorted: seq<Row>, u: seq<Row>)
    requires OneRowPerId(base) && OneRowPerId(sorted) && OneRowPerId(u)
    requires (forall r | r in sorted :: r in base && r.key.Some?) && (forall r | r in u :: r in base && r.key.None?)
    ensures OneRowPerId(sorted + u)
  {
    forall i, j | 0 <= i < |sorted| && 0 <= j < |u|
      ensures sorted[i].id != u[j].id
    {
      assert sorted[i] in base && u[j] in base;
    }
  }

  lemma {:induction false} SortedThenUnplaced(sorted: seq<Row>, u: seq<Row>)
    requires SortedPlaced(sorted) && forall r | r in u :: r.key.None?
    ensures InManualOrder(sorted + u)
  {
  }

  lemma {:induction false} SortedHasOneRowPerId(base: seq<Row>, sorted: seq<Row>)
    requires SortedPlaced(sorted) && OneRowPerId(base) && forall r | r in sorted :: r in base
    ensures OneRowPerId(sorted)
  {
    forall i, j | 0 <= i < j < |sorted|
      ensures sorted[i].id != sorted[j].id
    {
      if sorted[i].id == sorted[j].id {
        assert sorted[i] in base && sorted[j] in base;
        assert RowsInOrder(sorted[i], sorted[j]);
        PlacedBeforeIsAnOrder(sorted[i], sorted[j], sorted[i]);
      }
    }
  }
}
