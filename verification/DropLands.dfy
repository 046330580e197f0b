/** What a drop does to a list, end to end: plan it, move the tasks, show the
    list again, and it is the list the drop asked for. */
module DropLands {
  import opened Wrappers
  import opened Sequences
  import opened SortOrder
  import opened ManualOrder
  import opened DropPlan
  import opened TaskVault

  function RowAt(tasks: Tasks, id: Id): Row {
    Row(id, if id in tasks then tasks[id].key else None)
  }

  function RowsOf(tasks: Tasks, ids: seq<Id>): (rows: seq<Row>)
    ensures |rows| == |ids| && forall i | 0 <= i < |ids| :: rows[i] == RowAt(tasks, ids[i])
  {
    Map(ids, (id: Id) => RowAt(tasks, id))
  }

  /** The list a query shows: `base` is the order it had before the manual sort. */
  function Shown(tasks: Tasks, base: seq<Id>): seq<Row> {
    ShowManually(RowsOf(tasks, base))
  }

  lemma {:induction false} RowWithId(rows: seq<Row>, id: Id) returns (row: Row)
    requires id in Ids(rows)
    ensures row in rows && row.id == id
  {
    var k :| 0 <= k < |rows| && Ids(rows)[k] == id;
    row := rows[k];
  }

  lemma {:induction false} IdOfMember(rows: seq<Row>, row: Row)
    requires row in rows
    ensures row.id in Ids(rows)
  {
    var k :| 0 <= k < |rows| && rows[k] == row;
    assert Ids(rows)[k] == row.id;
  }

  lemma {:induction false} RowsOfMembers(tasks: Tasks, ids: seq<Id>, row: Row)
    ensures row in RowsOf(tasks, ids) <==> row.id in ids && row == RowAt(tasks, row.id)
  {
    if row.id in ids && row == RowAt(tasks, row.id) {
      var k :| 0 <= k < |ids| && ids[k] == row.id;
      assert RowsOf(tasks, ids)[k] == row;
    }
  }

  /** The tasks a list query reads: each once, and live. */
  ghost predicate Listed(tasks: Tasks, base: seq<Id>) {
    Distinct(base) && forall id | id in base :: LiveTask(tasks, id).Ok?
  }

  // ---- What a cut guarantees ----

  ghost predicate CrossOrder(a: seq<Row>, b: seq<Row>) {
    forall i, j | 0 <= i < |a| && 0 <= j < |b| :: RowsInOrder(a[i], b[j])
  }

  ghost predicate Apart(a: seq<Row>, b: seq<Row>) {
    forall i, j | 0 <= i < |a| && 0 <= j < |b| :: a[i].id != b[j].id
  }

  ghost predicate WellCut(cut: Cut) {
    && (forall r | r in cut.above :: r.key.Some?)
    && InManualOrder(cut.above) && InManualOrder(cut.below) && CrossOrder(cut.above, cut.below)
    && OneRowPerId(cut.Moving())
    && Apart(cut.above, cut.Moving()) && Apart(cut.Moving(), cut.below)
    && (cut.Ceiling().None? ==> forall r | r in cut.below :: r.key.None?)
    && (cut.Ceiling().Some? && cut.Floor().Some? ==> Less(KeyOf(cut.Floor()).value, KeyOf(cut.Ceiling()).value))
  }

  lemma {:induction false} RestAndDragged(list: seq<Row>, moved: seq<Id>)
    requires InManualOrder(list) && OneRowPerId(list)
    ensures InManualOrder(Rest(list, moved)) && OneRowPerId(Rest(list, moved))
    ensures OneRowPerId(Dragged(list, moved)) && Apart(Rest(list, moved), Dragged(list, moved))
  {
    var rt := FilterIndices(list, (r: Row) => r.id !in moved);
    var dt := FilterIndices(list, (r: Row) => r.id in moved);
    var rest, dragged := Rest(list, moved), Dragged(list, moved);
    forall i, j | 0 <= i < |rest| && 0 <= j < |dragged|
      ensures rest[i].id != dragged[j].id
    {
      assert rest[i] in rest && dragged[j] in dragged;
    }
  }

  lemma {:induction false} OrderOfPieces(a: seq<Row>, l: seq<Row>, t: seq<Row>, b: seq<Row>)
    requires InManualOrder(a + l + t + b)
    ensures InManualOrder(a) && InManualOrder(b) && CrossOrder(a, b) && CrossOrder(l, b)
  {
    var rest := a + l + t + b;
    assert forall i | 0 <= i < |a| :: a[i] == rest[i];
    assert forall i | 0 <= i < |l| :: l[i] == rest[|a| + i];
    assert forall i | 0 <= i < |b| :: b[i] == rest[|a| + |l| + |t| + i];
  }

  lemma {:induction false} IdsOfPieces(a: seq<Row>, l: seq<Row>, d: seq<Row>, t: seq<Row>, b: seq<Row>)
    requires OneRowPerId(a + l + t + b) && OneRowPerId(d) && Apart(a + l + t + b, d)
    ensures OneRowPerId(l + d + t) && Apart(a, l + d + t) && Apart(l + d + t, b)
  {
    var rest := a + l + t + b;
    assert forall i | 0 <= i < |a| :: a[i] == rest[i];
    assert forall i | 0 <= i < |l| :: l[i] == rest[|a| + i];
    assert forall i | 0 <= i < |t| :: t[i] == rest[|a| + |l| + i];
    assert forall i | 0 <= i < |b| :: b[i] == rest[|a| + |l| + |t| + i];
    assert Apart(a, d) && Apart(l, d) && Apart(t, d) && Apart(b, d);
    assert Apart(a, l) && Apart(a, t) && Apart(l, t) && Apart(l, b) && Apart(t, b);
    assert OneRowPerId(l) && OneRowPerId(t);
    ThreeApart(l, d, t);
  }

  lemma {:induction false} ThreeApart(l: seq<Row>, d: seq<Row>, t: seq<Row>)
    requires OneRowPerId(l) && OneRowPerId(d) && OneRowPerId(t)
    requires Apart(l, d) && Apart(l, t) && Apart(t, d)
    ensures OneRowPerId(l + d + t)
  {
  }

  lemma {:induction false} CutCovers(prefix: seq<Row>, dragged: seq<Row>, suffix: seq<Row>)
    ensures var cut := CutOf(prefix, dragged, suffix);
            && prefix == cut.above + cut.lead
            && suffix == cut.tied + cut.below
            && (forall r | r in cut.above :: r.key.Some?)
            && (cut.lead != [] ==> cut.lead[0].key.None? && cut.tied == [])
            && (cut.lead == [] && cut.below != [] ==>
                  cut.below[0].key.None? || Bounds(cut.below[0], KeyOf(cut.Floor())))
  {
  }

  lemma {:induction false} CutIsWellCut(prefix: seq<Row>, dragged: seq<Row>, suffix: seq<Row>)
    requires InManualOrder(prefix + suffix) && OneRowPerId(prefix + suffix)
    requires OneRowPerId(dragged) && Apart(prefix + suffix, dragged)
    ensures WellCut(CutOf(prefix, dragged, suffix))
  {
    CutCovers(prefix, dragged, suffix);
    var cut := CutOf(prefix, dragged, suffix);
    assert prefix + suffix == cut.above + cut.lead + cut.tied + cut.below;
    OrderOfPieces(cut.above, cut.lead, cut.tied, cut.below);
    IdsOfPieces(cut.above, cut.lead, dragged, cut.tied, cut.below);
    if cut.Ceiling().None? && cut.below != [] {
      // Either an unplaced row moves, and everything after it is unplaced, or the first row below is.
      forall i | 0 <= i < |cut.below|
        ensures cut.below[i].key.None?
      {
        if cut.lead != [] {
          assert RowsInOrder(cut.lead[0], cut.below[i]);
        } else if i > 0 {
          assert RowsInOrder(cut.below[0], cut.below[i]);
        }
      }
    }
  }

  // ---- The rearranged list is in order ----

  function WithKeys(rows: seq<Row>, keys: seq<string>): (out: seq<Row>)
    requires |rows| == |keys|
    ensures |out| == |rows| && forall i | 0 <= i < |out| :: out[i] == Row(rows[i].id, Some(keys[i]))
  {
    seq(|rows|, i requires 0 <= i < |rows| => Row(rows[i].id, Some(keys[i])))
  }

  lemma {:induction false} KeyedAfter(a: Row, floor: Row, m: Row)
    requires a.key.Some? && floor.key.Some? && m.key.Some?
    requires a == floor || PlacedBefore(a, floor)
    requires Less(floor.key.value, m.key.value)
    ensures PlacedBefore(a, m)
  {
    if a != floor && Less(a.key.value, floor.key.value) {
      LessIsTransitive(a.key.value, floor.key.value, m.key.value);
    }
  }

  lemma {:induction false} KeyedBefore(m: Row, ceiling: Row, b: Row)
    requires b.key.Some? && ceiling.key.Some? && m.key.Some?
    requires b == ceiling || PlacedBefore(ceiling, b)
    requires Less(m.key.value, ceiling.key.value)
    ensures PlacedBefore(m, b)
  {
    if b != ceiling && Less(ceiling.key.value, b.key.value) {
      LessIsTransitive(m.key.value, ceiling.key.value, b.key.value);
    }
  }

  lemma {:induction false} RearrangedIsInOrder(cut: Cut, keys: seq<string>)
    requires WellCut(cut) && |keys| == |cut.Moving()| && Ascending(keys)
    requires forall k | k in keys :: StrictlyInside(k, KeyOf(cut.Floor()), KeyOf(cut.Ceiling()))
    ensures InManualOrder(cut.above + WithKeys(cut.Moving(), keys) + cut.below)
  {
    var m := WithKeys(cut.Moving(), keys);
    forall i, j | 0 <= i < |cut.above| && 0 <= j < |m|
      ensures RowsInOrder(cut.above[i], m[j])
    {
      var last := |cut.above| - 1;
      assert keys[j] in keys && cut.above[i] in cut.above && cut.above[last] in cut.above;
      if i < last {
        assert RowsInOrder(cut.above[i], cut.above[last]);
      }
      KeyedAfter(cut.above[i], cut.above[last], m[j]);
    }
    forall i, j | 0 <= i < |m| && 0 <= j < |cut.below|
      ensures RowsInOrder(m[i], cut.below[j])
    {
      assert keys[i] in keys && cut.below[j] in cut.below;
      if cut.below[j].key.Some? {
        if j > 0 {
          assert RowsInOrder(cut.below[0], cut.below[j]);
        }
        KeyedBefore(m[i], cut.below[0], cut.below[j]);
      }
    }
    assert InManualOrder(m);
    JoinInOrder(cut.above, m, cut.below);
  }

  lemma {:induction false} JoinInOrder(a: seq<Row>, m: seq<Row>, b: seq<Row>)
    requires InManualOrder(a) && InManualOrder(m) && InManualOrder(b)
    requires CrossOrder(a, m) && CrossOrder(m, b) && CrossOrder(a, b)
    ensures InManualOrder(a + m + b)
  {
  }

  // ---- The unplaced rows keep their order ----

  function StillUnplaced(tasks: Tasks, ids: seq<Id>): seq<Id> {
    Filter(ids, (id: Id) => RowAt(tasks, id).key.None?)
  }

  lemma {:induction false} UnplacedRows(tasks: Tasks, ids: seq<Id>)
    ensures Filter(RowsOf(tasks, ids), Unplaced) == RowsOf(tasks, StillUnplaced(tasks, ids))
  {
    FilterOfMap(ids, (id: Id) => RowAt(tasks, id), Unplaced, (id: Id) => RowAt(tasks, id).key.None?);
  }

  lemma {:induction false} IdsOfRows(tasks: Tasks, ids: seq<Id>)
    ensures Ids(RowsOf(tasks, ids)) == ids
  {
  }

  /** Rows that agree with the vault: their unplaced ids are the vault's. */
  lemma {:induction false} UnplacedIdsOfRows(tasks: Tasks, rows: seq<Row>)
    requires forall r | r in rows :: r == RowAt(tasks, r.id)
    ensures StillUnplaced(tasks, Ids(rows)) == Ids(Filter(rows, Unplaced))
  {
    FilterOfMap(rows, (r: Row) => r.id, (id: Id) => RowAt(tasks, id).key.None?, Unplaced);
  }

  /** A move only places tasks, so what is unplaced afterwards was unplaced before. */
  lemma {:induction false} PlacingNarrows(before: Tasks, after: Tasks, ids: seq<Id>)
    requires forall id | id in ids && RowAt(after, id).key.None? :: RowAt(before, id).key.None?
    ensures StillUnplaced(after, StillUnplaced(before, ids)) == StillUnplaced(after, ids)
  {
    FilterTwice(ids, (id: Id) => RowAt(before, id).key.None?, (id: Id) => RowAt(after, id).key.None?);
  }

  lemma {:induction false} StillUnplacedConcat(tasks: Tasks, a: seq<Id>, b: seq<Id>)
    ensures StillUnplaced(tasks, a + b) == StillUnplaced(tasks, a) + StillUnplaced(tasks, b)
  {
    FilterConcat(a, b, (id: Id) => RowAt(tasks, id).key.None?);
  }

  lemma {:induction false} NonePlacedLeft(tasks: Tasks, ids: seq<Id>)
    requires forall id | id in ids :: RowAt(tasks, id).key.Some?
    ensures StillUnplaced(tasks, ids) == []
  {
    FilterNone(ids, (id: Id) => RowAt(tasks, id).key.None?);
  }

  /** Lifting the dragged rows out and putting them elsewhere does not disturb
      the rows still unplaced, when every dragged row is placed by the move. */
  lemma {:induction false} DraggingKeepsUnplaced(after: Tasks, list: seq<Row>, moved: seq<Id>, at: nat)
    requires at <= |Rest(list, moved)|
    requires forall r | r in Dragged(list, moved) :: RowAt(after, r.id).key.Some?
    ensures StillUnplaced(after, Ids(Intended(list, moved, at))) == StillUnplaced(after, Ids(list))
  {
    var rest, dragged := Rest(list, moved), Dragged(list, moved);
    DraggedIdsArePlaced(after, dragged);
    IdsOfDrop(rest, dragged, at);
    InsertingPlaced(after, Ids(rest[..at]), Ids(dragged), Ids(rest[at..]));
    UnplacedAreNotMoved(after, list, moved);
    LiftingPlaced(after, list, moved);
  }

  lemma IdsOfDrop(rest: seq<Row>, dragged: seq<Row>, at: nat)
    requires at <= |rest|
    ensures Ids(rest[..at] + dragged + rest[at..]) == Ids(rest[..at]) + Ids(dragged) + Ids(rest[at..])
    ensures Ids(rest) == Ids(rest[..at]) + Ids(rest[at..])
  {
    IdsConcat(rest[..at] + dragged, rest[at..]);
    IdsConcat(rest[..at], dragged);
    IdsConcat(rest[..at], rest[at..]);
    assert rest == rest[..at] + rest[at..];
  }

  lemma {:induction false} DraggedIdsArePlaced(after: Tasks, dragged: seq<Row>)
    requires forall r | r in dragged :: RowAt(after, r.id).key.Some?
    ensures forall id | id in Ids(dragged) :: RowAt(after, id).key.Some?
  {
    forall id | id in Ids(dragged)
      ensures RowAt(after, id).key.Some?
    {
      var r := RowWithId(dragged, id);
    }
  }

  lemma {:induction false} UnplacedAreNotMoved(after: Tasks, list: seq<Row>, moved: seq<Id>)
    requires forall r | r in Dragged(list, moved) :: RowAt(after, r.id).key.Some?
    ensures forall id | id in Ids(list) && RowAt(after, id).key.None? :: id !in moved
  {
    forall id | id in Ids(list) && RowAt(after, id).key.None?
      ensures id !in moved
    {
      var r := RowWithId(list, id);
      assert id in moved ==> r in Dragged(list, moved);
    }
  }

  lemma {:induction false} InsertingPlaced(after: Tasks, a: seq<Id>, d: seq<Id>, b: seq<Id>)
    requires forall id | id in d :: RowAt(after, id).key.Some?
    ensures StillUnplaced(after, a + d + b) == StillUnplaced(after, a + b)
  {
    NonePlacedLeft(after, d);
    StillUnplacedConcat(after, a + d, b);
    StillUnplacedConcat(after, a, d);
    StillUnplacedConcat(after, a, b);
  }

  lemma {:induction false} LiftingPlaced(after: Tasks, list: seq<Row>, moved: seq<Id>)
    requires forall id | id in Ids(list) && RowAt(after, id).key.None? :: id !in moved
    ensures StillUnplaced(after, Ids(Rest(list, moved))) == StillUnplaced(after, Ids(list))
  {
    FilterOfMap(list, (r: Row) => r.id, (id: Id) => id !in moved, (r: Row) => r.id !in moved);
    FilterTwice(Ids(list), (id: Id) => id !in moved, (id: Id) => RowAt(after, id).key.None?);
  }

  // ---- The theorem ----

  /** What a later query may do to the order before the manual sort: anything,
      as long as the tasks are the same and the unplaced ones keep their order. */
  ghost predicate SameList(tasks: Tasks, base: seq<Id>, base': seq<Id>) {
    && Distinct(base')
    && (forall id :: id in base' <==> id in base)
    && StillUnplaced(tasks, base') == StillUnplaced(tasks, base)
  }

  lemma {:induction false} ShownFacts(tasks: Tasks, base: seq<Id>)
    requires Distinct(base)
    ensures InManualOrder(Shown(tasks, base)) && OneRowPerId(Shown(tasks, base))
    ensures forall r :: r in Shown(tasks, base) <==> r.id in base && r == RowAt(tasks, r.id)
  {
    var rows := RowsOf(tasks, base);
    assert OneRowPerId(rows);
    ShownIsInManualOrder(rows);
    forall r: Row
      ensures r in Shown(tasks, base) <==> r.id in base && r == RowAt(tasks, r.id)
    {
      RowsOfMembers(tasks, base, r);
    }
  }

  lemma {:induction false} ShownKeepsUnplaced(tasks: Tasks, base: seq<Id>)
    requires Distinct(base)
    ensures StillUnplaced(tasks, Ids(Shown(tasks, base))) == StillUnplaced(tasks, base)
  {
    var rows := RowsOf(tasks, base);
    assert OneRowPerId(rows);
    ShownIsInManualOrder(rows);
    ShownFacts(tasks, base);
    UnplacedIdsOfRows(tasks, Shown(tasks, base));
    UnplacedRows(tasks, base);
    IdsOfRows(tasks, StillUnplaced(tasks, base));
  }

  lemma {:induction false} RowsAfterMove(tasks: Tasks, after: Tasks, cut: Cut, keys: seq<string>)
    requires WellCut(cut)
    requires forall r | r in cut.above + cut.below :: r == RowAt(tasks, r.id) && r.id in tasks
    requires Rekeyed(tasks, after, Ids(cut.Moving()), keys)
    ensures RowsOf(after, Ids(cut.above + cut.Moving() + cut.below))
         == cut.above + WithKeys(cut.Moving(), keys) + cut.below
  {
    var all := cut.above + cut.Moving() + cut.below;
    var out := cut.above + WithKeys(cut.Moving(), keys) + cut.below;
    forall i | 0 <= i < |all|
      ensures RowAt(after, all[i].id) == out[i]
    {
      var a, m := |cut.above|, |cut.Moving()|;
      if a <= i < a + m {
        assert Ids(cut.Moving())[i - a] == all[i].id;
      } else {
        assert all[i] in cut.above + cut.below by {
          assert i < a ==> all[i] == cut.above[i];
          assert i >= a + m ==> all[i] == cut.below[i - a - m];
        }
        assert all[i].id !in Ids(cut.Moving());
      }
    }
  }

  /** The cut a plan makes, and what the list guarantees about it. */
  lemma {:induction false} CutOfAList(tasks: Tasks, base: seq<Id>, moved: seq<Id>, at: nat)
    requires Listed(tasks, base) && at <= |Rest(Shown(tasks, base), moved)|
    ensures var list := Shown(tasks, base);
            var cut := CutAt(list, moved, at);
            && WellCut(cut)
            && Intended(list, moved, at) == cut.above + cut.Moving() + cut.below
            && (forall r | r in cut.above || r in cut.Moving() || r in cut.below ::
                  r == RowAt(tasks, r.id) && LiveTask(tasks, r.id).Ok?)
  {
    var list := Shown(tasks, base);
    ShownFacts(tasks, base);
    CutOfAnOrderedList(list, moved, at);
  }

  lemma {:induction false} CutOfAnOrderedList(list: seq<Row>, moved: seq<Id>, at: nat)
    requires InManualOrder(list) && OneRowPerId(list) && at <= |Rest(list, moved)|
    ensures var cut := CutAt(list, moved, at);
            && WellCut(cut)
            && Intended(list, moved, at) == cut.above + cut.Moving() + cut.below
            && (forall r | r in cut.above || r in cut.Moving() || r in cut.below :: r in list)
  {
    RestAndDragged(list, moved);
    var rest := Rest(list, moved);
    assert rest[..at] + rest[at..] == rest;
    var cut := CutAt(list, moved, at);
    CutIsWellCut(rest[..at], Dragged(list, moved), rest[at..]);
    CutIsThePieces(rest[..at], Dragged(list, moved), rest[at..]);
    IntendedHoldsTheList(list, moved, at);
  }

  lemma {:induction false} CutIsThePieces(prefix: seq<Row>, dragged: seq<Row>, suffix: seq<Row>)
    ensures var cut := CutOf(prefix, dragged, suffix);
            prefix + dragged + suffix == cut.above + cut.Moving() + cut.below
  {
    CutCovers(prefix, dragged, suffix);
  }

  /** A cut that only rearranges the list, whatever planned it. */
  ghost predicate CutsTheList(tasks: Tasks, base: seq<Id>, cut: Cut) {
    && WellCut(cut)
    && (forall r :: r in cut.above + cut.Moving() + cut.below <==> r in Shown(tasks, base))
  }

  /** Make the move a cut stands for, show the list again, and it is the pieces in their order. */
  lemma {:induction false} RearrangedListShows(tasks: Tasks, base: seq<Id>, cut: Cut, keys: seq<string>,
                                               after: Tasks, base': seq<Id>)
    requires Listed(tasks, base) && CutsTheList(tasks, base, cut)
    requires MoveKeys(tasks, MoveOf(cut).ids, MoveOf(cut).after, MoveOf(cut).before) == Ok(keys)
    requires Rekeyed(tasks, after, MoveOf(cut).ids, keys) && SameList(after, base, base')
    requires StillUnplaced(after, Ids(cut.above + cut.Moving() + cut.below)) == StillUnplaced(after, base)
    ensures Ids(Shown(after, base')) == Ids(cut.above + cut.Moving() + cut.below)
  {
    var all := cut.above + cut.Moving() + cut.below;
    ShownFacts(tasks, base);
    PiecesAreRows(tasks, base, cut);
    KeysOfAnAcceptedMove(tasks, cut, keys);
    RearrangedIsInOrder(cut, keys);
    RowsAfterMove(tasks, after, cut, keys);
    SameRows(tasks, after, base, base', all);
    UnplacedRows(after, base');
    UnplacedRows(after, Ids(all));
    assert OneRowPerId(RowsOf(after, base'));
    ManualOrderIsUnique(RowsOf(after, base'), RowsOf(after, Ids(all)));
    IdsOfRows(after, Ids(all));
  }

  lemma {:induction false} PiecesAreRows(tasks: Tasks, base: seq<Id>, cut: Cut)
    requires Listed(tasks, base) && CutsTheList(tasks, base, cut)
    ensures forall r | r in cut.above + cut.below :: r == RowAt(tasks, r.id) && r.id in tasks
    ensures cut.Floor().Some? ==> cut.Floor().value == RowAt(tasks, cut.Floor().value.id)
    ensures cut.Ceiling().Some? ==> cut.Ceiling().value == RowAt(tasks, cut.Ceiling().value.id)
  {
    ShownFacts(tasks, base);
    var all := cut.above + cut.Moving() + cut.below;
    assert forall r | r in cut.above + cut.below :: r in all;
    if cut.Floor().Some? {
      assert cut.Floor().value in cut.above + cut.below;
    }
    if cut.Ceiling().Some? {
      assert cut.Ceiling().value in cut.above + cut.below;
    }
  }

  /** **The drop lands.** Plan it, make the move the vault accepts, and show the
      list again in manual order: it is exactly the arrangement the drop asked for. */
  lemma {:induction false} DropLandsWhereItWasAimed(tasks: Tasks, base: seq<Id>, moved: seq<Id>, to: Drop,
                                                    after: Tasks, base': seq<Id>)
    requires Listed(tasks, base)
    requires PlanMove(Shown(tasks, base), moved, to).Some?
    requires var move := PlanMove(Shown(tasks, base), moved, to).value;
             var keys := MoveKeys(tasks, move.ids, move.after, move.before);
             keys.Ok? && Rekeyed(tasks, after, move.ids, keys.value)
    requires SameList(after, base, base')
    ensures var list := Shown(tasks, base);
            Ids(Shown(after, base')) == Ids(Intended(list, moved, Landing(Rest(list, moved), to).value))
  {
    var list := Shown(tasks, base);
    var at := Landing(Rest(list, moved), to).value;
    var cut := CutAt(list, moved, at);
    var move := MoveOf(cut);
    var keys := MoveKeys(tasks, move.ids, move.after, move.before).value;
    CutOfAList(tasks, base, moved, at);
    IntendedHoldsTheList(list, moved, at);
    UnplacedStays(tasks, after, base, list, moved, at, cut, keys);
    RearrangedListShows(tasks, base, cut, keys, after, base');
  }

  /** An accepted move got keys in order, strictly inside the rows it lands between. */
  lemma {:induction false} KeysOfAnAcceptedMove(tasks: Tasks, cut: Cut, keys: seq<string>)
    requires var move := MoveOf(cut); MoveKeys(tasks, move.ids, move.after, move.before) == Ok(keys)
    requires cut.Floor().Some? ==> cut.Floor().value == RowAt(tasks, cut.Floor().value.id)
    requires cut.Ceiling().Some? ==> cut.Ceiling().value == RowAt(tasks, cut.Ceiling().value.id)
    ensures |keys| == |cut.Moving()| && Ascending(keys)
    ensures forall k | k in keys :: IsValid(k) && StrictlyInside(k, KeyOf(cut.Floor()), KeyOf(cut.Ceiling()))
  {
    SpreadFillsTheGap(KeyOf(cut.Floor()), KeyOf(cut.Ceiling()), |cut.Moving()|);
  }

  lemma {:induction false} SameRows(tasks: Tasks, after: Tasks, base: seq<Id>, base': seq<Id>, all: seq<Row>)
    requires Distinct(base)
    requires forall id :: id in base' <==> id in base
    requires forall r :: r in all <==> r in Shown(tasks, base)
    ensures forall r :: r in RowsOf(after, Ids(all)) <==> r in RowsOf(after, base')
  {
    ShownFacts(tasks, base);
    forall r: Row
      ensures r in RowsOf(after, Ids(all)) <==> r in RowsOf(after, base')
    {
      RowsOfMembers(after, Ids(all), r);
      RowsOfMembers(after, base', r);
      if r.id in Ids(all) {
        var s := RowWithId(all, r.id);
      }
      if r.id in base {
        IdOfMember(all, RowAt(tasks, r.id));
      }
    }
  }

  /** A drop loses no row and invents none. */
  lemma {:induction false} IntendedHoldsTheList(list: seq<Row>, moved: seq<Id>, at: nat)
    requires at <= |Rest(list, moved)|
    ensures forall r :: r in Intended(list, moved, at) <==> r in list
  {
    var rest, dragged := Rest(list, moved), Dragged(list, moved);
    assert rest == rest[..at] + rest[at..];
    assert forall r :: r in Intended(list, moved, at) <==> r in rest || r in dragged;
  }

  lemma {:induction false} UnplacedStays(tasks: Tasks, after: Tasks, base: seq<Id>, list: seq<Row>,
                                         moved: seq<Id>, at: nat, cut: Cut, keys: seq<string>)
    requires Listed(tasks, base) && list == Shown(tasks, base) && at <= |Rest(list, moved)|
    requires cut == CutAt(list, moved, at) && Rekeyed(tasks, after, Ids(cut.Moving()), keys)
    ensures StillUnplaced(after, Ids(Intended(list, moved, at))) == StillUnplaced(after, base)
  {
    DraggedArePlaced(tasks, after, cut, keys);
    assert cut.dragged == Dragged(list, moved);
    DraggingKeepsUnplaced(after, list, moved, at);
    MovingKeepsUnplaced(tasks, after, base, Ids(cut.Moving()), keys);
  }

  lemma {:induction false} MovingKeepsUnplaced(tasks: Tasks, after: Tasks, base: seq<Id>, ids: seq<Id>, keys: seq<string>)
    requires Listed(tasks, base) && Rekeyed(tasks, after, ids, keys)
    ensures StillUnplaced(after, Ids(Shown(tasks, base))) == StillUnplaced(after, base)
  {
    ShownKeepsUnplaced(tasks, base);
    PlacingNarrows(tasks, after, Ids(Shown(tasks, base)));
    PlacingNarrows(tasks, after, base);
  }

  lemma {:induction false} DraggedArePlaced(tasks: Tasks, after: Tasks, cut: Cut, keys: seq<string>)
    requires Rekeyed(tasks, after, Ids(cut.Moving()), keys)
    ensures forall r | r in cut.dragged :: RowAt(after, r.id).key.Some?
  {
    forall r | r in cut.dragged
      ensures RowAt(after, r.id).key.Some?
    {
      assert r in cut.Moving();
      IdOfMember(cut.Moving(), r);
    }
  }

  // ---- When there is a move, when the vault takes it, and what it writes ----

  /** A drop plans nothing exactly when it names no row of the list, no landing
      in it, or an arrangement the list already has. */
  lemma {:induction false} NoPlanIffNothingChanges(list: seq<Row>, moved: seq<Id>, to: Drop)
    ensures PlanMove(list, moved, to).None? <==>
              var landing := Landing(Rest(list, moved), to);
              || (forall r | r in list :: r.id !in moved)
              || landing.None?
              || Ids(Intended(list, moved, landing.value)) == Ids(list)
  {
    var dragged := Dragged(list, moved);
    if dragged == [] {
      assert forall r | r in list :: r.id in moved ==> r in dragged;
    } else {
      assert dragged[0] in dragged;
    }
  }

  /** The vault takes a planned move exactly when a key fits between the rows it lands between. */
  lemma {:induction false} PlanIsAcceptedIffAKeyFits(tasks: Tasks, base: seq<Id>, moved: seq<Id>, to: Drop)
    requires Listed(tasks, base)
    requires PlanMove(Shown(tasks, base), moved, to).Some?
    ensures var list := Shown(tasks, base);
            var move := PlanMove(list, moved, to).value;
            var cut := CutAt(list, moved, Landing(Rest(list, moved), to).value);
            && move == MoveOf(cut)
            && (MoveKeys(tasks, move.ids, move.after, move.before).Ok? <==>
                  Admits(KeyOf(cut.Floor()), KeyOf(cut.Ceiling())))
  {
    var list := Shown(tasks, base);
    var at := Landing(Rest(list, moved), to).value;
    CutOfAList(tasks, base, moved, at);
    AcceptedIffAKeyFits(tasks, CutAt(list, moved, at));
  }

  lemma {:induction false} AcceptedIffAKeyFits(tasks: Tasks, cut: Cut)
    requires WellCut(cut) && cut.dragged != []
    requires forall r | r in cut.above || r in cut.Moving() || r in cut.below ::
               r == RowAt(tasks, r.id) && LiveTask(tasks, r.id).Ok?
    ensures MoveKeys(tasks, MoveOf(cut).ids, MoveOf(cut).after, MoveOf(cut).before).Ok?
       <==> Admits(KeyOf(cut.Floor()), KeyOf(cut.Ceiling()))
  {
    CutHasShape(tasks, cut);
    SpreadFillsTheGap(KeyOf(cut.Floor()), KeyOf(cut.Ceiling()), |MoveOf(cut).ids|);
  }

  lemma {:induction false} CutHasShape(tasks: Tasks, cut: Cut)
    requires WellCut(cut) && cut.dragged != []
    requires forall r | r in cut.above || r in cut.Moving() || r in cut.below ::
               r == RowAt(tasks, r.id) && LiveTask(tasks, r.id).Ok?
    ensures Shape(MoveOf(cut).ids, MoveOf(cut).after, MoveOf(cut).before)
    ensures AnchorKey(tasks, MoveOf(cut).after) == Ok(KeyOf(cut.Floor()))
    ensures AnchorKey(tasks, MoveOf(cut).before) == Ok(KeyOf(cut.Ceiling()))
    ensures forall id | id in MoveOf(cut).ids :: LiveTask(tasks, id).Ok?
  {
    var ids := MoveOf(cut).ids;
    forall id | id in ids
      ensures LiveTask(tasks, id).Ok?
      ensures forall r | r in cut.above || r in cut.below :: r.id != id
    {
      var m := RowWithId(cut.Moving(), id);
    }
  }

  /** Every key in the list is one this build writes: then no planned drop is ever refused. */
  lemma {:induction false} ValidKeysAreNeverRefused(tasks: Tasks, base: seq<Id>, moved: seq<Id>, to: Drop)
    requires Listed(tasks, base)
    requires forall id | id in base && tasks[id].key.Some? :: IsValid(tasks[id].key.value)
    requires PlanMove(Shown(tasks, base), moved, to).Some?
    ensures var move := PlanMove(Shown(tasks, base), moved, to).value;
            MoveKeys(tasks, move.ids, move.after, move.before).Ok?
  {
    PlanIsAcceptedIffAKeyFits(tasks, base, moved, to);
    PlannedBoundsAdmit(tasks, base, moved, Landing(Rest(Shown(tasks, base), moved), to).value);
  }

  lemma {:induction false} PlannedBoundsAdmit(tasks: Tasks, base: seq<Id>, moved: seq<Id>, at: nat)
    requires Listed(tasks, base)
    requires forall id | id in base && tasks[id].key.Some? :: IsValid(tasks[id].key.value)
    requires at <= |Rest(Shown(tasks, base), moved)|
    ensures var cut := CutAt(Shown(tasks, base), moved, at); Admits(KeyOf(cut.Floor()), KeyOf(cut.Ceiling()))
  {
    var list := Shown(tasks, base);
    ShownKeysAreValid(tasks, base);
    ShownFacts(tasks, base);
    CutOfAnOrderedList(list, moved, at);
    BoundsOfValidKeys(list, CutAt(list, moved, at));
  }

  lemma {:induction false} ShownKeysAreValid(tasks: Tasks, base: seq<Id>)
    requires Listed(tasks, base)
    requires forall id | id in base && tasks[id].key.Some? :: IsValid(tasks[id].key.value)
    ensures forall r | r in Shown(tasks, base) && r.key.Some? :: IsValid(r.key.value)
  {
    ShownFacts(tasks, base);
  }

  lemma {:induction false} BoundsOfValidKeys(list: seq<Row>, cut: Cut)
    requires WellCut(cut) && forall r | r in cut.above || r in cut.below :: r in list
    requires forall r | r in list && r.key.Some? :: IsValid(r.key.value)
    ensures Admits(KeyOf(cut.Floor()), KeyOf(cut.Ceiling()))
  {
    if cut.Floor().Some? {
      assert cut.Floor().value in cut.above;
    }
    if cut.Ceiling().Some? {
      assert cut.Ceiling().value in cut.below;
    }
    ValidBoundsAdmitIffSorted(KeyOf(cut.Floor()), KeyOf(cut.Ceiling()));
  }

  /** A move writes the dragged rows, the unplaced rows above the drop (with any
      below an unplaced one), and the rows below it whose key is not above the
      floor: no others. */
  lemma {:induction false} OnlyTheseRowsAreKeyed(prefix: seq<Row>, dragged: seq<Row>, suffix: seq<Row>, id: Id)
    requires id in MoveOf(CutOf(prefix, dragged, suffix)).ids
    ensures || id in Ids(dragged)
            || (exists i :: 0 <= i < |prefix| && prefix[i].id == id && exists k :: 0 <= k <= i && prefix[k].key.None?)
            || (exists i :: 0 <= i < |suffix| && suffix[i].id == id && suffix[i].key.Some?
                            && !Bounds(suffix[i], KeyOf(CutOf(prefix, dragged, suffix).Floor())))
  {
    var cut := CutOf(prefix, dragged, suffix);
    CutCovers(prefix, dragged, suffix);
    var m := cut.Moving();
    var k :| 0 <= k < |m| && Ids(m)[k] == id;
    var l, d := |cut.lead|, |cut.dragged|;
    if k < l {
      var n := |cut.above|;
      assert prefix[n + k] == m[k] && prefix[n] == cut.lead[0];
    } else if k < l + d {
      assert Ids(dragged)[k - l] == id;
    } else {
      assert m[k] == cut.tied[k - l - d] == suffix[k - l - d];
    }
  }
}
