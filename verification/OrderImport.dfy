/** The one-time import of the order a device kept for itself
    (apps/apple/Sunrise/Tasks/ListOrder.swift, `import_list_order` in
    crates/sunrise-client-core/src/task_order.rs). */
module OrderImport {
  import opened Wrappers
  import opened Sequences
  import opened SortOrder
  import opened ManualOrder
  import opened DropPlan
  import opened TaskVault
  import opened DropLands

  datatype ListKind = Today | SearchResults | Inbox | Stream(stream: Id) | Context(context: Id)

  /** Today is sectioned and Search is ranked, so neither ever had a stored order. */
  predicate HasLegacyOrder(kind: ListKind) {
    !kind.Today? && !kind.SearchResults?
  }

  /** The eligible ids a stored order names, in its order, a repeat counting once. */
  function FirstOccurrences(stored: seq<Id>, eligible: set<Id>): (ids: seq<Id>)
    ensures Distinct(ids)
    ensures forall id :: id in ids <==> id in stored && id in eligible
  {
    if stored == [] then []
    else
      var n := |stored| - 1;
      var ids := FirstOccurrences(stored[..n], eligible);
      assert stored == stored[..n] + [stored[n]];
      if stored[n] in eligible && stored[n] !in ids then ids + [stored[n]] else ids
  }

  function PlacedRows(list: seq<Row>): seq<Row> {
    Filter(list, Placed)
  }

  function UnplacedIds(list: seq<Row>): set<Id> {
    set r | r in list && r.key.None? :: r.id
  }

  /** The move an import makes, given the rows this device's own imports placed. */
  function ImportMove(stored: seq<Id>, list: seq<Row>, placedHere: set<Id>): Option<TaskMove> {
    var placed := PlacedRows(list);
    var ids := FirstOccurrences(stored, UnplacedIds(list));
    if ids == [] || (exists r | r in placed :: r.id !in placedHere) then None
    else Some(TaskMove(ids, IdOf(LastOf(placed)), None))
  }

  /** `import_list_order`: only for a list with nothing placed in it. */
  function ImportListOrder(stored: seq<Id>, list: seq<Row>): Option<TaskMove> {
    if exists r | r in list :: r.key.Some? then None
    else
      var ids := FirstOccurrences(stored, set r | r in list :: r.id);
      if ids == [] then None else Some(TaskMove(ids, None, None))
  }

  class ListOrderImport {
    var orders: map<ListKind, seq<Id>>
    var placedHere: set<Id>

    constructor (orders: map<ListKind, seq<Id>>, placedHere: set<Id>)
      ensures this.orders == orders && this.placedHere == placedHere
    {
      this.orders, this.placedHere := orders, placedHere;
    }

    function Stored(kind: ListKind): Option<seq<Id>>
      reads this
    {
      if HasLegacyOrder(kind) && kind in orders then Some(orders[kind]) else None
    }

    /** Two routes in the source, one answer. */
    method Command(kind: ListKind, list: seq<Row>) returns (move: Option<TaskMove>)
      ensures move == match Stored(kind)
                      case None => None
                      case Some(stored) => ImportMove(stored, list, placedHere)
    {
      var found := Stored(kind);
      if found.None? {
        return None;
      }
      var stored := found.value;
      move := ImportListOrder(stored, list);
      ImportsAgree(stored, list, placedHere);
      if move.Some? {
        return;
      }
      var placed := PlacedRows(list);
      if placed == [] || exists r | r in placed :: r.id !in placedHere {
        return None;
      }
      var unplaced := UnplacedIds(list);
      var ids := [];
      for i := 0 to |stored|
        invariant ids == FirstOccurrences(stored[..i], unplaced)
      {
        assert stored[..i + 1][..i] == stored[..i];
        if stored[i] in unplaced && stored[i] !in ids {
          ids := ids + [stored[i]];
        }
      }
      assert stored[..|stored|] == stored;
      if ids == [] {
        return None;
      }
      return Some(TaskMove(ids, Some(placed[|placed| - 1].id), None));
    }

    method RecordPlaced(move: TaskMove)
      modifies this
      ensures orders == old(orders)
      ensures placedHere == old(placedHere) + set id | id in move.ids
    {
      placedHere := placedHere + set id | id in move.ids;
    }

    /** The record of what was placed goes with the last stored order. */
    method Forget(kind: ListKind)
      modifies this
      ensures !HasLegacyOrder(kind) ==> orders == old(orders) && placedHere == old(placedHere)
      ensures HasLegacyOrder(kind) ==>
                && orders == old(orders) - {kind}
                && placedHere == if old(orders) - {kind} == map[] then {} else old(placedHere)
    {
      if !HasLegacyOrder(kind) {
        return;
      }
      orders := orders - {kind};
      if orders == map[] {
        placedHere := {};
      }
    }
  }

  /** The core's import is the first case of the device's. */
  lemma {:induction false} ImportsAgree(stored: seq<Id>, list: seq<Row>, placedHere: set<Id>)
    ensures ImportListOrder(stored, list).Some? ==> ImportListOrder(stored, list) == ImportMove(stored, list, placedHere)
    ensures ImportListOrder(stored, list).None? && PlacedRows(list) == [] ==> ImportMove(stored, list, placedHere).None?
  {
    assert (exists r | r in list :: r.key.Some?) <==> PlacedRows(list) != [] by {
      if PlacedRows(list) != [] {
        assert PlacedRows(list)[0] in PlacedRows(list);
      }
    }
    if PlacedRows(list) == [] {
      assert UnplacedIds(list) == set r | r in list :: r.id;
    }
  }

  /** An import never re-keys a placed row, and never touches a list with a row
      somebody else placed. */
  lemma {:induction false} ImportIsDeclinedIff(stored: seq<Id>, list: seq<Row>, placedHere: set<Id>)
    requires OneRowPerId(list)
    ensures ImportMove(stored, list, placedHere).None? <==>
              || (exists r | r in list :: r.key.Some? && r.id !in placedHere)
              || (forall r | r in list && r.key.None? :: r.id !in stored)
    ensures ImportMove(stored, list, placedHere).Some? ==>
              forall r | r in list && r.key.Some? :: r.id !in ImportMove(stored, list, placedHere).value.ids
  {
    var ids := FirstOccurrences(stored, UnplacedIds(list));
    if ids != [] {
      assert ids[0] in ids;
    }
    forall r, s | r in list && s in list && r.id == s.id
      ensures r == s
    {
    }
  }

  /** What stays above, what the import places, and what stays unplaced below. */
  function ImportCut(list: seq<Row>, rows: seq<Row>): Cut {
    Cut(PlacedRows(list), [], rows, [], Leftover(list, Ids(rows)))
  }

  lemma {:induction false} ImportCutIsWellCut(list: seq<Row>, rows: seq<Row>)
    requires InManualOrder(list) && OneRowPerId(list)
    requires OneRowPerId(rows) && forall r | r in rows :: r in list && r.key.None?
    ensures WellCut(ImportCut(list, rows)) && ImportCut(list, rows).Moving() == rows
    ensures ImportCut(list, rows).Ceiling() == None
  {
    var cut := ImportCut(list, rows);
    var at := FilterIndices(list, Placed);
    var bt := FilterIndices(list, (r: Row) => r.key.None? && r.id !in Ids(rows));
    assert InManualOrder(cut.above) && InManualOrder(cut.below);
    assert cut.Moving() == rows;
    forall i | 0 <= i < |cut.below|
      ensures cut.below[i].key.None? && cut.below[i].id !in Ids(rows)
    {
      assert cut.below[i] in cut.below;
    }
    assert CrossOrder(cut.above, cut.below) by {
      forall i | 0 <= i < |cut.above|
        ensures cut.above[i].key.Some?
      {
        assert cut.above[i] in cut.above;
      }
    }
    assert Apart(rows, cut.below) by {
      forall i | 0 <= i < |rows|
        ensures rows[i].id in Ids(rows)
      {
        assert Ids(rows)[i] == rows[i].id;
      }
    }
    PlacedApartFromUnplaced(list, cut.above, rows);
  }

  lemma {:induction false} PlacedApartFromUnplaced(list: seq<Row>, a: seq<Row>, b: seq<Row>)
    requires OneRowPerId(list)
    requires forall r | r in a :: r in list && r.key.Some?
    requires forall r | r in b :: r in list && r.key.None?
    ensures Apart(a, b)
  {
    forall i, j | 0 <= i < |a| && 0 <= j < |b|
      ensures a[i].id != b[j].id
    {
      assert a[i] in a && b[j] in b;
    }
  }

  /** After an import: the rows already placed, then the stored order, then the rest as it was. */
  lemma {:induction false} ImportShowsTheStoredOrder(tasks: Tasks, base: seq<Id>, stored: seq<Id>,
                                                     placedHere: set<Id>, after: Tasks, base': seq<Id>)
    requires Listed(tasks, base)
    requires ImportMove(stored, Shown(tasks, base), placedHere).Some?
    requires var move := ImportMove(stored, Shown(tasks, base), placedHere).value;
             var keys := MoveKeys(tasks, move.ids, move.after, move.before);
             keys.Ok? && Rekeyed(tasks, after, move.ids, keys.value)
    requires SameList(after, base, base')
    ensures var list := Shown(tasks, base);
            var ids := ImportMove(stored, list, placedHere).value.ids;
            Ids(Shown(after, base')) == Ids(PlacedRows(list)) + ids + Ids(Leftover(list, ids))
  {
    var list := Shown(tasks, base);
    var move := ImportMove(stored, list, placedHere).value;
    var keys := MoveKeys(tasks, move.ids, move.after, move.before).value;
    var rows := RowsToImport(tasks, base, move.ids);
    ShownFacts(tasks, base);
    ImportCutIsWellCut(list, rows);
    var cut := ImportCut(list, rows);
    assert MoveOf(cut) == move;
    ImportPartitions(list, rows);
    ImportKeepsUnplaced(tasks, after, base, rows, keys);
    RearrangedListShows(tasks, base, cut, keys, after, base');
    IdsOfImport(list, rows);
  }

  lemma {:induction false} IdsOfImport(list: seq<Row>, rows: seq<Row>)
    ensures var cut := ImportCut(list, rows);
            Ids(cut.above + cut.Moving() + cut.below) == Ids(PlacedRows(list)) + Ids(rows) + Ids(Leftover(list, Ids(rows)))
  {
    var cut := ImportCut(list, rows);
    assert cut.Moving() == rows;
    IdsConcat(cut.above + rows, cut.below);
    IdsConcat(cut.above, rows);
  }

  lemma {:induction false} RowsToImport(tasks: Tasks, base: seq<Id>, ids: seq<Id>) returns (rows: seq<Row>)
    requires Distinct(base) && Distinct(ids)
    requires forall id | id in ids :: id in UnplacedIds(Shown(tasks, base))
    ensures Ids(rows) == ids && OneRowPerId(rows)
    ensures forall r | r in rows :: r in Shown(tasks, base) && r.key.None?
  {
    rows := RowsOf(tasks, ids);
    IdsOfRows(tasks, ids);
    ShownFacts(tasks, base);
    forall r | r in rows
      ensures r in Shown(tasks, base) && r.key.None?
    {
      RowsOfMembers(tasks, ids, r);
      var s :| s in Shown(tasks, base) && s.key.None? && s.id == r.id;
    }
  }

  lemma {:induction false} ImportPartitions(list: seq<Row>, rows: seq<Row>)
    requires OneRowPerId(list) && forall r | r in rows :: r in list && r.key.None?
    ensures var cut := ImportCut(list, rows);
            forall r :: r in cut.above + cut.Moving() + cut.below <==> r in list
  {
    var cut := ImportCut(list, rows);
    assert cut.Moving() == rows;
    forall r | r in list
      ensures r in cut.above || r in rows || r in cut.below
    {
      if r.key.None? && r.id in Ids(rows) {
        var d := RowWithId(rows, r.id);
        assert d == r;
      }
    }
  }

  lemma {:induction false} ImportKeepsUnplaced(tasks: Tasks, after: Tasks, base: seq<Id>,
                                               rows: seq<Row>, keys: seq<string>)
    requires Listed(tasks, base) && Rekeyed(tasks, after, Ids(rows), keys)
    ensures var cut := ImportCut(Shown(tasks, base), rows);
            StillUnplaced(after, Ids(cut.above + cut.Moving() + cut.below)) == StillUnplaced(after, base)
  {
    var list := Shown(tasks, base);
    ShownKeepsUnplaced(tasks, base);
    PlacingNarrows(tasks, after, Ids(list));
    PlacingNarrows(tasks, after, base);
    AllPlaced(tasks, after, base, rows, keys);
    IdsOfImport(list, rows);
    PlacedInFront(after, Ids(PlacedRows(list)) + Ids(rows), Ids(Leftover(list, Ids(rows))));
    BelowIsWhatStays(after, list, rows);
  }

  lemma {:induction false} PlacedInFront(after: Tasks, a: seq<Id>, b: seq<Id>)
    requires forall id | id in a :: RowAt(after, id).key.Some?
    ensures StillUnplaced(after, a + b) == StillUnplaced(after, b)
  {
    NonePlacedLeft(after, a);
    StillUnplacedConcat(after, a, b);
  }

  lemma {:induction false} AllPlaced(tasks: Tasks, after: Tasks, base: seq<Id>, rows: seq<Row>, keys: seq<string>)
    requires Listed(tasks, base) && Rekeyed(tasks, after, Ids(rows), keys)
    ensures forall id | id in Ids(PlacedRows(Shown(tasks, base))) + Ids(rows) :: RowAt(after, id).key.Some?
    ensures forall r | r in Shown(tasks, base) && r.key.Some? :: RowAt(after, r.id).key.Some?
  {
    ShownFacts(tasks, base);
    forall id | id in Ids(rows)
      ensures RowAt(after, id).key.Some?
    {
      var k :| 0 <= k < |Ids(rows)| && Ids(rows)[k] == id;
    }
    forall id | id in Ids(PlacedRows(Shown(tasks, base)))
      ensures RowAt(after, id).key.Some?
    {
      var r := RowWithId(PlacedRows(Shown(tasks, base)), id);
    }
  }

  /** The unplaced rows an import leaves alone. */
  function Leftover(list: seq<Row>, ids: seq<Id>): seq<Row> {
    Filter(list, (r: Row) => r.key.None? && r.id !in ids)
  }

  lemma {:induction false} BelowIsWhatStays(after: Tasks, list: seq<Row>, rows: seq<Row>)
    requires forall id | id in Ids(rows) :: RowAt(after, id).key.Some?
    requires forall r | r in list && r.key.Some? :: RowAt(after, r.id).key.Some?
    ensures StillUnplaced(after, Ids(Leftover(list, Ids(rows)))) == StillUnplaced(after, Ids(list))
  {
    var ids := Ids(rows);
    var stays := (r: Row) => r.key.None? && r.id !in ids;
    var open := (r: Row) => RowAt(after, r.id).key.None?;
    FilterOfMap(Filter(list, stays), (r: Row) => r.id, (id: Id) => RowAt(after, id).key.None?, open);
    FilterOfMap(list, (r: Row) => r.id, (id: Id) => RowAt(after, id).key.None?, open);
    FilterTwice(list, stays, open);
  }
}
