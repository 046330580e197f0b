/** A sidebar drag, as the `sort_order` writes it is
    (apps/apple/Sunrise/Browse/StreamOrder.swift). Every row here is placed: a
    Stream always holds a key. Rows with equal keys are ordered by id, which
    stands for the name and id the query breaks ties by. */
module StreamOrder {
  import opened Wrappers
  import opened Sequences
  import opened SortOrder
  import opened ManualOrder

  datatype Move = Move(id: Id, key: string)

  type KeyMaker = (Option<string>, Option<string>) -> Option<string>

  /** The seam's key: what the core's `between` answers, or nothing. */
  function SeamKey(after: Option<string>, before: Option<string>): Option<string> {
    match Between(after, before)
    case Ok(key) => Some(key)
    case Err(_) => None
  }

  function Stays(moved: set<Id>): Row -> bool {
    (r: Row) => r.id !in moved
  }

  function Drags(moved: set<Id>): Row -> bool {
    (r: Row) => r.id in moved
  }

  /** The rows after SwiftUI's `move(fromOffsets:toOffset:)`: `moved` names the rows at the offsets. */
  function Dragged(rows: seq<Row>, moved: set<Id>, destination: nat): seq<Row>
    requires destination <= |rows|
  {
    Filter(rows[..destination], Stays(moved))
    + Filter(rows, Drags(moved))
    + Filter(rows[destination..], Stays(moved))
  }

  /** The key of the first row that is not itself being dragged. */
  function FirstUnmovedKey(rows: seq<Row>, moved: set<Id>): Option<string> {
    if rows == [] then None
    else if rows[0].id !in moved then rows[0].key
    else FirstUnmovedKey(rows[1..], moved)
  }

  /** The walk over the dragged list from row `i`, `above` the key of the row before it. */
  function MovesFrom(placed: seq<Row>, moved: set<Id>, key: KeyMaker, i: nat, above: Option<string>, out: seq<Move>)
    : Option<seq<Move>>
    requires i <= |placed|
    decreases |placed| - i
  {
    if i == |placed| then Some(out)
    else if placed[i].id !in moved then MovesFrom(placed, moved, key, i + 1, placed[i].key, out)
    else match key(above, FirstUnmovedKey(placed[i + 1..], moved))
      case None => None
      case Some(next) => MovesFrom(placed, moved, key, i + 1, Some(next), out + [Move(placed[i].id, next)])
  }

  function Moves(rows: seq<Row>, moved: set<Id>, destination: nat, key: KeyMaker): seq<Move>
    requires destination <= |rows|
  {
    var placed := Dragged(rows, moved, destination);
    if Ids(placed) == Ids(rows) then []
    else match MovesFrom(placed, moved, key, 0, None, [])
      case None => []
      case Some(out) => out
  }

  method ComputeMoves(rows: seq<Row>, moved: set<Id>, destination: nat, key: KeyMaker) returns (out: seq<Move>)
    requires destination <= |rows|
    ensures out == Moves(rows, moved, destination, key)
  {
    var placed := Dragged(rows, moved, destination);
    if Ids(placed) == Ids(rows) {
      return [];
    }
    out := [];
    var above: Option<string> := None;
    for i := 0 to |placed|
      invariant MovesFrom(placed, moved, key, i, above, out) == MovesFrom(placed, moved, key, 0, None, [])
    {
      var row := placed[i];
      if row.id !in moved {
        above := row.key;
      } else {
        var next := key(above, FirstUnmovedKey(placed[i + 1..], moved));
        if next.None? {
          return [];
        }
        out := out + [Move(row.id, next.value)];
        above := next;
      }
    }
  }

  // ---- What the writes do ----

  /** The key a row has once the writes are in. */
  function Written(row: Row, moves: seq<Move>): Row {
    if moves == [] then row
    else
      var n := |moves| - 1;
      if moves[n].id == row.id then Row(row.id, Some(moves[n].key)) else Written(row, moves[..n])
  }

  function Apply(rows: seq<Row>, moves: seq<Move>): (out: seq<Row>)
    ensures |out| == |rows| && forall i | 0 <= i < |rows| :: out[i] == Written(rows[i], moves)
  {
    Map(rows, (r: Row) => Written(r, moves))
  }

  ghost predicate AllKeyed(rows: seq<Row>) {
    forall r | r in rows :: r.key.Some?
  }

  /** The rows not being dragged are in order, whatever sits between them. */
  ghost predicate UnmovedInOrder(placed: seq<Row>, moved: set<Id>) {
    forall i, j | 0 <= i < j < |placed| && placed[i].id !in moved && placed[j].id !in moved ::
      RowsInOrder(placed[i], placed[j])
  }

  lemma {:induction false} DraggedKeepsTheRest(rows: seq<Row>, moved: set<Id>, destination: nat)
    requires destination <= |rows| && AllKeyed(rows) && InManualOrder(rows)
    ensures var placed := Dragged(rows, moved, destination);
            AllKeyed(placed) && UnmovedInOrder(placed, moved) && (forall r :: r in placed <==> r in rows)
  {
    var a, b := rows[..destination], rows[destination..];
    var stays := Stays(moved);
    assert rows == a + b;
    FilterConcat(a, b, stays);
    var rest := Filter(rows, stays);
    var at := FilterIndices(rows, stays);
    assert InManualOrder(rest);
    var picked := Filter(rows, Drags(moved));
    InsertedBetween(Filter(a, stays), picked, Filter(b, stays), moved);
    var placed := Dragged(rows, moved, destination);
    assert placed == Filter(a, stays) + picked + Filter(b, stays);
    assert forall r :: r in placed <==> r in rest || r in picked;
  }

  lemma {:induction false} InsertedBetween(a: seq<Row>, picked: seq<Row>, b: seq<Row>, moved: set<Id>)
    requires InManualOrder(a + b) && forall r | r in picked :: r.id in moved
    ensures UnmovedInOrder(a + picked + b, moved)
  {
    var placed, rest, m := a + picked + b, a + b, |picked|;
    assert forall x | 0 <= x < m :: placed[|a| + x] == picked[x] && picked[x] in picked;
    assert forall x | |a| <= x < |a| + m :: placed[x].id in moved;
    forall i, j | 0 <= i < j < |placed| && placed[i].id !in moved && placed[j].id !in moved
      ensures RowsInOrder(placed[i], placed[j])
    {
      var k, l := if i < |a| then i else i - m, if j < |a| then j else j - m;
      assert placed[i] == rest[k] && placed[j] == rest[l];
    }
  }

  /** Every row done so far sorts before every row still to come that is not moving. */
  ghost predicate Ahead(done: seq<Row>, placed: seq<Row>, moved: set<Id>, i: nat) {
    forall d, j | 0 <= d < |done| && i <= j < |placed| && placed[j].id !in moved :: RowsInOrder(done[d], placed[j])
  }

  /** The state of the walk: what is done is in order and ahead of the rest, and
      `out` writes exactly the moving rows met so far. */
  ghost predicate Walked(placed: seq<Row>, moved: set<Id>, i: nat, above: Option<string>, out: seq<Move>)
    requires i <= |placed|
  {
    var done := Apply(placed[..i], out);
    && AllKeyed(done) && InManualOrder(done) && Ahead(done, placed, moved, i)
    && above == (if i == 0 then None else done[i - 1].key)
    && MovedIds(out) == Ids(Filter(placed[..i], Drags(moved)))
  }

  function MovedIds(moves: seq<Move>): seq<Id> {
    Map(moves, (m: Move) => m.id)
  }

  lemma {:induction false} WrittenOnlyIfMoved(row: Row, moves: seq<Move>)
    requires row.id !in MovedIds(moves)
    ensures Written(row, moves) == row
  {
    if moves != [] {
      var n := |moves| - 1;
      assert MovedIds(moves) == MovedIds(moves[..n]) + [moves[n].id];
      WrittenOnlyIfMoved(row, moves[..n]);
    }
  }

  lemma {:induction false} MovedIdsOfWalk(placed: seq<Row>, moved: set<Id>, i: nat, out: seq<Move>, id: Id)
    requires i <= |placed| && MovedIds(out) == Ids(Filter(placed[..i], Drags(moved)))
    requires id in MovedIds(out)
    ensures id in moved && exists k :: 0 <= k < i && placed[k].id == id
  {
    var kept := Filter(placed[..i], Drags(moved));
    var k :| 0 <= k < |kept| && Ids(kept)[k] == id;
    assert kept[k] in kept;
    var l :| 0 <= l < i && placed[..i][l] == kept[k];
    assert placed[l].id == id;
  }

  lemma {:induction false} StepUnmoved(placed: seq<Row>, moved: set<Id>, i: nat, above: Option<string>, out: seq<Move>)
    requires i < |placed| && placed[i].id !in moved && AllKeyed(placed) && UnmovedInOrder(placed, moved)
    requires Walked(placed, moved, i, above, out)
    ensures Walked(placed, moved, i + 1, placed[i].key, out)
  {
    if placed[i].id in MovedIds(out) {
      MovedIdsOfWalk(placed, moved, i, out, placed[i].id);
    }
    WrittenOnlyIfMoved(placed[i], out);
    assert placed[..i + 1] == placed[..i] + [placed[i]];
    var done, done' := Apply(placed[..i], out), Apply(placed[..i + 1], out);
    assert done' == done + [placed[i]];
    FilterConcat(placed[..i], [placed[i]], Drags(moved));
    assert Filter([placed[i]], Drags(moved)) == [];
    assert placed[i] in placed;
  }

  lemma {:induction false} FirstUnmoved(placed: seq<Row>, moved: set<Id>, i: nat)
    requires i <= |placed| && AllKeyed(placed) && UnmovedInOrder(placed, moved)
    ensures var below := FirstUnmovedKey(placed[i..], moved);
            forall j | i <= j < |placed| && placed[j].id !in moved ::
              below.Some? && (placed[j].key == below || Less(below.value, placed[j].key.value))
    decreases |placed| - i
  {
    if i < |placed| {
      assert placed[i..][1..] == placed[i + 1..];
      assert forall j | i <= j < |placed| :: placed[j] in placed;
      if placed[i].id in moved {
        FirstUnmoved(placed, moved, i + 1);
      } else {
        forall j | i < j < |placed| && placed[j].id !in moved
          ensures placed[j].key == placed[i].key || Less(placed[i].key.value, placed[j].key.value)
        {
          assert RowsInOrder(placed[i], placed[j]);
        }
      }
    }
  }

  lemma {:induction false} AfterTheLast(done: seq<Row>, next: Row)
    requires AllKeyed(done) && InManualOrder(done) && next.key.Some?
    requires done != [] ==> Less(done[|done| - 1].key.value, next.key.value)
    ensures InManualOrder(done + [next])
  {
    var n := |done| - 1;
    forall d | 0 <= d < |done|
      ensures RowsInOrder(done[d], next)
    {
      assert done[d] in done && done[n] in done;
      if d < n {
        assert RowsInOrder(done[d], done[n]);
        PlacedBeforeIsAnOrder(done[d], done[n], next);
      }
    }
  }

  lemma {:induction false} AheadOfTheRest(placed: seq<Row>, moved: set<Id>, i: nat, next: Row)
    requires i <= |placed| && AllKeyed(placed) && UnmovedInOrder(placed, moved) && next.key.Some?
    requires var below := FirstUnmovedKey(placed[i..], moved);
             below.Some? ==> Less(next.key.value, below.value)
    ensures Ahead([next], placed, moved, i)
  {
    FirstUnmoved(placed, moved, i);
    var below := FirstUnmovedKey(placed[i..], moved);
    forall j | i <= j < |placed| && placed[j].id !in moved
      ensures RowsInOrder(next, placed[j])
    {
      assert placed[j] in placed;
      if placed[j].key != below {
        LessIsTransitive(next.key.value, below.value, placed[j].key.value);
      }
    }
  }

  lemma {:induction false} StepMoved(placed: seq<Row>, moved: set<Id>, i: nat, above: Option<string>,
                                     out: seq<Move>, next: string)
    requires i < |placed| && placed[i].id in moved
    requires AllKeyed(placed) && UnmovedInOrder(placed, moved) && OneRowPerId(placed)
    requires Walked(placed, moved, i, above, out)
    requires SeamKey(above, FirstUnmovedKey(placed[i + 1..], moved)) == Some(next)
    ensures Walked(placed, moved, i + 1, Some(next), out + [Move(placed[i].id, next)])
  {
    var below := FirstUnmovedKey(placed[i + 1..], moved);
    BetweenIsDense(above, below);
    var done, row := Apply(placed[..i], out), Row(placed[i].id, Some(next));
    AfterTheLast(done, row);
    AheadOfTheRest(placed, moved, i + 1, row);
    WritingOneMore(placed, i, out, next);
    NamingOneMore(placed, moved, i, out, next);
    AheadTogether(done, row, placed, moved, i);
  }

  lemma {:induction false} AheadTogether(done: seq<Row>, row: Row, placed: seq<Row>, moved: set<Id>, i: nat)
    requires Ahead(done, placed, moved, i) && Ahead([row], placed, moved, i + 1)
    ensures Ahead(done + [row], placed, moved, i + 1)
  {
    forall d, j | 0 <= d < |done| + 1 && i + 1 <= j < |placed| && placed[j].id !in moved
      ensures RowsInOrder((done + [row])[d], placed[j])
    {
      if d == |done| {
        assert RowsInOrder([row][0], placed[j]);
      }
    }
  }

  lemma {:induction false} NamingOneMore(placed: seq<Row>, moved: set<Id>, i: nat, out: seq<Move>, next: string)
    requires i < |placed| && placed[i].id in moved
    requires MovedIds(out) == Ids(Filter(placed[..i], Drags(moved)))
    ensures MovedIds(out + [Move(placed[i].id, next)]) == Ids(Filter(placed[..i + 1], Drags(moved)))
  {
    FilterConcat(placed[..i], [placed[i]], Drags(moved));
    assert Filter([placed[i]], Drags(moved)) == [placed[i]];
    assert placed[..i + 1] == placed[..i] + [placed[i]];
    IdsConcat(Filter(placed[..i], Drags(moved)), [placed[i]]);
  }

  lemma {:induction false} WritingOneMore(placed: seq<Row>, i: nat, out: seq<Move>, next: string)
    requires i < |placed| && OneRowPerId(placed)
    ensures Apply(placed[..i + 1], out + [Move(placed[i].id, next)])
         == Apply(placed[..i], out) + [Row(placed[i].id, Some(next))]
  {
    var out' := out + [Move(placed[i].id, next)];
    assert out'[..|out|] == out;
  }

  /** With these writes the dragged list is in order, and they are of exactly the dragged rows. */
  ghost predicate Landed(placed: seq<Row>, moved: set<Id>, moves: seq<Move>) {
    && AllKeyed(Apply(placed, moves)) && InManualOrder(Apply(placed, moves))
    && MovedIds(moves) == Ids(Filter(placed, Drags(moved)))
  }

  lemma WalkedIsLanded(placed: seq<Row>, moved: set<Id>, above: Option<string>, out: seq<Move>)
    requires Walked(placed, moved, |placed|, above, out)
    ensures Landed(placed, moved, out)
  {
    assert placed[..|placed|] == placed;
  }

  lemma {:induction false} WalkEnds(placed: seq<Row>, moved: set<Id>, i: nat, above: Option<string>, out: seq<Move>)
    requires i <= |placed|
    requires AllKeyed(placed) && UnmovedInOrder(placed, moved) && OneRowPerId(placed)
    requires Walked(placed, moved, i, above, out)
    requires MovesFrom(placed, moved, SeamKey, i, above, out).Some?
    ensures Landed(placed, moved, MovesFrom(placed, moved, SeamKey, i, above, out).value)
    decreases |placed| - i
  {
    if i == |placed| {
      WalkedIsLanded(placed, moved, above, out);
    } else if placed[i].id !in moved {
      StepUnmoved(placed, moved, i, above, out);
      WalkEnds(placed, moved, i + 1, placed[i].key, out);
    } else {
      var next := SeamKey(above, FirstUnmovedKey(placed[i + 1..], moved)).value;
      StepMoved(placed, moved, i, above, out, next);
      WalkEnds(placed, moved, i + 1, Some(next), out + [Move(placed[i].id, next)]);
    }
  }

  /** Write only the keys a drag returns and sort again: the sidebar is exactly
      the list as it was dragged, and only the dragged rows were written. */
  lemma {:induction false} DragLandsAsDragged(rows: seq<Row>, moved: set<Id>, destination: nat)
    requires destination <= |rows| && AllKeyed(rows) && InManualOrder(rows) && OneRowPerId(rows)
    requires Moves(rows, moved, destination, SeamKey) != []
    ensures var moves := Moves(rows, moved, destination, SeamKey);
            && AllKeyed(Apply(rows, moves))
            && SortPlaced(Apply(rows, moves)) == Apply(Dragged(rows, moved, destination), moves)
            && MovedIds(moves) == Ids(Filter(Dragged(rows, moved, destination), Drags(moved)))
  {
    var placed := Dragged(rows, moved, destination);
    var moves := Moves(rows, moved, destination, SeamKey);
    DraggedKeepsTheRest(rows, moved, destination);
    DraggedHasOneRowPerId(rows, moved, destination);
    assert Walked(placed, moved, 0, None, []);
    WalkEnds(placed, moved, 0, None, []);
    ApplyKeepsRows(rows, placed, moves);
    var a, b := Apply(rows, moves), Apply(placed, moves);
    assert OneRowPerId(a);
    SortPlacedSorts(a);
    SortedIsUnique(SortPlaced(a), b);
  }

  lemma {:induction false} ApplyKeepsRows(rows: seq<Row>, placed: seq<Row>, moves: seq<Move>)
    requires forall r :: r in placed <==> r in rows
    ensures forall r :: r in Apply(placed, moves) <==> r in Apply(rows, moves)
    ensures OneRowPerId(rows) ==> OneRowPerId(Apply(rows, moves))
  {
    forall r | r in Apply(rows, moves)
      ensures r in Apply(placed, moves)
    {
      var k :| 0 <= k < |rows| && Written(rows[k], moves) == r;
      assert rows[k] in placed;
      var l :| 0 <= l < |placed| && placed[l] == rows[k];
      assert Apply(placed, moves)[l] == r;
    }
    forall r | r in Apply(placed, moves)
      ensures r in Apply(rows, moves)
    {
      var k :| 0 <= k < |placed| && Written(placed[k], moves) == r;
      assert placed[k] in rows;
      var l :| 0 <= l < |rows| && rows[l] == placed[k];
      assert Apply(rows, moves)[l] == r;
    }
    forall i | 0 <= i < |rows|
      ensures Apply(rows, moves)[i].id == rows[i].id
    {
      WrittenKeepsId(rows[i], moves);
    }
  }

  lemma {:induction false} WrittenKeepsId(row: Row, moves: seq<Move>)
    ensures Written(row, moves).id == row.id
  {
    if moves != [] {
      WrittenKeepsId(row, moves[..|moves| - 1]);
    }
  }

  lemma {:induction false} DraggedHasOneRowPerId(rows: seq<Row>, moved: set<Id>, destination: nat)
    requires destination <= |rows| && OneRowPerId(rows)
    ensures OneRowPerId(Dragged(rows, moved, destination))
  {
    var a, b := rows[..destination], rows[destination..];
    var stays := Stays(moved);
    assert rows == a + b;
    FilterConcat(a, b, stays);
    var at := FilterIndices(rows, stays);
    var pt := FilterIndices(rows, Drags(moved));
    InsertedIsDistinct(Filter(a, stays), Filter(rows, Drags(moved)), Filter(b, stays), moved);
  }

  lemma {:induction false} InsertedIsDistinct(x: seq<Row>, picked: seq<Row>, y: seq<Row>, moved: set<Id>)
    requires OneRowPerId(x + y) && OneRowPerId(picked)
    requires (forall r | r in x + y :: r.id !in moved) && (forall r | r in picked :: r.id in moved)
    ensures OneRowPerId(x + picked + y)
  {
    assert forall i | 0 <= i < |x| :: x[i] in x + y && (x + y)[i] == x[i];
    assert forall i | 0 <= i < |y| :: y[i] in x + y && (x + y)[|x| + i] == y[i];
    assert forall i | 0 <= i < |picked| :: picked[i] in picked;
  }

  // ---- When a drag is abandoned ----

  function LastKey(rows: seq<Row>): Option<string> {
    if rows == [] then None else rows[|rows| - 1].key
  }

  function FirstKey(rows: seq<Row>): Option<string> {
    if rows == [] then None else rows[0].key
  }

  /** The rows that stay, above the drop and below it. */
  function StaysAbove(rows: seq<Row>, moved: set<Id>, destination: nat): seq<Row>
    requires destination <= |rows|
  {
    Filter(rows[..destination], Stays(moved))
  }

  function StaysBelow(rows: seq<Row>, moved: set<Id>, destination: nat): seq<Row>
    requires destination <= |rows|
  {
    Filter(rows[destination..], Stays(moved))
  }

  /** The dragged list, cut where the dragged rows are. */
  ghost predicate CutAtTheDrop(placed: seq<Row>, moved: set<Id>, a: seq<Row>, picked: seq<Row>, b: seq<Row>) {
    && placed == a + picked + b
    && (forall r | r in a || r in b :: r.id !in moved) && (forall r | r in picked :: r.id in moved)
  }

  lemma {:induction false} TheDropIsCut(rows: seq<Row>, moved: set<Id>, destination: nat)
    requires destination <= |rows|
    ensures CutAtTheDrop(Dragged(rows, moved, destination), moved, StaysAbove(rows, moved, destination),
                         Filter(rows, Drags(moved)), StaysBelow(rows, moved, destination))
  {}

  lemma {:induction false} BelowThePicked(picked: seq<Row>, b: seq<Row>, moved: set<Id>)
    requires (forall r | r in picked :: r.id in moved) && (forall r | r in b :: r.id !in moved)
    ensures FirstUnmovedKey(picked + b, moved) == FirstKey(b)
    decreases |picked|
  {
    if picked == [] {
      assert picked + b == b;
      assert b != [] ==> b[0] in b;
    } else {
      assert (picked + b)[1..] == picked[1..] + b && picked[0] in picked;
      BelowThePicked(picked[1..], b, moved);
    }
  }

  lemma {:induction false} WalkPastTheRest(placed: seq<Row>, moved: set<Id>, i: nat, j: nat, above: Option<string>, out: seq<Move>)
    requires i <= j <= |placed| && forall k | i <= k < j :: placed[k].id !in moved
    ensures MovesFrom(placed, moved, SeamKey, i, above, out)
         == MovesFrom(placed, moved, SeamKey, j, if i == j then above else placed[j - 1].key, out)
    decreases j - i
  {
    if i < j {
      WalkPastTheRest(placed, moved, i + 1, j, placed[i].key, out);
    }
  }

  lemma TailOfTheDrop(a: seq<Row>, picked: seq<Row>, b: seq<Row>, i: nat)
    requires |a| <= i <= |a| + |picked|
    ensures (a + picked + b)[i..] == picked[i - |a|..] + b
  {}

  /** Among the dragged rows only the first can find no key: the next ones have
      one strictly inside the gap above them. */
  lemma {:induction false} WalkThroughTheGap(placed: seq<Row>, moved: set<Id>, a: seq<Row>, picked: seq<Row>, b: seq<Row>,
                                             i: nat, above: Option<string>, out: seq<Move>)
    requires CutAtTheDrop(placed, moved, a, picked, b) && |a| <= i <= |a| + |picked|
    ensures var end := MovesFrom(placed, moved, SeamKey, i, above, out);
            && (end.Some? <==> i == |a| + |picked| || Admits(above, FirstKey(b)))
            && (end.Some? ==> |end.value| == |out| + (|a| + |picked| - i))
    decreases |placed| - i
  {
    if i == |a| + |picked| {
      BelowTheDropStays(placed, moved, a, picked, b);
      WalkPastTheRest(placed, moved, i, |placed|, above, out);
    } else {
      BelowADraggedRow(placed, moved, a, picked, b, i);
      AKeyLeavesRoom(above, FirstKey(b));
      if SeamKey(above, FirstKey(b)).Some? {
        var next := SeamKey(above, FirstKey(b)).value;
        WalkThroughTheGap(placed, moved, a, picked, b, i + 1, Some(next), out + [Move(placed[i].id, next)]);
      }
    }
  }

  /** A gap that has a key has one more below it. */
  lemma AKeyLeavesRoom(above: Option<string>, below: Option<string>)
    ensures SeamKey(above, below).Some? <==> Admits(above, below)
    ensures SeamKey(above, below).Some? ==> Admits(SeamKey(above, below), below)
  {
    BetweenIsDense(above, below);
  }

  lemma BelowTheDropStays(placed: seq<Row>, moved: set<Id>, a: seq<Row>, picked: seq<Row>, b: seq<Row>)
    requires CutAtTheDrop(placed, moved, a, picked, b)
    ensures forall k | |a| + |picked| <= k < |placed| :: placed[k].id !in moved
  {
    forall k | |a| + |picked| <= k < |placed|
      ensures placed[k].id !in moved
    {
      assert placed[k] == b[k - |a| - |picked|] && placed[k] in b;
    }
  }

  /** Below every dragged row, the first that stays is the first below the drop. */
  lemma BelowADraggedRow(placed: seq<Row>, moved: set<Id>, a: seq<Row>, picked: seq<Row>, b: seq<Row>, i: nat)
    requires CutAtTheDrop(placed, moved, a, picked, b) && |a| <= i < |a| + |picked|
    ensures placed[i].id in moved && FirstUnmovedKey(placed[i + 1..], moved) == FirstKey(b)
  {
    var left := picked[i - |a| + 1..];
    assert placed[i] == picked[i - |a|] && picked[i - |a|] in picked;
    TailOfTheDrop(a, picked, b, i + 1);
    forall r | r in left
      ensures r.id in moved
    {
      assert r in picked;
    }
    BelowThePicked(left, b, moved);
  }

  /** A drag writes nothing exactly when it changes nothing, or when the rows
      it was dropped between admit no key; whatever keys the rows hold, equal or
      malformed ones included. Otherwise it writes every dragged row. */
  lemma {:induction false} NothingIsWrittenIff(rows: seq<Row>, moved: set<Id>, destination: nat)
    requires destination <= |rows|
    ensures var moves := Moves(rows, moved, destination, SeamKey);
            && (moves == [] <==>
                  || Ids(Dragged(rows, moved, destination)) == Ids(rows)
                  || !Admits(LastKey(StaysAbove(rows, moved, destination)), FirstKey(StaysBelow(rows, moved, destination))))
            && (moves != [] ==> |moves| == |Filter(rows, Drags(moved))|)
  {
    var placed := Dragged(rows, moved, destination);
    var a, b := StaysAbove(rows, moved, destination), StaysBelow(rows, moved, destination);
    var picked := Filter(rows, Drags(moved));
    TheDropIsCut(rows, moved, destination);
    if Ids(placed) != Ids(rows) {
      if picked == [] {
        forall r | r in rows
          ensures r.id !in moved
        {
          assert Drags(moved)(r) ==> r in picked;
        }
        NothingMoved(rows, moved, destination);
      }
      forall k | 0 <= k < |a|
        ensures placed[k].id !in moved
      {
        assert placed[k] == a[k] && a[k] in a;
      }
      WalkPastTheRest(placed, moved, 0, |a|, None, []);
      WalkThroughTheGap(placed, moved, a, picked, b, |a|, LastKey(a), []);
    }
  }

  /** Every row's key is one the core writes and no two are equal. */
  ghost predicate DistinctValidKeys(rows: seq<Row>) {
    && (forall r | r in rows :: r.key.Some? && IsValid(r.key.value))
    && (forall i, j | 0 <= i < j < |rows| :: Less(rows[i].key.value, rows[j].key.value))
  }

  /** With distinct valid keys nothing is ever abandoned: a drag writes nothing
      exactly when it changes nothing. */
  lemma {:induction false} NothingIsWrittenIffNothingMoves(rows: seq<Row>, moved: set<Id>, destination: nat)
    requires destination <= |rows| && DistinctValidKeys(rows)
    ensures Moves(rows, moved, destination, SeamKey) == [] <==> Ids(Dragged(rows, moved, destination)) == Ids(rows)
  {
    NothingIsWrittenIff(rows, moved, destination);
    DistinctKeysAdmit(rows, StaysAbove(rows, moved, destination), StaysBelow(rows, moved, destination), destination);
  }

  lemma {:induction false} DistinctKeysAdmit(rows: seq<Row>, a: seq<Row>, b: seq<Row>, destination: nat)
    requires destination <= |rows| && DistinctValidKeys(rows)
    requires (forall r | r in a :: r in rows[..destination]) && (forall r | r in b :: r in rows[destination..])
    ensures Admits(LastKey(a), FirstKey(b))
  {
    if a != [] {
      assert a[|a| - 1] in a;
    }
    if b != [] {
      assert b[0] in b;
    }
    if a != [] && b != [] {
      var i :| 0 <= i < destination && rows[..destination][i] == a[|a| - 1];
      var j :| 0 <= j < |rows| - destination && rows[destination..][j] == b[0];
      assert rows[i] == a[|a| - 1] && rows[destination + j] == b[0];
    }
    ValidBoundsAdmitIffSorted(LastKey(a), FirstKey(b));
  }

  lemma FilterOne(r: Row, moved: set<Id>)
    ensures Filter([r], Stays(moved)) == if r.id in moved then [] else [r]
    ensures Filter([r], Drags(moved)) == if r.id in moved then [r] else []
  {
    assert [r][1..] == [];
  }

  /** Two devices that dropped into one gap left equal keys: a drop between them is abandoned. */
  lemma {:induction false} ADropBetweenEqualKeysIsAbandoned(a: Row, b: Row, c: Row)
    requires a.key.Some? && a.key == b.key && a.id != b.id && a.id != c.id && b.id != c.id
    ensures Moves([a, b, c], {c.id}, 1, SeamKey) == [] && Ids(Dragged([a, b, c], {c.id}, 1)) == [a.id, c.id, b.id]
  {
    DraggingTheThird(a, b, c);
    NothingIsWrittenIff([a, b, c], {c.id}, 1);
  }

  lemma DraggingTheThird(a: Row, b: Row, c: Row)
    requires a.id != c.id && b.id != c.id
    ensures StaysAbove([a, b, c], {c.id}, 1) == [a] && StaysBelow([a, b, c], {c.id}, 1) == [b]
    ensures Dragged([a, b, c], {c.id}, 1) == [a, c, b]
  {
    var rows, moved := [a, b, c], {c.id};
    FilterOne(a, moved);
    assert rows[..1] == [a] && rows[1..] == [b, c];
    FilterTwo(b, c, moved);
    FilterThree(a, b, c, moved);
  }

  lemma FilterTwo(b: Row, c: Row, moved: set<Id>)
    requires b.id !in moved && c.id in moved
    ensures Filter([b, c], Stays(moved)) == [b] && Filter([b, c], Drags(moved)) == [c]
  {
    FilterOne(c, moved);
    assert [b, c][1..] == [c];
  }

  lemma FilterThree(a: Row, b: Row, c: Row, moved: set<Id>)
    requires a.id !in moved && b.id !in moved && c.id in moved
    ensures Filter([a, b, c], Drags(moved)) == [c]
  {
    FilterTwo(b, c, moved);
    assert [a, b, c][1..] == [b, c];
  }

  lemma {:induction false} NothingMoved(rows: seq<Row>, moved: set<Id>, destination: nat)
    requires destination <= |rows|
    requires forall r | r in rows :: r.id !in moved
    ensures Dragged(rows, moved, destination) == rows
  {
    var a, b := rows[..destination], rows[destination..];
    assert rows == a + b;
    NoneMoved(a, moved, rows);
    NoneMoved(b, moved, rows);
    NoneMoved(rows, moved, rows);
    EmptyMiddle(a, b);
  }

  lemma EmptyMiddle(a: seq<Row>, b: seq<Row>)
    ensures a + [] + b == a + b
  {}

  lemma NoneMoved(some: seq<Row>, moved: set<Id>, rows: seq<Row>)
    requires (forall r | r in rows :: r.id !in moved) && forall r | r in some :: r in rows
    ensures Filter(some, Drags(moved)) == [] && Filter(some, Stays(moved)) == some
  {
    FilterNone(some, Drags(moved));
    FilterAll(some, Stays(moved));
  }
}
