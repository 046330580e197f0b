/** A drop in a hand-arranged list, as the one move it plans
    (crates/sunrise-client-core/src/task_order.rs). */
module DropPlan {
  import opened Wrappers
  import opened Sequences
  import opened SortOrder
  import opened ManualOrder

  datatype Drop = Before(target: Id) | After(target: Id) | Top | Bottom

  /** The tasks to place, in order, and the rows they land between. */
  datatype TaskMove = TaskMove(ids: seq<Id>, after: Option<Id>, before: Option<Id>)

  function Dragged(list: seq<Row>, moved: seq<Id>): seq<Row> {
    Filter(list, (r: Row) => r.id in moved)
  }

  function Rest(list: seq<Row>, moved: seq<Id>): seq<Row> {
    Filter(list, (r: Row) => r.id !in moved)
  }

  function Position(rows: seq<Row>, id: Id): (at: Option<nat>)
    ensures at.Some? ==> at.value < |rows| && rows[at.value].id == id
    ensures at.None? ==> forall r | r in rows :: r.id != id
  {
    if rows == [] then None
    else if rows[0].id == id then Some(0)
    else match Position(rows[1..], id)
      case None => None
      case Some(k) => Some(k + 1)
  }

  /** Where among the rows left behind the dragged ones land. */
  function Landing(rest: seq<Row>, to: Drop): (at: Option<nat>)
    ensures at.Some? ==> at.value <= |rest|
  {
    match to
    case Top => Some(0)
    case Bottom => Some(|rest|)
    case Before(t) => Position(rest, t)
    case After(t) =>
      match Position(rest, t)
      case None => None
      case Some(k) => Some(k + 1)
  }

  /** The arrangement the drop asks for. */
  function Intended(list: seq<Row>, moved: seq<Id>, at: nat): seq<Row>
    requires at <= |Rest(list, moved)|
  {
    var rest := Rest(list, moved);
    rest[..at] + Dragged(list, moved) + rest[at..]
  }

  /** How many rows lead before the first unplaced one. */
  function Anchored(rows: seq<Row>): (n: nat)
    ensures n <= |rows|
    ensures forall i | 0 <= i < n :: rows[i].key.Some?
    ensures n < |rows| ==> rows[n].key.None?
  {
    if rows == [] || rows[0].key.None? then 0 else 1 + Anchored(rows[1..])
  }

  /** A row below bounds the move when its key is above the floor. */
  predicate Bounds(row: Row, floor: Option<string>) {
    row.key.Some? && (floor.None? || Less(floor.value, row.key.value))
  }

  /** How many rows below the drop join the move: placed, and not above the floor. */
  function Joined(below: seq<Row>, floor: Option<string>): (n: nat)
    ensures n <= |below|
    ensures forall i | 0 <= i < n :: below[i].key.Some? && !Bounds(below[i], floor)
    ensures n < |below| ==> below[n].key.None? || Bounds(below[n], floor)
  {
    if below == [] || below[0].key.None? || Bounds(below[0], floor) then 0 else 1 + Joined(below[1..], floor)
  }

  function LastOf(rows: seq<Row>): Option<Row> {
    if rows == [] then None else Some(rows[|rows| - 1])
  }

  function KeyOf(row: Option<Row>): Option<string> {
    match row
    case None => None
    case Some(r) => r.key
  }

  function IdOf(row: Option<Row>): Option<Id> {
    match row
    case None => None
    case Some(r) => Some(r.id)
  }

  /** The pieces a landing cuts a list into: what stays above, what moves (the
      unplaced rows above the drop, the dragged rows, the rows tied below it),
      and what stays below. */
  datatype Cut = Cut(above: seq<Row>, lead: seq<Row>, dragged: seq<Row>, tied: seq<Row>, below: seq<Row>) {
    function Moving(): seq<Row> {
      lead + dragged + tied
    }

    function Floor(): Option<Row> {
      LastOf(above)
    }

    /** The row that bounds the keys from above, if one does. */
    function Ceiling(): Option<Row> {
      if lead == [] && below != [] && below[0].key.Some? then Some(below[0]) else None
    }
  }

  function CutOf(prefix: seq<Row>, dragged: seq<Row>, suffix: seq<Row>): Cut {
    var n := Anchored(prefix);
    var above, lead := prefix[..n], prefix[n..];
    var joined := if lead == [] then Joined(suffix, KeyOf(LastOf(above))) else 0;
    Cut(above, lead, dragged, suffix[..joined], suffix[joined..])
  }

  function CutAt(list: seq<Row>, moved: seq<Id>, at: nat): Cut
    requires at <= |Rest(list, moved)|
  {
    var rest := Rest(list, moved);
    CutOf(rest[..at], Dragged(list, moved), rest[at..])
  }

  function MoveOf(cut: Cut): TaskMove {
    TaskMove(Ids(cut.Moving()), IdOf(cut.Floor()), IdOf(cut.Ceiling()))
  }

  function PlanMove(list: seq<Row>, moved: seq<Id>, to: Drop): Option<TaskMove> {
    match Landing(Rest(list, moved), to)
    case None => None
    case Some(at) =>
      if Dragged(list, moved) == [] || Ids(Intended(list, moved, at)) == Ids(list) then None
      else Some(MoveOf(CutAt(list, moved, at)))
  }

  /** The walk over the rows below the drop, as the source runs it. */
  method WalkBelow(ids: seq<Id>, suffix: seq<Row>, floor: Option<string>)
    returns (all: seq<Id>, before: Option<Id>)
    ensures all == ids + Ids(suffix[..Joined(suffix, floor)])
    ensures before == var n := Joined(suffix, floor);
                      if n < |suffix| && suffix[n].key.Some? then Some(suffix[n].id) else None
  {
    all, before := ids, None;
    var i := 0;
    while i < |suffix|
      invariant i <= |suffix| && before == None
      invariant Joined(suffix, floor) == i + Joined(suffix[i..], floor)
      invariant all == ids + Ids(suffix[..i])
    {
      var row := suffix[i];
      if row.key.None? {
        return;
      }
      if Bounds(row, floor) {
        before := Some(row.id);
        return;
      }
      assert suffix[i..][1..] == suffix[i + 1..];
      all := all + [row.id];
      i := i + 1;
    }
  }

  /** Which rows move with the dragged ones, and which bound them. */
  method BoundMove(prefix: seq<Row>, moving: seq<Row>, suffix: seq<Row>) returns (move: TaskMove)
    ensures move == MoveOf(CutOf(prefix, moving, suffix))
  {
    var n := Anchored(prefix);
    var anchored, lead := prefix[..n], prefix[n..];
    var after := LastOf(anchored);
    var ids := Ids(lead + moving);
    var before: Option<Id> := None;
    ghost var cut := CutOf(prefix, moving, suffix);
    if lead == [] {
      ids, before := WalkBelow(ids, suffix, KeyOf(after));
      assert Ids(lead + moving) + Ids(cut.tied) == Ids(cut.Moving());
    } else {
      assert cut.Moving() == lead + moving;
    }
    move := TaskMove(ids, IdOf(after), before);
  }

  method ComputePlan(list: seq<Row>, moved: seq<Id>, to: Drop) returns (plan: Option<TaskMove>)
    ensures plan == PlanMove(list, moved, to)
  {
    var moving := Dragged(list, moved);
    if moving == [] {
      return None;
    }
    var rest := Rest(list, moved);
    var landing := Landing(rest, to);
    if landing.None? {
      return None;
    }
    var prefix, suffix := rest[..landing.value], rest[landing.value..];
    if Ids(prefix + moving + suffix) == Ids(list) {
      return None;
    }
    var move := BoundMove(prefix, moving, suffix);
    plan := Some(move);
  }
}
