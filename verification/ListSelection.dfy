/** The keyboard's place in a list: a cursor, the rows ticked, and the anchor a
    range grows from (apps/apple/Sunrise/Keyboard/ListSelection.swift). */
module ListSelection {
  import opened Wrappers
  import opened Sequences

  type Id = string

  datatype Direction = Up | Down

  datatype Edge = First | Last

  datatype Selection = Selection(ids: seq<Id>, cursor: Option<Id>, explicit: set<Id>, anchor: Option<Id>)

  function IndexOf(ids: seq<Id>, id: Id): (r: Option<nat>)
    ensures r.Some? ==> r.value < |ids| && ids[r.value] == id
    ensures r.None? <==> id !in ids
  {
    if ids == [] then None
    else if ids[0] == id then Some(0)
    else match IndexOf(ids[1..], id)
      case None => None
      case Some(k) => Some(k + 1)
  }

  function Targets(s: Selection): seq<Id> {
    if s.explicit == {} then (if s.cursor.Some? then [s.cursor.value] else [])
    else Filter(s.ids, Ticked(s.explicit))
  }

  function Ticked(explicit: set<Id>): Id -> bool {
    (id: Id) => id in explicit
  }

  function Common(ticked: set<Id>, rows: seq<Id>): set<Id> {
    set id | id in ticked && id in rows
  }

  function Reconciled(s: Selection, rows: seq<Id>): Selection {
    if rows == [] then Selection([], None, {}, None)
    else
      var previous := if s.cursor.Some? then IndexOf(s.ids, s.cursor.value) else None;
      var anchor := if s.anchor.Some? && s.anchor.value in rows then s.anchor else None;
      var cursor :=
        if s.cursor.Some? && s.cursor.value in rows then s.cursor
        else if previous.None? then None
        else Some(rows[Min(previous.value, |rows| - 1)]);
      Selection(rows, cursor, Common(s.explicit, rows), anchor)
  }

  /** Where an arrow goes, or nowhere at an end. */
  function IndexAfter(s: Selection, direction: Direction): (r: Option<nat>)
    ensures r.Some? ==> r.value < |s.ids|
  {
    if s.ids == [] then None
    else
      var current := if s.cursor.Some? then IndexOf(s.ids, s.cursor.value) else None;
      match current
      case None => Some(if direction.Down? then 0 else |s.ids| - 1)
      case Some(k) =>
        if direction.Up? then (if k == 0 then None else Some(k - 1))
        else if k == |s.ids| - 1 then None else Some(k + 1)
  }

  function At(s: Selection, id: Id): Selection {
    s.(cursor := Some(id), explicit := {}, anchor := Some(id))
  }

  function Moved(s: Selection, direction: Direction): Selection {
    match IndexAfter(s, direction)
    case None => s.(explicit := {}, anchor := s.cursor)
    case Some(next) => At(s, s.ids[next])
  }

  function MovedToEdge(s: Selection, edge: Edge): Selection {
    if s.ids == [] then s else At(s, if edge.First? then s.ids[0] else s.ids[|s.ids| - 1])
  }

  function Rows(ids: seq<Id>, low: nat, high: nat): (r: set<Id>)
    requires low <= high < |ids|
    ensures forall id :: id in r <==> exists k :: low <= k <= high && ids[k] == id
  {
    set k | low <= k <= high :: ids[k]
  }

  function Extended(s: Selection, direction: Direction): Selection {
    match IndexAfter(s, direction)
    case None => s
    case Some(next) =>
      var anchor := if s.anchor.Some? then s.anchor.value else if s.cursor.Some? then s.cursor.value else s.ids[next];
      match IndexOf(s.ids, anchor)
      case None => s.(cursor := Some(s.ids[next]), explicit := {s.ids[next]}, anchor := Some(anchor))
      case Some(start) =>
        s.(cursor := Some(s.ids[next]), explicit := Rows(s.ids, Min(start, next), Max(start, next)), anchor := Some(anchor))
  }

  function Toggled(s: Selection): Selection {
    match s.cursor
    case None => s
    case Some(c) => s.(explicit := if c in s.explicit then s.explicit - {c} else s.explicit + {c}, anchor := s.cursor)
  }

  function Focused(s: Selection, id: Id): Selection {
    if id in s.ids then At(s, id) else s
  }

  /** The first row of the list among those ticked. */
  function FirstTicked(ids: seq<Id>, ticked: set<Id>): (r: Option<Id>)
    ensures r.Some? ==> r.value in ids && r.value in ticked
    ensures r.None? ==> forall id | id in ids :: id !in ticked
  {
    if ids == [] then None else if ids[0] in ticked then Some(ids[0]) else FirstTicked(ids[1..], ticked)
  }

  function Adopted(s: Selection, selected: set<Id>): Selection {
    var ticked := Common(selected, s.ids);
    if ticked == {} || (s.cursor.Some? && s.cursor.value in ticked) then s.(explicit := ticked)
    else s.(explicit := ticked, cursor := FirstTicked(s.ids, ticked), anchor := FirstTicked(s.ids, ticked))
  }

  function AllSelected(s: Selection): Selection {
    var first := if s.ids == [] then None else Some(s.ids[0]);
    s.(explicit := (set id | id in s.ids), anchor := first, cursor := if s.cursor.None? then first else s.cursor)
  }

  function Cleared(s: Selection): Selection {
    s.(explicit := {}, anchor := s.cursor)
  }

  datatype Key =
    | Reconcile(rows: seq<Id>)
    | Move(direction: Direction)
    | MoveToEdge(edge: Edge)
    | Extend(direction: Direction)
    | Toggle
    | Focus(id: Id)
    | Adopt(selected: set<Id>)
    | SelectAll
    | Clear

  function Pressed(s: Selection, key: Key): Selection {
    match key
    case Reconcile(rows) => Reconciled(s, rows)
    case Move(direction) => Moved(s, direction)
    case MoveToEdge(edge) => MovedToEdge(s, edge)
    case Extend(direction) => Extended(s, direction)
    case Toggle => Toggled(s)
    case Focus(id) => Focused(s, id)
    case Adopt(selected) => Adopted(s, selected)
    case SelectAll => AllSelected(s)
    case Clear => Cleared(s)
  }

  function PressedAll(s: Selection, keys: seq<Key>): Selection
    decreases |keys|
  {
    if keys == [] then s else PressedAll(Pressed(s, keys[0]), keys[1..])
  }

  const Fresh: Selection := Selection([], None, {}, None)

  // ---- What every run of keys keeps ----

  /** The cursor, the anchor and every tick are rows of the list. */
  ghost predicate OnTheList(s: Selection) {
    && Distinct(s.ids)
    && (s.cursor.Some? ==> s.cursor.value in s.ids)
    && (s.anchor.Some? ==> s.anchor.value in s.ids)
    && (forall id | id in s.explicit :: id in s.ids)
  }

  /** A list never shows one row twice. */
  ghost predicate RowsOnce(keys: seq<Key>) {
    forall key | key in keys :: key.Reconcile? ==> Distinct(key.rows)
  }

  lemma ReconcileStaysOnTheList(s: Selection, rows: seq<Id>)
    requires OnTheList(s) && Distinct(rows)
    ensures OnTheList(Reconciled(s, rows))
  {}

  lemma ExtendStaysOnTheList(s: Selection, direction: Direction)
    requires OnTheList(s)
    ensures OnTheList(Extended(s, direction))
  {}

  lemma {:induction false} KeyStaysOnTheList(s: Selection, key: Key)
    requires OnTheList(s) && (key.Reconcile? ==> Distinct(key.rows))
    ensures OnTheList(Pressed(s, key))
  {
    if key.Reconcile? {
      ReconcileStaysOnTheList(s, key.rows);
    } else if key.Extend? {
      ExtendStaysOnTheList(s, key.direction);
    } else {
      PlainKeyStaysOnTheList(s, key);
    }
  }

  lemma PlainKeyStaysOnTheList(s: Selection, key: Key)
    requires OnTheList(s) && !key.Reconcile? && !key.Extend?
    ensures OnTheList(Pressed(s, key))
  {}

  lemma {:induction false} EveryRunStaysOnTheList(s: Selection, keys: seq<Key>)
    requires OnTheList(s) && RowsOnce(keys)
    ensures OnTheList(PressedAll(s, keys))
    decreases |keys|
  {
    if keys != [] {
      assert keys[0] in keys;
      KeyStaysOnTheList(s, keys[0]);
      EveryRunStaysOnTheList(Pressed(s, keys[0]), keys[1..]);
    }
  }

  /** What a row action applies to is rows of the list, in the order they are
      drawn, each once; and it is nothing only when nothing is ticked and there
      is no cursor. */
  lemma {:induction false} TargetsAreRowsInOrder(keys: seq<Key>) returns (at: seq<nat>)
    requires RowsOnce(keys)
    ensures var s := PressedAll(Fresh, keys);
            && Subsequence(Targets(s), s.ids, at)
            && Distinct(Targets(s))
            && (Targets(s) == [] <==> s.explicit == {} && s.cursor.None?)
  {
    var s := PressedAll(Fresh, keys);
    EveryRunStaysOnTheList(Fresh, keys);
    if s.explicit == {} {
      if s.cursor.Some? {
        at := [IndexOf(s.ids, s.cursor.value).value];
      } else {
        at := [];
      }
    } else {
      var ticked := Ticked(s.explicit);
      at := FilterIndices(s.ids, ticked);
      FilterKeepsDistinct(s.ids, ticked);
      var id :| id in s.explicit;
      assert id in Targets(s);
    }
  }

  // ---- Ranges ----

  /** The ticks are exactly the rows from the anchor to the cursor. */
  ghost predicate IsRange(s: Selection) {
    && s.anchor.Some? && s.cursor.Some?
    && IndexOf(s.ids, s.anchor.value).Some? && IndexOf(s.ids, s.cursor.value).Some?
    && var a, c := IndexOf(s.ids, s.anchor.value).value, IndexOf(s.ids, s.cursor.value).value;
       s.explicit == Rows(s.ids, Min(a, c), Max(a, c))
  }

  lemma {:induction false} IndexIs(ids: seq<Id>, k: nat)
    requires Distinct(ids) && k < |ids|
    ensures IndexOf(ids, ids[k]) == Some(k)
  {
    var r := IndexOf(ids, ids[k]);
    assert ids[r.value] == ids[k];
  }

  /** One `Shift+arrow` either does nothing, at an end, or leaves a range from
      the anchor there was. */
  lemma {:induction false} ExtendMakesARange(s: Selection, direction: Direction)
    requires OnTheList(s) && IndexAfter(s, direction).Some?
    ensures IsRange(Extended(s, direction))
    ensures s.anchor.Some? ==> Extended(s, direction).anchor == s.anchor
  {
    IndexIs(s.ids, IndexAfter(s, direction).value);
  }

  /** Any run of extends, once one of them has moved: the targets are exactly the
      rows from the anchor to the cursor, and the anchor has not moved. */
  lemma {:induction false} ExtendsKeepTheRange(s: Selection, keys: seq<Key>)
    requires OnTheList(s) && IsRange(s) && forall key | key in keys :: key.Extend?
    ensures IsRange(PressedAll(s, keys)) && PressedAll(s, keys).anchor == s.anchor && OnTheList(PressedAll(s, keys))
    decreases |keys|
  {
    if keys != [] {
      assert keys[0] in keys;
      KeyStaysOnTheList(s, keys[0]);
      if IndexAfter(s, keys[0].direction).Some? {
        ExtendMakesARange(s, keys[0].direction);
      }
      ExtendsKeepTheRange(Pressed(s, keys[0]), keys[1..]);
    }
  }

  lemma {:induction false} RangeTargetsAreContiguous(s: Selection)
    requires OnTheList(s) && IsRange(s)
    ensures var a, c := IndexOf(s.ids, s.anchor.value).value, IndexOf(s.ids, s.cursor.value).value;
            Targets(s) == s.ids[Min(a, c)..Max(a, c) + 1]
  {
    var a, c := IndexOf(s.ids, s.anchor.value).value, IndexOf(s.ids, s.cursor.value).value;
    TickedRows(s.ids, Min(a, c), Max(a, c), s.explicit);
  }

  lemma {:induction false} TickedRows(ids: seq<Id>, low: nat, high: nat, explicit: set<Id>)
    requires Distinct(ids) && low <= high < |ids| && explicit == Rows(ids, low, high)
    ensures explicit != {} && Filter(ids, Ticked(explicit)) == ids[low..high + 1]
  {
    var ticked := Ticked(explicit);
    assert ids[low] in explicit;
    forall k | 0 <= k < |ids|
      ensures ticked(ids[k]) <==> low <= k < high + 1
    {}
    RangeOfRows(ids, low, high + 1, ticked);
  }

  lemma {:induction false} RangeOfRows(ids: seq<Id>, low: nat, high: nat, ticked: Id -> bool)
    requires low <= high <= |ids|
    requires forall k | 0 <= k < |ids| :: ticked(ids[k]) <==> low <= k < high
    ensures Filter(ids, ticked) == ids[low..high]
  {
    var above, inside, below := ids[..low], ids[low..high], ids[high..];
    assert forall k | 0 <= k < |above| :: above[k] == ids[k];
    assert forall k | 0 <= k < |inside| :: inside[k] == ids[low + k];
    assert forall k | 0 <= k < |below| :: below[k] == ids[high + k];
    ThreeParts(above, inside, below, ticked);
    assert ids == above + inside + below;
  }

  lemma {:induction false} ThreeParts(above: seq<Id>, inside: seq<Id>, below: seq<Id>, ticked: Id -> bool)
    requires (forall id | id in above :: !ticked(id)) && (forall id | id in inside :: ticked(id))
    requires forall id | id in below :: !ticked(id)
    ensures Filter(above + inside + below, ticked) == inside
  {
    FilterNone(above, ticked);
    FilterAll(inside, ticked);
    FilterNone(below, ticked);
    FilterConcat(above, inside, ticked);
    assert Filter(above + inside, ticked) == inside;
    FilterConcat(above + inside, below, ticked);
  }

  function Opposite(direction: Direction): Direction {
    if direction.Up? then Down else Up
  }

  /** Reversing takes back the last step: it un-ticks what that step ticked. */
  lemma {:induction false} ReversingUndoesAnExtend(s: Selection, direction: Direction)
    requires OnTheList(s) && IsRange(s) && IndexAfter(s, direction).Some?
    ensures Extended(Extended(s, direction), Opposite(direction)) == s
  {
    IndexIs(s.ids, IndexAfter(s, direction).value);
    IndexIs(s.ids, IndexOf(s.ids, s.cursor.value).value);
  }

  // ---- Rows that leave ----

  /** A list that has rows keeps a cursor exactly when it had one: the first rows
      a list is given do not make one. */
  lemma {:induction false} ReconcileKeepsACursorIff(s: Selection, rows: seq<Id>)
    requires OnTheList(s) && rows != []
    ensures Reconciled(s, rows).cursor.Some? <==> s.cursor.Some?
  {}

  /** Completing the row under the cursor, so that it leaves, puts the cursor on
      the row that took its place, or on the last row when there is none. */
  lemma {:induction false} TheNextRowTakesTheCursor(s: Selection)
    requires OnTheList(s) && s.cursor.Some? && |s.ids| > 1
    ensures var i := IndexOf(s.ids, s.cursor.value).value;
            var left := s.ids[..i] + s.ids[i + 1..];
            Reconciled(s, left).cursor == Some(if i + 1 < |s.ids| then s.ids[i + 1] else s.ids[i - 1])
  {
    var i := IndexOf(s.ids, s.cursor.value).value;
    var left := s.ids[..i] + s.ids[i + 1..];
    forall k | 0 <= k < |left|
      ensures left[k] == s.ids[if k < i then k else k + 1] && left[k] != s.cursor.value
    {}
  }

  // ---- Adopting the list's own selection ----

  function LastTicked(ids: seq<Id>, ticked: set<Id>): (r: Option<Id>)
    ensures r.Some? ==> r.value in ids && r.value in ticked
    ensures r.None? ==> forall id | id in ids :: id !in ticked
  {
    if ids == [] then None
    else
      var last := |ids| - 1;
      if ids[last] in ticked then Some(ids[last]) else LastTicked(ids[..last], ticked)
  }

  lemma {:induction false} LastTickedIs(ids: seq<Id>, ticked: set<Id>, k: nat)
    requires k < |ids| && ids[k] in ticked && forall j | k < j < |ids| :: ids[j] !in ticked
    ensures LastTicked(ids, ticked) == Some(ids[k])
  {
    if k < |ids| - 1 {
      LastTickedIs(ids[..|ids| - 1], ticked, k);
    }
  }

  lemma {:induction false} LastTickedAt(ids: seq<Id>, ticked: set<Id>) returns (k: nat)
    requires exists id :: id in ids && id in ticked
    ensures k < |ids| && ids[k] in ticked && LastTicked(ids, ticked) == Some(ids[k])
    ensures forall j | k < j < |ids| :: ids[j] !in ticked
  {
    k := |ids| - 1;
    if ids[k] !in ticked {
      k := LastTickedAt(ids[..k], ticked);
    }
  }

  lemma {:induction false} FirstTickedAt(ids: seq<Id>, ticked: set<Id>) returns (k: nat)
    requires exists id :: id in ids && id in ticked
    ensures k < |ids| && ids[k] in ticked && FirstTicked(ids, ticked) == Some(ids[k])
    ensures forall j | 0 <= j < k :: ids[j] !in ticked
  {
    k := 0;
    if ids[0] !in ticked {
      var j := FirstTickedAt(ids[1..], ticked);
      k := j + 1;
    }
  }

  /** The rows a selection made by the list itself adds to those ticked. */
  function Gained(s: Selection, selected: set<Id>): set<Id> {
    Common(selected, s.ids) - s.explicit
  }

  /** The cursor is to follow the last row the selection gained. It does exactly if,
      where the selection holds the cursor, that row is the cursor, and where it does
      not, no selected row stands above one gained. */
  lemma {:induction false} CursorFollowsTheLastGainedIff(s: Selection, selected: set<Id>)
    requires Distinct(s.ids) && Gained(s, selected) != {}
    ensures Adopted(s, selected).cursor == LastTicked(s.ids, Gained(s, selected))
        <==> if s.cursor.Some? && s.cursor.value in Common(selected, s.ids)
             then && s.cursor.value in Gained(s, selected)
                  && forall i, j | 0 <= i < j < |s.ids| && s.ids[i] == s.cursor.value :: s.ids[j] !in Gained(s, selected)
             else forall i, j | 0 <= i < j < |s.ids| && s.ids[j] in Gained(s, selected) :: s.ids[i] !in selected
  {
    var gained, ticked := Gained(s, selected), Common(selected, s.ids);
    var id :| id in gained;
    assert id in s.ids && id in ticked;
    var last := LastTickedAt(s.ids, gained);
    if s.cursor.Some? && s.cursor.value in ticked {
      var c :| 0 <= c < |s.ids| && s.ids[c] == s.cursor.value;
      if s.cursor.value in gained && forall j | c < j < |s.ids| :: s.ids[j] !in gained {
        LastTickedIs(s.ids, gained, c);
      }
    } else {
      var first := FirstTickedAt(s.ids, ticked);
      assert first <= last;
      if first < last {
        assert s.ids[first] in selected && s.ids[last] in gained;
      }
    }
  }

  /** Three rows selected from the top by a shift-click, and `Shift+Down`: the third is let go. */
  lemma {:induction false} AnAdoptedRangeCanShrink(a: Id, b: Id, c: Id, d: Id)
    requires Distinct([a, b, c, d])
    ensures var clicked := PressedAll(Fresh, [Reconcile([a, b, c, d]), Adopt({a, b, c})]);
            Targets(clicked) == [a, b, c] && Targets(Pressed(clicked, Extend(Down))) == [a, b]
  {
    var rows := [a, b, c, d];
    var shown := Selection(rows, None, {}, None);
    var clicked := Selection(rows, Some(a), {a, b, c}, Some(a));
    TheTopIsAdopted(rows, a, b, c, d);
    TwoKeys(Fresh, Reconcile(rows), Adopt({a, b, c}));
    assert Pressed(Fresh, Reconcile(rows)) == shown;
    TheTopShrinks(rows, a, b, c, d);
  }

  lemma TwoKeys(s: Selection, first: Key, second: Key)
    ensures PressedAll(s, [first, second]) == Pressed(Pressed(s, first), second)
  {
    assert [first, second][1..] == [second] && [second][1..] == [];
    assert PressedAll(Pressed(s, first), [second]) == PressedAll(Pressed(Pressed(s, first), second), []);
  }

  lemma TheTopIsAdopted(rows: seq<Id>, a: Id, b: Id, c: Id, d: Id)
    requires rows == [a, b, c, d]
    ensures Adopted(Selection(rows, None, {}, None), {a, b, c}) == Selection(rows, Some(a), {a, b, c}, Some(a))
  {
    assert rows[0] == a && rows[1] == b && rows[2] == c;
    assert Common({a, b, c}, rows) == {a, b, c};
  }

  lemma TheTopShrinks(rows: seq<Id>, a: Id, b: Id, c: Id, d: Id)
    requires rows == [a, b, c, d] && Distinct(rows)
    ensures var clicked := Selection(rows, Some(a), {a, b, c}, Some(a));
            Targets(clicked) == [a, b, c] && Targets(Extended(clicked, Down)) == [a, b]
  {
    var clicked := Selection(rows, Some(a), {a, b, c}, Some(a));
    IndexIs(rows, 0);
    assert IndexAfter(clicked, Down) == Some(1);
    TopTargets(rows, 1, Extended(clicked, Down));
    assert rows[0] == a && rows[1] == b && rows[2] == c;
    assert forall id :: id in Rows(rows, 0, 2) ==> id in {a, b, c};
    assert {a, b, c} == Rows(rows, 0, 2);
    TopTargets(rows, 2, clicked);
  }

  lemma TopTargets(rows: seq<Id>, last: nat, s: Selection)
    requires Distinct(rows) && last < |rows| && s.ids == rows && s.explicit == Rows(rows, 0, last)
    ensures Targets(s) == rows[..last + 1]
  {
    TickedRows(rows, 0, last, s.explicit);
  }

  // ---- The selection ----

  class Model {
    var ids: seq<Id>
    var cursor: Option<Id>
    var explicit: set<Id>
    var anchor: Option<Id>

    constructor ()
      ensures View() == Fresh
    {
      ids, cursor, explicit, anchor := [], None, {}, None;
    }

    function View(): Selection
      reads this
    {
      Selection(ids, cursor, explicit, anchor)
    }

    method Reconcile(rows: seq<Id>)
      modifies this
      ensures View() == Reconciled(old(View()), rows)
    {
      var previousIndex := if cursor.Some? then IndexOf(ids, cursor.value) else None;
      ids := rows;
      explicit := Common(explicit, rows);
      if anchor.Some? && anchor.value !in rows {
        anchor := None;
      }
      if rows == [] {
        cursor, anchor, explicit := None, None, {};
        return;
      }
      if cursor.Some? && cursor.value in rows {
        return;
      }
      if previousIndex.None? {
        cursor := None;
        return;
      }
      cursor := Some(rows[Min(previousIndex.value, |rows| - 1)]);
    }

    method Move(direction: Direction)
      modifies this
      ensures View() == Moved(old(View()), direction)
    {
      var next := IndexAfter(View(), direction);
      if next.None? {
        explicit, anchor := {}, cursor;
        return;
      }
      cursor, explicit, anchor := Some(ids[next.value]), {}, Some(ids[next.value]);
    }

    method MoveToEdge(edge: Edge)
      modifies this
      ensures View() == MovedToEdge(old(View()), edge)
    {
      if ids == [] {
        return;
      }
      var target := if edge.First? then ids[0] else ids[|ids| - 1];
      cursor, explicit, anchor := Some(target), {}, Some(target);
    }

    method Extend(direction: Direction)
      modifies this
      ensures View() == Extended(old(View()), direction)
    {
      var next := IndexAfter(View(), direction);
      if next.None? {
        return;
      }
      var anchorId := if anchor.Some? then anchor.value else if cursor.Some? then cursor.value else ids[next.value];
      anchor, cursor := Some(anchorId), Some(ids[next.value]);
      var start := IndexOf(ids, anchorId);
      if start.None? {
        explicit := {ids[next.value]};
        return;
      }
      explicit := Rows(ids, Min(start.value, next.value), Max(start.value, next.value));
    }

    method ToggleAtCursor()
      modifies this
      ensures View() == Toggled(old(View()))
    {
      if cursor.None? {
        return;
      }
      if cursor.value in explicit {
        explicit := explicit - {cursor.value};
      } else {
        explicit := explicit + {cursor.value};
      }
      anchor := cursor;
    }

    method Focus(id: Id)
      modifies this
      ensures View() == Focused(old(View()), id)
    {
      if id in ids {
        cursor, explicit, anchor := Some(id), {}, Some(id);
      }
    }

    method Adopt(selected: set<Id>)
      modifies this
      ensures View() == Adopted(old(View()), selected)
    {
      explicit := Common(selected, ids);
      if explicit == {} || (cursor.Some? && cursor.value in explicit) {
        return;
      }
      cursor := FirstTicked(ids, explicit);
      anchor := cursor;
    }

    method SelectAll()
      modifies this
      ensures View() == AllSelected(old(View()))
    {
      explicit := set id | id in ids;
      anchor := if ids == [] then None else Some(ids[0]);
      if cursor.None? {
        cursor := anchor;
      }
    }

    method ClearSelection()
      modifies this
      ensures View() == Cleared(old(View()))
    {
      explicit, anchor := {}, cursor;
    }
  }
}
