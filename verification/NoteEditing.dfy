/** The note editor as the object the sheet edits, and what any run of edits
    keeps (apps/apple/Sunrise/Notes/NoteEditorModel.swift). */
module NoteEditing {
  import opened Wrappers
  import opened Sequences
  import opened NoteText
  import opened NoteEditor
  import L = NoteLists

  datatype Edit =
    | SetKind(kind: Kind, block: nat)
    | InsertBlock(kind: Kind, below: Option<nat>)
    | RemoveBlock(block: nat)
    | MoveBlock(block: nat, offset: int)
    | AddRow(block: nat, below: Option<nat>)
    | RemoveRow(row: nat, block: nat)
    | ToggleChecked(row: nat, block: nat)
    | IndentRow(row: nat, block: nat)
    | OutdentRow(row: nat, block: nat)
    | Type(block: nat, text: Attributed)
    | TypeRow(row: nat, block: nat, text: Attributed)
    | TypeCode(block: nat, code: string, language: string)
    | Focus(onto: Option<nat>)
    | ToggleMark(mark: Mark, at: set<nat>, selected: nat)

  function IndexOf(blocks: seq<EditorBlock>, id: nat): (r: Option<nat>)
    ensures r.Some? ==> r.value < |blocks| && blocks[r.value].id == id
  {
    if blocks == [] then None
    else if blocks[0].id == id then Some(0)
    else match IndexOf(blocks[1..], id)
      case None => None
      case Some(k) => Some(k + 1)
  }

  /** The block with its rows replaced. */
  function WithRows(n: Note, i: nat, rows: seq<Row>): Note
    requires i < |n.blocks|
  {
    n.(blocks := n.blocks[i := n.blocks[i].(rows := rows)])
  }

  function Inserted(n: Note, kind: Kind, below: Option<nat>): Note {
    var block := if kind.HasRows() then Blank(n.next, kind).(rows := [Row(n.next + 1, [], false, 0)]) else Blank(n.next, kind);
    var found := if below.Some? then IndexOf(n.blocks, below.value) else None;
    var at := if found.Some? then found.value + 1 else |n.blocks|;
    n.(blocks := n.blocks[..at] + [block] + n.blocks[at..], focused := Some(block.id), next := n.next + 2)
  }

  function Removed(n: Note, i: nat): Note
    requires i < |n.blocks|
  {
    if |n.blocks| == 1 then n.(blocks := [Blank(n.next, Paragraph)], focused := Some(n.next), next := n.next + 1)
    else
      var blocks := n.blocks[..i] + n.blocks[i + 1..];
      n.(blocks := blocks, focused := Some(blocks[Min(i, |blocks| - 1)].id))
  }

  function Swapped<T>(s: seq<T>, i: nat, j: nat): seq<T>
    requires i < |s| && j < |s|
  {
    s[i := s[j]][j := s[i]]
  }

  function Retyped(rows: seq<Row>, id: nat, text: Attributed): seq<Row> {
    match Find(rows, id)
    case None => rows
    case Some(k) => rows[k := rows[k].(text := text)]
  }

  function RowMarkToggled(rows: seq<Row>, id: nat, mark: Mark, at: set<nat>): seq<Row> {
    match Find(rows, id)
    case None => rows
    case Some(k) => rows[k := rows[k].(text := MarkToggled(rows[k].text, mark, at))]
  }

  /** The block an edit is about: the one it names, or for a mark the one in focus. */
  function Target(n: Note, e: Edit): Option<nat> {
    match e
    case InsertBlock(_, _) => None
    case Focus(_) => None
    case ToggleMark(_, _, _) => if n.focused.Some? then IndexOf(n.blocks, n.focused.value) else None
    case _ => IndexOf(n.blocks, e.block)
  }

  /** One edit of an unlocked note. A text field binds to its text and may leave anything in it. */
  function EditedAt(n: Note, e: Edit, i: nat): Note
    requires i < |n.blocks|
  {
    var b := n.blocks[i];
    match e
    case SetKind(kind, _) => n.(blocks := n.blocks[i := Rekinded(b, kind, n.next)], next := n.next + 1)
    case Type(_, text) => if b.kind.HasText() then n.(blocks := n.blocks[i := b.(text := text)]) else n
    case TypeRow(row, _, text) => WithRows(n, i, Retyped(b.rows, row, text))
    case TypeCode(_, code, language) =>
      if b.kind.Code? then n.(blocks := n.blocks[i := b.(code := code, language := language)]) else n
    case InsertBlock(_, _) => n
    case Focus(_) => n
    case ToggleMark(mark, at, selected) =>
      if b.kind.HasText() then n.(blocks := n.blocks[i := b.(text := MarkToggled(b.text, mark, at))])
      else WithRows(n, i, RowMarkToggled(b.rows, selected, mark, at))
    case RemoveBlock(_) => Removed(n, i)
    case MoveBlock(_, offset) => if 0 <= i + offset < |n.blocks| then n.(blocks := Swapped(n.blocks, i, i + offset)) else n
    case AddRow(_, below) =>
      if b.kind.HasRows() then WithRows(n, i, RowAdded(b.rows, below, n.next)).(next := n.next + 1) else n
    case RemoveRow(row, _) => WithRows(n, i, RowRemoved(b.rows, row))
    case ToggleChecked(row, _) => WithRows(n, i, Toggled(b.rows, row))
    case IndentRow(row, _) => if b.kind.AllowsNesting() then WithRows(n, i, Indented(b.rows, row)) else n
    case OutdentRow(row, _) => WithRows(n, i, Outdented(b.rows, row))
  }

  function Edited(n: Note, e: Edit): Note {
    if n.lock.Some? then n
    else if e.InsertBlock? then Inserted(n, e.kind, e.below)
    else if e.Focus? then n.(focused := if e.onto.Some? && IndexOf(n.blocks, e.onto.value).Some? then e.onto else None)
    else match Target(n, e)
      case None => n
      case Some(i) => EditedAt(n, e, i)
  }

  function EditedAll(n: Note, edits: seq<Edit>): Note
    decreases |edits|
  {
    if edits == [] then n else EditedAll(Edited(n, edits[0]), edits[1..])
  }

  // ---- The model ----

  class NoteEditorModel {
    var blocks: seq<EditorBlock>
    var lock: Option<Lock>
    var focusedBlock: Option<nat>
    var loaded: seq<L.Block>
    var nextId: nat

    constructor (document: seq<L.Block>, lossy: bool)
      ensures View() == Loaded(document, lossy, 0)
    {
      blocks, loaded, nextId := DrawnAll(document, 0), document, NextId(document, 0);
      if lossy {
        lock := Some(Unreadable);
      } else if SavedAll(DrawnAll(document, 0)) != document {
        lock := Some(Unsupported);
      } else {
        lock := None;
      }
      new;
      if blocks == [] && lock.None? {
        blocks, nextId := [Blank(nextId, Paragraph)], nextId + 1;
      }
      focusedBlock := if blocks == [] then None else Some(blocks[0].id);
    }

    function View(): Note
      reads this
    {
      Note(blocks, lock, focusedBlock, loaded, nextId)
    }

    method SetKind(kind: Kind, id: nat)
      modifies this`blocks, this`nextId
      ensures View() == Edited(old(View()), Edit.SetKind(kind, id))
    {
      var index := IndexOf(blocks, id);
      if lock.Some? || index.None? {
        return;
      }
      var b := blocks[index.value];
      if b.kind != kind {
        if b.kind.HasRows() && !kind.HasRows() {
          var text := Join(b.rows);
          b := b.(text := text, rows := []);
        } else if !b.kind.HasRows() && kind.HasRows() {
          b := b.(rows := [Row(nextId, b.text, false, 0)], text := []);
        }
        if kind.HasRows() && !kind.AllowsNesting() {
          var row := 0;
          ghost var was := b;
          while row < |b.rows|
            invariant row <= |b.rows| == |was.rows| && b == was.(rows := b.rows)
            invariant forall k | 0 <= k < |b.rows| ::
                        b.rows[k] == if k < row then was.rows[k].(depth := 0) else was.rows[k]
          {
            b := b.(rows := b.rows[row := b.rows[row].(depth := 0)]);
            row := row + 1;
          }
          assert b.rows == ToTop(was.rows);
        }
        b := b.(kind := kind);
      }
      blocks := blocks[index.value := b];
      nextId := nextId + 1;
    }

    static method Join(rows: seq<Row>) returns (out: Attributed)
      ensures out == Joined(rows)
    {
      out := [];
      for i := 0 to |rows|
        invariant out == Joined(rows[..i])
      {
        assert rows[..i + 1][..i] == rows[..i];
        if rows[i].text != [] {
          if out != [] {
            out := out + Plain(" ");
          }
          out := out + rows[i].text;
        }
      }
      assert rows[..|rows|] == rows;
    }

    method InsertBlock(kind: Kind, below: Option<nat>) returns (id: Option<nat>)
      modifies this`blocks, this`nextId, this`focusedBlock
      ensures View() == Edited(old(View()), Edit.InsertBlock(kind, below))
      ensures id == if lock.Some? then None else focusedBlock
    {
      if lock.Some? {
        return None;
      }
      var block := Blank(nextId, kind);
      if kind.HasRows() {
        block := block.(rows := [Row(nextId + 1, [], false, 0)]);
      }
      var found := if below.Some? then IndexOf(blocks, below.value) else None;
      PutBlock(block, if found.Some? then found.value + 1 else |blocks|);
      return focusedBlock;
    }

    method PutBlock(block: EditorBlock, at: nat)
      requires at <= |blocks|
      modifies this`blocks, this`nextId, this`focusedBlock
      ensures View() == old(View()).(blocks := old(blocks)[..at] + [block] + old(blocks)[at..], focused := Some(block.id),
                                     next := old(nextId) + 2)
    {
      blocks := blocks[..at] + [block] + blocks[at..];
      nextId := nextId + 2;
      focusedBlock := Some(block.id);
    }

    method RemoveBlock(id: nat)
      modifies this`blocks, this`nextId, this`focusedBlock
      ensures View() == Edited(old(View()), Edit.RemoveBlock(id))
    {
      var index := IndexOf(blocks, id);
      if lock.Some? || index.None? {
        return;
      }
      if |blocks| == 1 {
        blocks, nextId := [Blank(nextId, Paragraph)], nextId + 1;
        focusedBlock := Some(blocks[0].id);
        return;
      }
      blocks := blocks[..index.value] + blocks[index.value + 1..];
      focusedBlock := Some(blocks[Min(index.value, |blocks| - 1)].id);
    }

    method MoveBlock(id: nat, offset: int)
      modifies this`blocks
      ensures View() == Edited(old(View()), Edit.MoveBlock(id, offset))
    {
      var index := IndexOf(blocks, id);
      if lock.Some? || index.None? {
        return;
      }
      var target := index.value + offset;
      if 0 <= target < |blocks| {
        blocks := blocks[index.value := blocks[target]][target := blocks[index.value]];
      }
    }

    method AddRow(id: nat, below: Option<nat>)
      modifies this`blocks, this`nextId
      ensures View() == Edited(old(View()), Edit.AddRow(id, below))
    {
      var index := IndexOf(blocks, id);
      if lock.Some? || index.None? || !blocks[index.value].kind.HasRows() {
        return;
      }
      var rows := blocks[index.value].rows;
      var found := if below.Some? then Find(rows, below.value) else None;
      var at := if found.Some? then found.value + 1 else |rows|;
      var row := Row(nextId, [], false, if at > 0 then rows[at - 1].depth else 0);
      SetRows(index.value, rows[..at] + [row] + rows[at..]);
      nextId := nextId + 1;
    }

    method SetRows(index: nat, rows: seq<Row>)
      requires index < |blocks|
      modifies this`blocks
      ensures View() == WithRows(old(View()), index, rows)
    {
      blocks := blocks[index := blocks[index].(rows := rows)];
    }

    method RemoveRow(row: nat, id: nat)
      modifies this`blocks
      ensures View() == Edited(old(View()), Edit.RemoveRow(row, id))
    {
      var index := IndexOf(blocks, id);
      if lock.Some? || index.None? {
        return;
      }
      if |blocks[index.value].rows| <= 1 {
        assert WithRows(View(), index.value, blocks[index.value].rows) == View();
        return;
      }
      SetRows(index.value, WithoutRow(blocks[index.value].rows, row));
      NormalizeDepths(index.value);
    }

    method ToggleChecked(row: nat, id: nat)
      modifies this`blocks
      ensures View() == Edited(old(View()), Edit.ToggleChecked(row, id))
    {
      var index := IndexOf(blocks, id);
      if lock.Some? || index.None? {
        return;
      }
      var rows := blocks[index.value].rows;
      var k := Find(rows, row);
      if k.None? {
        assert WithRows(View(), index.value, rows) == View();
        return;
      }
      SetRows(index.value, rows[k.value := rows[k.value].(checked := !rows[k.value].checked)]);
    }

    method IndentRow(row: nat, id: nat)
      modifies this`blocks
      ensures View() == Edited(old(View()), Edit.IndentRow(row, id))
    {
      var index := IndexOf(blocks, id);
      if lock.Some? || index.None? || !blocks[index.value].kind.AllowsNesting() {
        return;
      }
      var rows := blocks[index.value].rows;
      var k := Find(rows, row);
      if k.None? || k.value == 0 || rows[k.value].depth > rows[k.value - 1].depth {
        assert WithRows(View(), index.value, rows) == View();
        return;
      }
      SetRows(index.value, rows[k.value := rows[k.value].(depth := rows[k.value].depth + 1)]);
    }

    method OutdentRow(row: nat, id: nat)
      modifies this`blocks
      ensures View() == Edited(old(View()), Edit.OutdentRow(row, id))
    {
      var index := IndexOf(blocks, id);
      if lock.Some? || index.None? {
        return;
      }
      var rows := blocks[index.value].rows;
      var k := Find(rows, row);
      if k.None? || rows[k.value].depth == 0 {
        assert WithRows(View(), index.value, rows) == View();
        return;
      }
      SetRows(index.value, rows[k.value := rows[k.value].(depth := rows[k.value].depth - 1)]);
      NormalizeDepths(index.value);
    }

    /** A text field's binding, which may be left with anything a person typed or pasted. */
    method Type(id: nat, text: Attributed)
      modifies this`blocks
      ensures View() == Edited(old(View()), Edit.Type(id, text))
    {
      var index := IndexOf(blocks, id);
      if lock.None? && index.Some? && blocks[index.value].kind.HasText() {
        blocks := blocks[index.value := blocks[index.value].(text := text)];
      }
    }

    method TypeRow(row: nat, id: nat, text: Attributed)
      modifies this`blocks
      ensures View() == Edited(old(View()), Edit.TypeRow(row, id, text))
    {
      var index := IndexOf(blocks, id);
      if lock.Some? || index.None? {
        return;
      }
      SetRows(index.value, Retyped(blocks[index.value].rows, row, text));
    }

    method TypeCode(id: nat, code: string, language: string)
      modifies this`blocks
      ensures View() == Edited(old(View()), Edit.TypeCode(id, code, language))
    {
      var index := IndexOf(blocks, id);
      if lock.None? && index.Some? && blocks[index.value].kind.Code? {
        blocks := blocks[index.value := blocks[index.value].(code := code, language := language)];
      }
    }

    /** A mark button: on the block in focus, or its row with a selection. */
    method ToggleMark(mark: Mark, at: set<nat>, selected: nat)
      modifies this`blocks
      ensures View() == Edited(old(View()), Edit.ToggleMark(mark, at, selected))
    {
      var index := if focusedBlock.Some? then IndexOf(blocks, focusedBlock.value) else None;
      if lock.Some? || index.None? {
        return;
      }
      var b := blocks[index.value];
      if b.kind.HasText() {
        blocks := blocks[index.value := b.(text := MarkToggled(b.text, mark, at))];
        return;
      }
      SetRows(index.value, RowMarkToggled(b.rows, selected, mark, at));
    }

    method NormalizeDepths(index: nat)
      requires index < |blocks|
      modifies this`blocks
      ensures View() == WithRows(old(View()), index, NormalizedRows(old(blocks)[index].rows, 0))
    {
      var rows := PullUp(blocks[index].rows);
      SetRows(index, rows);
    }

    static method PullUp(was: seq<Row>) returns (rows: seq<Row>)
      ensures rows == NormalizedRows(was, 0)
    {
      rows := was;
      var ceiling: nat := 0;
      for row := 0 to |was|
        invariant |rows| == |was| && rows[row..] == was[row..]
        invariant rows[..row] + NormalizedRows(was[row..], ceiling) == NormalizedRows(was, 0)
      {
        assert rows[row] == rows[row..][0] == was[row..][0];
        var depth: nat := Min(rows[row].depth, ceiling);
        OneMoreNormalized(rows, was, row, depth, depth + 1);
        rows := rows[row := rows[row].(depth := depth)];
        ceiling := depth + 1;
      }
      assert was[|was|..] == [] && rows[..|was|] + [] == rows;
    }
  }

  lemma OneMoreNormalized(rows: seq<Row>, was: seq<Row>, row: nat, depth: nat, ceiling: nat)
    requires row < |rows| == |was| && rows[row..] == was[row..] && ceiling == depth + 1
    ensures var rows' := rows[row := rows[row].(depth := depth)];
            && rows'[row + 1..] == was[row + 1..]
            && rows'[..row + 1] + NormalizedRows(was[row + 1..], ceiling)
               == rows[..row] + ([was[row].(depth := depth)] + NormalizedRows(was[row + 1..], ceiling))
            && was[row..][1..] == was[row + 1..] && was[row..][0] == was[row]
  {
    assert rows[row] == rows[row..][0] == was[row..][0];
    assert rows[row..][1..] == rows[row + 1..];
  }

  // ---- What every run of edits keeps ----

  /** Every block can be saved as it stands, and no two blocks share an id. */
  ghost predicate AllFit(blocks: seq<EditorBlock>, low: nat, high: nat) {
    && (forall i | 0 <= i < |blocks| :: BlockFits(blocks[i]) && low <= blocks[i].id < high)
    && (forall i, j | 0 <= i < j < |blocks| :: blocks[i].id != blocks[j].id)
  }

  ghost predicate Fits(n: Note) {
    AllFit(n.blocks, 0, n.next) && (n.lock.None? ==> n.blocks != [])
  }

  lemma OneMoreFits(b: EditorBlock, blocks: seq<EditorBlock>, low: nat, mid: nat, high: nat)
    requires BlockFits(b) && low <= b.id < mid <= high && AllFit(blocks, mid, high)
    ensures AllFit([b] + blocks, low, high)
  {
    var all := [b] + blocks;
    forall i | 0 < i < |all|
      ensures all[i] == blocks[i - 1] && BlockFits(all[i]) && low <= all[i].id < high && all[i].id != b.id
    {
      assert BlockFits(blocks[i - 1]);
    }
  }

  lemma {:induction false} DrawnAllFits(document: seq<L.Block>, next: nat)
    ensures next <= NextId(document, next)
    ensures AllFit(DrawnAll(document, next), next, NextId(document, next))
  {
    if document != [] {
      var rest := next + IdsOf(document[0]);
      DrawnFits(document[0], next);
      DrawnAllFits(document[1..], rest);
      OneMoreFits(Drawn(document[0], next), DrawnAll(document[1..], rest), next, rest, NextId(document, next));
    }
  }

  lemma {:induction false} LoadedFits(document: seq<L.Block>, lossy: bool, next: nat)
    ensures Fits(Loaded(document, lossy, next))
  {
    DrawnAllFits(document, next);
    var blank := Blank(NextId(document, next), Paragraph);
    assert AllFit([blank], 0, blank.id + 1);
  }

  lemma {:induction false} RowEditFits(b: EditorBlock, rows: seq<Row>, e: Edit, id: nat)
    requires BlockFits(b)
    requires match e
             case AddRow(_, below) => b.kind.HasRows() && rows == RowAdded(b.rows, below, id)
             case RemoveRow(row, _) => rows == RowRemoved(b.rows, row)
             case ToggleChecked(row, _) => rows == Toggled(b.rows, row)
             case IndentRow(row, _) => b.kind.AllowsNesting() && rows == Indented(b.rows, row)
             case OutdentRow(row, _) => rows == Outdented(b.rows, row)
             case _ => false
    ensures BlockFits(b.(rows := rows))
  {
    match e
    case AddRow(_, below) => AddedRowNests(b.rows, below, id);
    case RemoveRow(row, _) =>
      RemovedRowNests(b.rows, row);
      if !b.kind.AllowsNesting() {
        TopRowsStayAtTop(b.rows, row);
      }
    case ToggleChecked(row, _) => ToggledNests(b.rows, row);
    case IndentRow(row, _) => IndentKeepsNesting(b.rows, row);
    case OutdentRow(row, _) => OutdentNests(b.rows, row);
  }

  lemma {:induction false} TopRowsStayAtTop(rows: seq<Row>, id: nat)
    requires forall i | 0 <= i < |rows| :: rows[i].depth == 0
    ensures forall i | 0 <= i < |RowRemoved(rows, id)| :: RowRemoved(rows, id)[i].depth == 0
    ensures |RowRemoved(rows, id)| <= |rows|
  {
    if |rows| > 1 {
      var left := WithoutRow(rows, id);
      var at := FilterIndices(rows, OtherThan(id));
      NormalizedRowAt(left, 0);
      forall i | 0 <= i < |left|
        ensures RowRemoved(rows, id)[i].depth == 0
      {
        assert left[i] == rows[at[i]];
        assert NormalizedRows(left, 0)[i] == left[i].(depth := Min(left[i].depth, if i == 0 then 0 else NormalizedRows(left, 0)[i - 1].depth + 1));
      }
    }
  }

  lemma RetypedNests(rows: seq<Row>, again: seq<Row>)
    requires |again| == |rows| && forall i | 0 <= i < |rows| :: again[i].depth == rows[i].depth
    ensures RowsNest(rows) ==> RowsNest(again)
  {}

  lemma {:induction false} EditAtFits(n: Note, e: Edit, i: nat)
    requires Fits(n) && i < |n.blocks| && !e.InsertBlock? && !e.Focus? && n.lock.None?
    ensures Fits(EditedAt(n, e, i))
  {
    var b := n.blocks[i];
    match e
    case SetKind(kind, _) => RekindedFits(b, kind, n.next);
    case Type(_, _) =>
    case TypeCode(_, _, _) =>
    case TypeRow(row, _, text) => RetypedNests(b.rows, Retyped(b.rows, row, text));
    case ToggleMark(mark, at, selected) => RetypedNests(b.rows, RowMarkToggled(b.rows, selected, mark, at));
    case RemoveBlock(_) => RemovalFits(n, i);
    case MoveBlock(_, _) =>
    case AddRow(_, below) =>
      if b.kind.HasRows() {
        RowEditFits(b, RowAdded(b.rows, below, n.next), e, n.next);
      }
    case RemoveRow(row, _) => RowEditFits(b, RowRemoved(b.rows, row), e, n.next);
    case ToggleChecked(row, _) => RowEditFits(b, Toggled(b.rows, row), e, n.next);
    case IndentRow(row, _) =>
      if b.kind.AllowsNesting() {
        RowEditFits(b, Indented(b.rows, row), e, n.next);
      }
    case OutdentRow(row, _) => RowEditFits(b, Outdented(b.rows, row), e, n.next);
  }

  lemma {:induction false} RemovalFits(n: Note, i: nat)
    requires Fits(n) && i < |n.blocks|
    ensures Fits(Removed(n, i))
  {
    if |n.blocks| > 1 {
      var blocks := n.blocks[..i] + n.blocks[i + 1..];
      assert forall k | 0 <= k < |blocks| :: blocks[k] == n.blocks[if k < i then k else k + 1];
    }
  }

  lemma {:induction false} InsertionFits(n: Note, kind: Kind, below: Option<nat>)
    requires Fits(n)
    ensures Fits(Inserted(n, kind, below))
  {
    var found := if below.Some? then IndexOf(n.blocks, below.value) else None;
    var at := if found.Some? then found.value + 1 else |n.blocks|;
    var n' := Inserted(n, kind, below);
    InsertedFits(n, n', at, n'.blocks[at]);
  }

  lemma InsertedFits(n: Note, n': Note, at: nat, block: EditorBlock)
    requires Fits(n) && at <= |n.blocks| && BlockFits(block) && block.id == n.next < n'.next
    requires n'.blocks == n.blocks[..at] + [block] + n.blocks[at..]
    ensures Fits(n')
  {
    forall k | 0 <= k < |n'.blocks|
      ensures n'.blocks[k] == if k < at then n.blocks[k] else if k == at then block else n.blocks[k - 1]
    {}
  }

  /** Any edits at all, of any note that was opened: every block still fits, so
      what is saved is drawn again exactly as it stands. */
  lemma {:induction false} EveryEditFits(n: Note, edits: seq<Edit>)
    requires Fits(n)
    ensures Fits(EditedAll(n, edits))
    decreases |edits|
  {
    if edits != [] {
      if n.lock.None? {
        if edits[0].InsertBlock? {
          InsertionFits(n, edits[0].kind, edits[0].below);
        } else if !edits[0].Focus? {
          var i := Target(n, edits[0]);
          if i.Some? {
            EditAtFits(n, edits[0], i.value);
          }
        }
      }
      EveryEditFits(Edited(n, edits[0]), edits[1..]);
    }
  }

  // ---- Saving and opening again ----

  lemma {:induction false} EditsKeepTheRest(n: Note, edits: seq<Edit>)
    ensures EditedAll(n, edits).lock == n.lock && EditedAll(n, edits).loaded == n.loaded
    decreases |edits|
  {
    if edits != [] {
      EditsKeepTheRest(Edited(n, edits[0]), edits[1..]);
    }
  }

  /** The note as it is opened after what was done to it has been saved. */
  function Reopened(document: seq<L.Block>, lossy: bool, n: Note): Note {
    match Applied(n)
    case Untouched => Loaded(document, lossy, 0)
    case Cleared => Loaded([], false, 0)
    case Set(body) => Loaded(body, false, 0)
  }

  predicate ShowsAll(again: seq<EditorBlock>, blocks: seq<EditorBlock>) {
    |again| == |blocks| && forall i | 0 <= i < |blocks| :: Shows(again[i], blocks[i])
  }

  predicate AllPlain(blocks: seq<EditorBlock>) {
    forall i | 0 <= i < |blocks| :: BlockIsPlain(blocks[i])
  }

  predicate AllWriteWhole(blocks: seq<EditorBlock>) {
    forall i | 0 <= i < |blocks| :: BlockWritesWhole(blocks[i])
  }

  /** The one empty paragraph an empty note is opened with. */
  predicate IsBlank(blocks: seq<EditorBlock>) {
    |blocks| == 1 && blocks[0].kind.Paragraph? && blocks[0].text == []
  }

  lemma {:induction false} SavedAllAt(blocks: seq<EditorBlock>)
    ensures |SavedAll(blocks)| == |blocks| && forall i | 0 <= i < |blocks| :: SavedAll(blocks)[i] == Saved(blocks[i])
  {
    if blocks != [] {
      SavedAllAt(blocks[1..]);
    }
  }

  lemma {:induction false} DrawnAllAt(document: seq<L.Block>, next: nat, i: nat) returns (id: nat)
    requires i < |document|
    ensures DrawnAll(document, next)[i] == Drawn(document[i], id)
  {
    if i == 0 {
      id := next;
    } else {
      id := DrawnAllAt(document[1..], next + IdsOf(document[0]), i - 1);
    }
  }

  lemma {:induction false} DrawnAgainShowsIff(blocks: seq<EditorBlock>)
    requires forall i | 0 <= i < |blocks| :: BlockFits(blocks[i])
    ensures ShowsAll(DrawnAll(SavedAll(blocks), 0), blocks) <==> AllPlain(blocks)
  {
    SavedAllAt(blocks);
    forall i | 0 <= i < |blocks|
      ensures Shows(DrawnAll(SavedAll(blocks), 0)[i], blocks[i]) <==> BlockIsPlain(blocks[i])
    {
      var id := DrawnAllAt(SavedAll(blocks), 0, i);
      BlockIsShownIff(blocks[i], id);
    }
  }

  /** Any note opened, anything typed, marked or rearranged in it, then saved and
      opened again: it shows what it showed exactly when it was locked, or no link
      in it was marked and the save did not clear a note of blank blocks that was
      more than the one blank paragraph it is then opened with. */
  lemma {:induction false} SavingBringsBackIff(document: seq<L.Block>, lossy: bool, edits: seq<Edit>)
    ensures var n := EditedAll(Loaded(document, lossy, 0), edits);
            ShowsAll(Reopened(document, lossy, n).blocks, n.blocks)
            <==> n.lock.Some? || (AllPlain(n.blocks) && (Applied(n).Cleared? ==> IsBlank(n.blocks)))
  {
    var start := Loaded(document, lossy, 0);
    var n := EditedAll(start, edits);
    LoadedFits(document, lossy, 0);
    EveryEditFits(start, edits);
    EditsKeepTheRest(start, edits);
    if n.lock.Some? {
      ALockedNoteIsNeverWritten(start, edits);
    } else {
      UnlockedComesBackIff(document, lossy, n);
    }
  }

  lemma {:induction false} UnlockedComesBackIff(document: seq<L.Block>, lossy: bool, n: Note)
    requires Fits(n) && n.lock.None? && n.loaded == document && Loaded(document, lossy, 0).lock.None?
    ensures ShowsAll(Reopened(document, lossy, n).blocks, n.blocks)
        <==> AllPlain(n.blocks) && (Applied(n).Cleared? ==> IsBlank(n.blocks))
  {
    if Applied(n).Cleared? {
      ClearedShowsIff(n.blocks);
    } else {
      DrawnAgainShowsIff(n.blocks);
      SavedAllAt(n.blocks);
      DrawnIsNotEmpty(SavedAll(n.blocks));
    }
  }

  lemma DrawnIsNotEmpty(document: seq<L.Block>)
    requires document != []
    ensures Loaded(document, false, 0).blocks == DrawnAll(document, 0) && Loaded(document, true, 0).blocks == DrawnAll(document, 0)
  {}

  lemma ClearedShowsIff(blocks: seq<EditorBlock>)
    requires forall i | 0 <= i < |blocks| :: BlockFits(blocks[i]) && BlockIsEmpty(blocks[i])
    ensures ShowsAll(Loaded([], false, 0).blocks, blocks) <==> IsBlank(blocks)
    ensures IsBlank(blocks) ==> AllPlain(blocks)
  {
    assert Loaded([], false, 0).blocks == [Blank(0, Paragraph)];
  }

  /** And it opens for editing again exactly when no link was marked only in part:
      one that was is saved as two, which the editor cannot put back. */
  lemma {:induction false} ASavedNoteOpensAgainIff(document: seq<L.Block>, lossy: bool, edits: seq<Edit>)
    requires Applied(EditedAll(Loaded(document, lossy, 0), edits)).Set?
    ensures var n := EditedAll(Loaded(document, lossy, 0), edits);
            Reopened(document, lossy, n).lock.None? <==> AllWriteWhole(n.blocks)
  {
    var n := EditedAll(Loaded(document, lossy, 0), edits);
    OpensForEditingIff(SavedAll(n.blocks), false, 0);
    SavedAllAt(n.blocks);
    forall i | 0 <= i < |n.blocks|
      ensures Supported(SavedAll(n.blocks)[i]) <==> BlockWritesWhole(n.blocks[i])
    {
      SavedIsSupportedIff(n.blocks[i]);
    }
  }

  function LinkNote(href: string, shown: string): seq<L.Block> {
    [L.Paragraph([Link(href, shown)])]
  }

  /** A link in bold: nothing is written, and the bold is gone when the note is opened again. */
  lemma {:induction false} AMarkedLinkLosesItsMark(href: string, letter: char)
    ensures var document := LinkNote(href, [letter]);
            var n := EditedAll(Loaded(document, false, 0), [ToggleMark(Bold, {0}, 0)]);
            && n.blocks[0].text == [Glyph(letter, Style({Bold}, Some(href)))] && Applied(n) == Untouched
            && Reopened(document, false, n).blocks[0].text == [Glyph(letter, Linked(href))]
  {
    var document := LinkNote(href, [letter]);
    LinkNoteOpens(href, [letter]);
    var n, e := Loaded(document, false, 0), ToggleMark(Bold, {0}, 0);
    assert Styled([letter], Linked(href)) == [Glyph(letter, Linked(href))];
    var bold := [Glyph(letter, Style({Bold}, Some(href)))];
    MarkingTheFirst(n.blocks[0].text, href);
    assert MarkToggled(n.blocks[0].text, Bold, {0}) == bold;
    assert EditedAll(n, [e]) == EditedAll(Edited(n, e), []) == Edited(n, e) by {
      assert [e][1..] == [];
    }
    assert bold[1..] == [] && RunLength(bold, bold[0].style) == 1 && bold[..1] == bold && Chars(bold) == [letter];
    assert InlineFrom(bold) == [Link(href, [letter])];
    assert SavedAll(Edited(n, e).blocks) == document;
  }

  lemma MarkingTheFirst(text: Attributed, href: string)
    requires text != [] && text[0].style == Linked(href)
    ensures MarkToggled(text, Bold, {0}) == [Glyph(text[0].letter, Style({Bold}, Some(href)))] + text[1..]
  {
    assert !IsActive(text, Bold, {0}) by {
      assert 0 in {0} && Bold !in text[0].style.marks;
    }
    assert text[0].style.marks + {Bold} == {Bold};
  }

  lemma LinkNoteOpens(href: string, shown: string)
    requires shown != ""
    ensures var n := Loaded(LinkNote(href, shown), false, 0);
            && n.lock.None? && n.focused == Some(0) && |n.blocks| == 1
            && n.blocks[0] == Blank(0, Paragraph).(text := Styled(shown, Linked(href)))
  {
    var inline := [Link(href, shown)];
    assert AttributedFrom(inline) == Styled(shown, Linked(href)) + AttributedFrom(inline[1..]);
    assert Canonical(inline);
    OpensForEditingIff(LinkNote(href, shown), false, 0);
  }

  /** Half a link in bold: the note saves as two links, and is locked when it is opened again. */
  lemma {:induction false} AHalfMarkedLinkLocksItsNote(href: string, a: char, b: char)
    ensures var document := LinkNote(href, [a, b]);
            var n := EditedAll(Loaded(document, false, 0), [ToggleMark(Bold, {0}, 0)]);
            && Applied(n) == Set([L.Paragraph([Link(href, [a]), Link(href, [b])])])
            && Reopened(document, false, n).lock == Some(Unsupported)
  {
    var document, e := LinkNote(href, [a, b]), ToggleMark(Bold, {0}, 0);
    var n := HalfMarked(href, a, b);
    ASavedNoteOpensAgainIff(document, false, [e]);
    var text := n.blocks[0].text;
    assert text[1 - 1].style.Settled() == text[1].style.Settled() && text[0].style != text[1].style;
    assert !BlockWritesWhole(n.blocks[0]);
  }

  /** The note with its link's first half in bold. */
  lemma {:induction false} HalfMarked(href: string, a: char, b: char) returns (n: Note)
    ensures n == EditedAll(Loaded(LinkNote(href, [a, b]), false, 0), [ToggleMark(Bold, {0}, 0)])
    ensures n.blocks == [Blank(0, Paragraph).(text := [Glyph(a, Style({Bold}, Some(href))), Glyph(b, Linked(href))])]
    ensures Applied(n) == Set([L.Paragraph([Link(href, [a]), Link(href, [b])])])
  {
    var document, e := LinkNote(href, [a, b]), ToggleMark(Bold, {0}, 0);
    LinkNoteOpens(href, [a, b]);
    var start := Loaded(document, false, 0);
    StyledAt([a, b], Linked(href));
    assert start.blocks[0].text == [Glyph(a, Linked(href)), Glyph(b, Linked(href))];
    MarkingTheFirst(start.blocks[0].text, href);
    n := Edited(start, e);
    var text := [Glyph(a, Style({Bold}, Some(href))), Glyph(b, Linked(href))];
    assert MarkToggled(start.blocks[0].text, Bold, {0}) == text;
    assert n.blocks == [Blank(0, Paragraph).(text := text)];
    assert [e][1..] == [] && EditedAll(start, [e]) == EditedAll(n, []);
    HalfMarkedInline(href, a, b);
    var body := SavedAll(n.blocks);
    assert body == [Saved(n.blocks[0])] && Saved(n.blocks[0]) == L.Paragraph([Link(href, [a]), Link(href, [b])]);
    assert |body[0].inline| == 2 && |document[0].inline| == 1;
    assert !BlockIsEmpty(n.blocks[0]);
  }

  lemma HalfMarkedInline(href: string, a: char, b: char)
    ensures InlineFrom([Glyph(a, Style({Bold}, Some(href))), Glyph(b, Linked(href))]) == [Link(href, [a]), Link(href, [b])]
  {
    var first, second := Glyph(a, Style({Bold}, Some(href))), Glyph(b, Linked(href));
    var text := [first, second];
    assert text[1..] == [second] && [second][1..] == [] && text[..1] == [first] && [first][1..] == [];
    assert RunLength(text, first.style) == 1 && RunLength([second], second.style) == 1 && [second][..1] == [second];
    assert Chars([first]) == [a] && Chars([second]) == [b];
    assert InlineFrom([second]) == [Link(href, [b])];
  }

  /** A blank heading: the body is cleared, and a paragraph is there instead when the note is opened again. */
  lemma {:induction false} ABlankHeadingIsCleared()
    ensures var document := [L.Paragraph([])];
            var n := EditedAll(Loaded(document, false, 0), [SetKind(Heading1, 0)]);
            && n.blocks[0].kind == Heading1 && Applied(n) == Cleared && Reopened(document, false, n).blocks[0].kind == Paragraph
  {
    var document, e := [L.Paragraph([])], SetKind(Heading1, 0);
    var n := Loaded(document, false, 0);
    OpensForEditingIff(document, false, 0);
    assert n.blocks == [Blank(0, Paragraph)];
    assert [e][1..] == [] && EditedAll(Edited(n, e), []) == Edited(n, e);
    assert SavedAll(Edited(n, e).blocks)[0] == L.Heading(L.One, []);
  }

  /** A locked note is never changed and never written, whatever is tried. */
  lemma {:induction false} ALockedNoteIsNeverWritten(n: Note, edits: seq<Edit>)
    requires n.lock.Some?
    ensures EditedAll(n, edits) == n && Applied(EditedAll(n, edits)) == Untouched
    decreases |edits|
  {
    if edits != [] {
      ALockedNoteIsNeverWritten(n, edits[1..]);
    }
  }

  /** Indents and outdents, any number in any order: the same rows with the same
      texts in the same order. */
  lemma {:induction false} NestingLosesNoRow(n: Note, edits: seq<Edit>, i: nat)
    requires i < |n.blocks| && forall e | e in edits :: e.IndentRow? || e.OutdentRow?
    ensures |EditedAll(n, edits).blocks| == |n.blocks|
    ensures SameText(n.blocks[i].rows, EditedAll(n, edits).blocks[i].rows)
    decreases |edits|
  {
    if edits != [] {
      assert edits[0] in edits;
      OneNestingLosesNoRow(n, edits[0], i);
      NestingLosesNoRow(Edited(n, edits[0]), edits[1..], i);
    }
  }

  lemma {:induction false} OneNestingLosesNoRow(n: Note, e: Edit, i: nat)
    requires i < |n.blocks| && (e.IndentRow? || e.OutdentRow?)
    ensures |Edited(n, e).blocks| == |n.blocks| && SameText(n.blocks[i].rows, Edited(n, e).blocks[i].rows)
  {
    var k := IndexOf(n.blocks, e.block);
    if k == Some(i) {
      OutdentNests(n.blocks[i].rows, e.row);
    }
  }

  /** A block moved is moved back by the opposite move, and its neighbours with it. */
  lemma {:induction false} MovingBackRestores(n: Note, id: nat, offset: int)
    requires Fits(n) && Edited(n, MoveBlock(id, offset)) != n
    ensures Edited(Edited(n, MoveBlock(id, offset)), MoveBlock(id, -offset)) == n
  {
    var i := IndexOf(n.blocks, id).value;
    var there := Edited(n, MoveBlock(id, offset));
    assert there.blocks == Swapped(n.blocks, i, i + offset);
    assert there.blocks[i + offset].id == id;
    IndexIsTheOnly(there.blocks, id, i + offset);
    assert Swapped(there.blocks, i + offset, i) == n.blocks;
  }

  lemma {:induction false} IndexIsTheOnly(blocks: seq<EditorBlock>, id: nat, k: nat)
    requires k < |blocks| && blocks[k].id == id && forall j | 0 <= j < |blocks| && j != k :: blocks[j].id != id
    ensures IndexOf(blocks, id) == Some(k)
    decreases k
  {
    if k > 0 {
      assert blocks[0].id != id;
      IndexIsTheOnly(blocks[1..], id, k - 1);
    }
  }
}
