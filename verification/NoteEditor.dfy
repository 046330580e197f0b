/** The note editor's blocks, and what each edit does to them
    (apps/apple/Sunrise/Notes/NoteEditorBlock.swift:128-262, NoteEditorModel.swift). */
module NoteEditor {
  import opened Wrappers
  import opened Sequences
  import opened NoteText
  import L = NoteLists

  datatype Kind =
    | Paragraph | Heading1 | Heading2 | Heading3
    | Bulleted | Numbered | Checklist
    | Code | Quote | Divider
  {
    predicate HasRows() { Bulleted? || Numbered? || Checklist? }

    predicate AllowsNesting() { Bulleted? || Numbered? }

    predicate HasText() { !HasRows() && !Code? && !Divider? }
  }

  datatype Row = Row(id: nat, text: Attributed, checked: bool, depth: nat)

  datatype EditorBlock = EditorBlock(id: nat, kind: Kind, text: Attributed, rows: seq<Row>, code: string, language: string)

  // ---- Reading and writing a block ----

  function LinesOf(rows: seq<Row>): seq<L.Line> {
    seq(|rows|, i requires 0 <= i < |rows| => L.Line(rows[i].text, rows[i].depth))
  }

  /** Rows for drawn lines, numbered from `first` on. */
  function RowsOf(lines: seq<L.Line>, first: nat): seq<Row> {
    seq(|lines|, i requires 0 <= i < |lines| => Row(first + i, lines[i].text, false, lines[i].depth))
  }

  function CheckRows(checks: seq<L.CheckItem>, first: nat): seq<Row> {
    seq(|checks|, i requires 0 <= i < |checks| => Row(first + i, AttributedFrom(checks[i].inline), checks[i].checked, 0))
  }

  function ChecksOf(rows: seq<Row>): seq<L.CheckItem> {
    seq(|rows|, i requires 0 <= i < |rows| => L.CheckItem(rows[i].checked, InlineFrom(rows[i].text)))
  }

  function HeadingKind(level: L.Level): Kind {
    match level
    case One => Heading1
    case Two => Heading2
    case Three => Heading3
  }

  function Blank(id: nat, kind: Kind): EditorBlock {
    EditorBlock(id, kind, [], [], "", "")
  }

  /** `init(from:)`: the block drawn, its id and its rows' ids taken from `id` on. */
  function Drawn(block: L.Block, id: nat): EditorBlock {
    match block
    case Paragraph(inline) => Blank(id, Paragraph).(text := AttributedFrom(inline))
    case Heading(level, inline) => Blank(id, HeadingKind(level)).(text := AttributedFrom(inline))
    case Quote(inline) => Blank(id, Quote).(text := AttributedFrom(inline))
    case List(ordered, items) =>
      Blank(id, if ordered then Numbered else Bulleted).(rows := RowsOf(L.Flatten(items, 0), id + 1))
    case Checklist(checks) => Blank(id, Checklist).(rows := CheckRows(checks, id + 1))
    case Fence(language, content) => Blank(id, Code).(code := content, language := language.GetOr(""))
    case Divider => Blank(id, Divider)
  }

  /** `noteBlock`: what the block is saved as. */
  function Saved(b: EditorBlock): L.Block {
    if b.kind.AllowsNesting() then L.List(b.kind.Numbered?, L.Nest(LinesOf(b.rows), b.kind.Numbered?))
    else if b.kind.Checklist? then L.Checklist(ChecksOf(b.rows))
    else SavedPlain(b.kind, InlineFrom(b.text), b.code, b.language)
  }

  function SavedPlain(kind: Kind, inline: seq<Inline>, code: string, language: string): L.Block {
    match kind
    case Paragraph => L.Paragraph(inline)
    case Heading1 => L.Heading(L.One, inline)
    case Heading2 => L.Heading(L.Two, inline)
    case Heading3 => L.Heading(L.Three, inline)
    case Quote => L.Quote(inline)
    case Code => L.Fence(if language == "" then None else Some(language), code)
    case _ => L.Divider
  }

  /** A block the editor can put back exactly as it was. */
  predicate Supported(block: L.Block) {
    match block
    case Paragraph(inline) => Canonical(inline)
    case Heading(_, inline) => Canonical(inline)
    case Quote(inline) => Canonical(inline)
    case List(ordered, items) => L.Supported(items, ordered)
    case Checklist(checks) => forall c | c in checks :: Canonical(c.inline)
    case Fence(language, _) => language != Some("")
    case Divider => true
  }

  lemma LinesOfRows(lines: seq<L.Line>, first: nat)
    ensures LinesOf(RowsOf(lines, first)) == lines
  {}

  /** Drawing a block and saving it gives it back exactly when it is supported. */
  lemma {:induction false} BlockSurvivesIff(block: L.Block, id: nat)
    ensures Saved(Drawn(block, id)) == block <==> Supported(block)
  {
    if block.List? {
      ListBlockSurvivesIff(block.ordered, block.items, id);
    } else if block.Checklist? {
      ChecksSurviveIff(block.checks, id + 1);
    } else {
      TextBlockSurvivesIff(block, id);
    }
  }

  lemma TextBlockSurvivesIff(block: L.Block, id: nat)
    requires !block.List? && !block.Checklist?
    ensures Saved(Drawn(block, id)) == block <==> Supported(block)
  {
    match block
    case Paragraph(inline) =>
      InlineSurvivesIff(inline);
      SavedParagraph(inline, id);
    case Quote(inline) =>
      InlineSurvivesIff(inline);
      SavedQuote(inline, id);
    case Heading(level, inline) =>
      InlineSurvivesIff(inline);
      SavedHeading(level, inline, id);
    case _ =>
  }

  lemma SavedParagraph(inline: seq<Inline>, id: nat)
    ensures Saved(Drawn(L.Paragraph(inline), id)) == L.Paragraph(InlineFrom(AttributedFrom(inline)))
  {
    SavedText(id, Paragraph, AttributedFrom(inline));
  }

  lemma SavedQuote(inline: seq<Inline>, id: nat)
    ensures Saved(Drawn(L.Quote(inline), id)) == L.Quote(InlineFrom(AttributedFrom(inline)))
  {
    SavedText(id, Quote, AttributedFrom(inline));
  }

  lemma SavedHeading(level: L.Level, inline: seq<Inline>, id: nat)
    ensures Saved(Drawn(L.Heading(level, inline), id)) == L.Heading(level, InlineFrom(AttributedFrom(inline)))
  {
    SavedText(id, HeadingKind(level), AttributedFrom(inline));
  }

  lemma SavedText(id: nat, kind: Kind, text: Attributed)
    requires !kind.HasRows()
    ensures Saved(Blank(id, kind).(text := text)) == SavedPlain(kind, InlineFrom(text), "", "")
  {}

  lemma ListBlockSurvivesIff(ordered: bool, items: seq<L.Item>, id: nat)
    ensures Saved(Drawn(L.List(ordered, items), id)) == L.List(ordered, items) <==> L.Supported(items, ordered)
  {
    var lines := L.Flatten(items, 0);
    LinesOfRows(lines, id + 1);
    SavedList(Drawn(L.List(ordered, items), id), lines, ordered);
    L.ListSurvivesIff(items, ordered);
  }

  lemma SavedList(b: EditorBlock, lines: seq<L.Line>, ordered: bool)
    requires LinesOf(b.rows) == lines && b.kind == (if ordered then Numbered else Bulleted)
    ensures Saved(b) == L.List(ordered, L.Nest(lines, ordered))
  {}

  lemma {:induction false} ChecksSurviveIff(checks: seq<L.CheckItem>, first: nat)
    ensures ChecksOf(CheckRows(checks, first)) == checks <==> forall c | c in checks :: Canonical(c.inline)
  {
    var back := ChecksOf(CheckRows(checks, first));
    forall i | 0 <= i < |checks|
      ensures back[i] == checks[i] <==> Canonical(checks[i].inline)
    {
      InlineSurvivesIff(checks[i].inline);
    }
    if back == checks {
      assert forall i | 0 <= i < |checks| :: Canonical(checks[i].inline);
    }
  }

  // ---- Edits to rows ----

  predicate RowsNest(rows: seq<Row>) {
    && (rows != [] ==> rows[0].depth == 0)
    && forall i | 0 < i < |rows| :: rows[i].depth <= rows[i - 1].depth + 1
  }

  function Find(rows: seq<Row>, id: nat): (r: Option<nat>)
    ensures r.Some? ==> r.value < |rows| && rows[r.value].id == id
  {
    if rows == [] then None
    else if rows[0].id == id then Some(0)
    else match Find(rows[1..], id)
      case None => None
      case Some(k) => Some(k + 1)
  }

  function NormalizedRows(rows: seq<Row>, ceiling: nat): seq<Row> {
    if rows == [] then []
    else
      var depth := Min(rows[0].depth, ceiling);
      [rows[0].(depth := depth)] + NormalizedRows(rows[1..], depth + 1)
  }

  function Indented(rows: seq<Row>, id: nat): seq<Row> {
    match Find(rows, id)
    case None => rows
    case Some(k) =>
      if k == 0 || rows[k].depth > rows[k - 1].depth then rows else rows[k := rows[k].(depth := rows[k].depth + 1)]
  }

  function Outdented(rows: seq<Row>, id: nat): seq<Row> {
    match Find(rows, id)
    case None => rows
    case Some(k) =>
      if rows[k].depth == 0 then rows else NormalizedRows(rows[k := rows[k].(depth := rows[k].depth - 1)], 0)
  }

  function RowAdded(rows: seq<Row>, after: Option<nat>, id: nat): seq<Row> {
    var at := AddedAt(rows, after);
    rows[..at] + [Row(id, [], false, if at > 0 then rows[at - 1].depth else 0)] + rows[at..]
  }

  function WithoutRow(rows: seq<Row>, id: nat): seq<Row> {
    Filter(rows, OtherThan(id))
  }

  function OtherThan(id: nat): Row -> bool {
    (r: Row) => r.id != id
  }

  function RowRemoved(rows: seq<Row>, id: nat): seq<Row> {
    if |rows| <= 1 then rows else NormalizedRows(WithoutRow(rows, id), 0)
  }

  function Toggled(rows: seq<Row>, id: nat): seq<Row> {
    match Find(rows, id)
    case None => rows
    case Some(k) => rows[k := rows[k].(checked := !rows[k].checked)]
  }

  lemma {:induction false} NormalizedRowAt(rows: seq<Row>, ceiling: nat)
    ensures |NormalizedRows(rows, ceiling)| == |rows|
    ensures forall i | 0 <= i < |rows| ::
              NormalizedRows(rows, ceiling)[i]
              == rows[i].(depth := Min(rows[i].depth, if i == 0 then ceiling else NormalizedRows(rows, ceiling)[i - 1].depth + 1))
    decreases |rows|
  {
    if rows != [] {
      NormalizedRowAt(rows[1..], Min(rows[0].depth, ceiling) + 1);
    }
  }

  /** Pulling rows up while editing is what drawing them again after a save does,
      which leaves their texts as a save does. */
  lemma {:induction false} EditingNormalizesAsSavingDoes(rows: seq<Row>, ordered: bool)
    ensures L.Settled(LinesOf(NormalizedRows(rows, 0))) == L.Flatten(L.Nest(LinesOf(rows), ordered), 0)
  {
    L.DrawnAgainIsNormalized(LinesOf(rows), ordered);
    LinesNormalize(rows, 0);
    SettlingNormalized(LinesOf(rows), 0);
  }

  lemma {:induction false} SettlingNormalized(lines: seq<L.Line>, ceiling: nat)
    ensures L.Settled(L.Normalized(lines, ceiling)) == L.Normalized(L.Settled(lines), ceiling)
    decreases |lines|
  {
    if lines != [] {
      var depth := Min(lines[0].depth, ceiling);
      var first, rest := lines[0].(depth := depth), L.Normalized(lines[1..], depth + 1);
      SettlingNormalized(lines[1..], depth + 1);
      assert L.Settled([first] + rest) == [L.Line(AsSaved(first.text), depth)] + L.Settled(rest);
      assert L.Settled(lines)[1..] == L.Settled(lines[1..]);
    }
  }

  lemma {:induction false} LinesNormalize(rows: seq<Row>, ceiling: nat)
    ensures LinesOf(NormalizedRows(rows, ceiling)) == L.Normalized(LinesOf(rows), ceiling)
    decreases |rows|
  {
    if rows != [] {
      var first := rows[0].(depth := Min(rows[0].depth, ceiling));
      LinesNormalize(rows[1..], first.depth + 1);
      LinesCons(rows[0], rows[1..]);
      LinesCons(first, NormalizedRows(rows[1..], first.depth + 1));
      assert rows == [rows[0]] + rows[1..];
      L.NormalizedCons(L.Line(rows[0].text, rows[0].depth), LinesOf(rows[1..]), ceiling);
    }
  }

  lemma LinesCons(row: Row, rest: seq<Row>)
    ensures LinesOf([row] + rest) == [L.Line(row.text, row.depth)] + LinesOf(rest)
  {}

  lemma {:induction false} NormalizedRowsNest(rows: seq<Row>)
    ensures RowsNest(NormalizedRows(rows, 0)) && SameText(rows, NormalizedRows(rows, 0))
  {
    NormalizedRowAt(rows, 0);
    var after := NormalizedRows(rows, 0);
    forall i | 0 <= i < |rows|
      ensures after[i].id == rows[i].id && after[i].text == rows[i].text && after[i].checked == rows[i].checked
      ensures after[i].depth == Min(rows[i].depth, if i == 0 then 0 else after[i - 1].depth + 1)
    {
      assert after[i] == rows[i].(depth := Min(rows[i].depth, if i == 0 then 0 else after[i - 1].depth + 1));
    }
  }

  /** The same rows in the same order, whatever their depths. */
  predicate SameText(a: seq<Row>, b: seq<Row>) {
    && |a| == |b|
    && forall i | 0 <= i < |a| :: a[i].id == b[i].id && a[i].text == b[i].text && a[i].checked == b[i].checked
  }

  lemma IndentKeepsNesting(rows: seq<Row>, id: nat)
    requires RowsNest(rows)
    ensures RowsNest(Indented(rows, id)) && SameText(rows, Indented(rows, id))
  {}

  lemma {:induction false} OutdentNests(rows: seq<Row>, id: nat)
    ensures RowsNest(rows) ==> RowsNest(Outdented(rows, id))
    ensures SameText(rows, Outdented(rows, id))
  {
    var k := Find(rows, id);
    if k.Some? && rows[k.value].depth > 0 {
      NormalizedRowsNest(rows[k.value := rows[k.value].(depth := rows[k.value].depth - 1)]);
    }
  }

  /** An outdent takes back an indent, rows below it included. */
  lemma {:induction false} OutdentUndoesIndent(rows: seq<Row>, id: nat)
    requires RowsNest(rows) && Indented(rows, id) != rows
    ensures Outdented(Indented(rows, id), id) == rows
  {
    var k := IndentedAt(rows, id);
    OutdentsAgain(rows, id, k);
    NestedRowsAreNormalized(rows, 0);
  }

  function Deeper(rows: seq<Row>, k: nat): seq<Row>
    requires k < |rows|
  {
    rows[k := rows[k].(depth := rows[k].depth + 1)]
  }

  lemma IndentedAt(rows: seq<Row>, id: nat) returns (k: nat)
    requires Indented(rows, id) != rows
    ensures k < |rows| && Find(rows, id) == Some(k) && Indented(rows, id) == Deeper(rows, k)
  {
    k := Find(rows, id).value;
  }

  lemma OutdentsAgain(rows: seq<Row>, id: nat, k: nat)
    requires k < |rows| && Find(rows, id) == Some(k)
    ensures Outdented(Deeper(rows, k), id) == NormalizedRows(rows, 0)
  {
    FindIs(Deeper(rows, k), id, k, rows);
    OutdentedAt(Deeper(rows, k), id, k);
    RaisedAndLowered(rows, k);
  }

  lemma OutdentedAt(rows: seq<Row>, id: nat, k: nat)
    requires Find(rows, id) == Some(k) && rows[k].depth > 0
    ensures Outdented(rows, id) == NormalizedRows(rows[k := rows[k].(depth := rows[k].depth - 1)], 0)
  {}

  lemma RaisedAndLowered(rows: seq<Row>, k: nat)
    requires k < |rows|
    ensures var deeper := Deeper(rows, k);
            deeper[k := deeper[k].(depth := deeper[k].depth - 1)] == rows
  {}

  lemma {:induction false} FindIs(rows: seq<Row>, id: nat, k: nat, was: seq<Row>)
    requires |was| == |rows| && Find(was, id) == Some(k) && forall i | 0 <= i < |rows| :: rows[i].id == was[i].id
    ensures Find(rows, id) == Some(k)
    decreases k
  {
    if k > 0 {
      assert Find(was[1..], id) == Some(k - 1);
      FindIs(rows[1..], id, k - 1, was[1..]);
    }
  }

  lemma {:induction false} NestedRowsAreNormalized(rows: seq<Row>, ceiling: nat)
    requires rows != [] ==> rows[0].depth <= ceiling
    requires forall i | 0 < i < |rows| :: rows[i].depth <= rows[i - 1].depth + 1
    ensures NormalizedRows(rows, ceiling) == rows
    decreases |rows|
  {
    if rows != [] {
      NestedRowsAreNormalized(rows[1..], rows[0].depth + 1);
    }
  }

  /** Where `addRow` puts a row. */
  function AddedAt(rows: seq<Row>, after: Option<nat>): (at: nat)
    ensures at <= |rows| && (rows != [] ==> at > 0)
  {
    match if after.Some? then Find(rows, after.value) else None
    case Some(k) => k + 1
    case None => |rows|
  }

  lemma InsertedRowNests(rows: seq<Row>, at: nat, row: Row)
    requires RowsNest(rows) && at <= |rows| && row.depth == if at > 0 then rows[at - 1].depth else 0
    requires rows != [] ==> at > 0
    ensures RowsNest(rows[..at] + [row] + rows[at..])
  {
    var rows' := rows[..at] + [row] + rows[at..];
    forall i | 0 < i < |rows'|
      ensures rows'[i].depth <= rows'[i - 1].depth + 1
    {
      if i > at + 1 {
        assert rows'[i] == rows[i - 1] && rows'[i - 1] == rows[i - 2];
      }
    }
  }

  lemma {:induction false} AddedRowNests(rows: seq<Row>, after: Option<nat>, id: nat)
    requires RowsNest(rows)
    ensures RowsNest(RowAdded(rows, after, id))
  {
    var at := AddedAt(rows, after);
    InsertedRowNests(rows, at, Row(id, [], false, if at > 0 then rows[at - 1].depth else 0));
  }

  /** The rows that were there are still there, in order, whatever was added among them. */
  lemma {:induction false} AddedRowDisturbsNothing(rows: seq<Row>, after: Option<nat>, id: nat)
    requires forall r | r in rows :: r.id != id
    ensures WithoutRow(RowAdded(rows, after, id), id) == rows
  {
    var at := AddedAt(rows, after);
    var before, below := rows[..at], rows[at..];
    WithoutTheMiddle(before, Row(id, [], false, if at > 0 then rows[at - 1].depth else 0), below, OtherThan(id));
    assert rows == before + below;
  }

  lemma {:induction false} WithoutTheMiddle(before: seq<Row>, row: Row, below: seq<Row>, others: Row -> bool)
    requires !others(row) && (forall r | r in before :: others(r)) && (forall r | r in below :: others(r))
    ensures Filter(before + [row] + below, others) == before + below
  {
    assert Filter(before, others) == before && Filter(below, others) == below by {
      FilterAll(before, others);
      FilterAll(below, others);
    }
    FilterNone([row], others);
    FilterConcat(before, [row], others);
    assert Filter(before + [row], others) == before;
    FilterConcat(before + [row], below, others);
  }

  lemma {:induction false} RemovedRowNests(rows: seq<Row>, id: nat)
    requires RowsNest(rows)
    ensures RowsNest(RowRemoved(rows, id))
    ensures |rows| > 1 ==> SameText(WithoutRow(rows, id), RowRemoved(rows, id))
  {
    NormalizedRowsNest(WithoutRow(rows, id));
  }

  lemma ToggledNests(rows: seq<Row>, id: nat)
    requires RowsNest(rows)
    ensures RowsNest(Toggled(rows, id))
  {}

  // ---- Edits to a block ----

  /** The rows' texts that say something, a space between each two. */
  function Joined(rows: seq<Row>): Attributed {
    if rows == [] then []
    else
      var n := |rows| - 1;
      var before := Joined(rows[..n]);
      if rows[n].text == [] then before
      else before + (if before == [] then [] else Plain(" ")) + rows[n].text
  }

  function ToTop(rows: seq<Row>): seq<Row> {
    seq(|rows|, i requires 0 <= i < |rows| => rows[i].(depth := 0))
  }

  function Rekinded(b: EditorBlock, kind: Kind, rowId: nat): EditorBlock {
    if b.kind == kind then b
    else
      var moved :=
        if b.kind.HasRows() && !kind.HasRows() then b.(text := Joined(b.rows), rows := [])
        else if !b.kind.HasRows() && kind.HasRows() then b.(rows := [Row(rowId, b.text, false, 0)], text := [])
        else b;
      (if kind.HasRows() && !kind.AllowsNesting() then moved.(rows := ToTop(moved.rows)) else moved).(kind := kind)
  }

  /** What every block the editor holds keeps. */
  predicate BlockFits(b: EditorBlock) {
    && RowsNest(b.rows)
    && (!b.kind.HasRows() ==> b.rows == [])
    && (!b.kind.AllowsNesting() ==> forall i | 0 <= i < |b.rows| :: b.rows[i].depth == 0)
  }

  lemma RekindedFits(b: EditorBlock, kind: Kind, rowId: nat)
    requires BlockFits(b)
    ensures BlockFits(Rekinded(b, kind, rowId))
  {}

  lemma {:induction false} DrawnFits(block: L.Block, id: nat)
    ensures BlockFits(Drawn(block, id))
  {
    if block.List? {
      L.FlattenNests(block.items);
    }
  }

  /** A block that fits is drawn from what it is saved as with the same ticks and
      depths, and its texts as a save leaves them. */
  lemma {:induction false} SavedIsShown(b: EditorBlock, id: nat)
    requires BlockFits(b)
    ensures var again := Drawn(Saved(b), id);
            && again.kind == b.kind
            && (b.kind.HasText() ==> again.text == AsSaved(b.text))
            && (b.kind.Code? ==> again.code == b.code && again.language == b.language)
            && LinesOf(again.rows) == L.Settled(LinesOf(b.rows))
            && (b.kind.Checklist? ==> SameTicks(again.rows, b.rows))
  {
    if b.kind.AllowsNesting() {
      SavedListIsShown(b, id);
    } else if b.kind.Checklist? {
      SavedChecklistIsShown(b, id);
    } else {
      SavedPlainIsShown(b, id);
    }
  }

  /** A block as another shows it: its kind, its texts, its ticks and its depths. */
  predicate Shows(again: EditorBlock, b: EditorBlock) {
    && again.kind == b.kind
    && (b.kind.HasText() ==> again.text == b.text)
    && (b.kind.Code? ==> again.code == b.code && again.language == b.language)
    && LinesOf(again.rows) == LinesOf(b.rows)
    && (b.kind.Checklist? ==> SameTicks(again.rows, b.rows))
  }

  /** No link in it is marked. */
  predicate BlockIsPlain(b: EditorBlock) {
    (b.kind.HasText() ==> LinksArePlain(b.text)) && L.PlainLinks(LinesOf(b.rows))
  }

  /** A block comes back from a save exactly when no link in it is marked. */
  lemma {:induction false} BlockIsShownIff(b: EditorBlock, id: nat)
    requires BlockFits(b)
    ensures Shows(Drawn(Saved(b), id), b) <==> BlockIsPlain(b)
  {
    SavedIsShown(b, id);
    AsSavedIff(b.text);
    L.SettledIff(LinesOf(b.rows));
  }

  /** Every text of it writes whole. */
  predicate BlockWritesWhole(b: EditorBlock) {
    (b.kind.HasText() ==> WritesWhole(b.text)) && (b.kind.HasRows() ==> forall i | 0 <= i < |b.rows| :: WritesWhole(b.rows[i].text))
  }

  /** What a block is saved as can be put back exactly when no link in it is marked only in part. */
  lemma {:induction false} SavedIsSupportedIff(b: EditorBlock)
    ensures Supported(Saved(b)) <==> BlockWritesWhole(b)
  {
    if b.kind.AllowsNesting() {
      SavedListIsSupportedIff(b);
    } else if b.kind.Checklist? {
      SavedChecksSupportedIff(b.rows);
    } else {
      SavedPlainIsSupportedIff(b);
    }
  }

  lemma SavedListIsSupportedIff(b: EditorBlock)
    requires b.kind.AllowsNesting()
    ensures Supported(Saved(b)) <==> forall i | 0 <= i < |b.rows| :: WritesWhole(b.rows[i].text)
  {
    var lines := LinesOf(b.rows);
    L.BuiltIsSupportedIff(lines, 0, 0, b.kind.Numbered?);
    assert forall i | 0 <= i < |b.rows| :: lines[i].text == b.rows[i].text;
  }

  lemma SavedPlainIsSupportedIff(b: EditorBlock)
    requires !b.kind.HasRows()
    ensures Supported(Saved(b)) <==> (b.kind.HasText() ==> WritesWhole(b.text))
  {
    InlineFromIsCanonicalIff(b.text);
    PlainIsSupportedIff(b.kind, InlineFrom(b.text), b.code, b.language);
  }

  lemma PlainIsSupportedIff(kind: Kind, inline: seq<Inline>, code: string, language: string)
    requires !kind.HasRows()
    ensures Supported(SavedPlain(kind, inline, code, language)) <==> (kind.HasText() ==> Canonical(inline))
  {}

  lemma SavedChecksSupportedIff(rows: seq<Row>)
    ensures (forall c | c in ChecksOf(rows) :: Canonical(c.inline)) <==> forall i | 0 <= i < |rows| :: WritesWhole(rows[i].text)
  {
    var checks := ChecksOf(rows);
    forall i | 0 <= i < |rows|
      ensures Canonical(checks[i].inline) <==> WritesWhole(rows[i].text)
    {
      InlineFromIsCanonicalIff(rows[i].text);
    }
    if forall c | c in checks :: Canonical(c.inline) {
      assert forall i | 0 <= i < |rows| :: checks[i] in checks;
    }
  }

  lemma SavedPlainIsShown(b: EditorBlock, id: nat)
    requires !b.kind.HasRows()
    ensures var again := Drawn(SavedPlain(b.kind, InlineFrom(b.text), b.code, b.language), id);
            && again.kind == b.kind && again.rows == []
            && (b.kind.HasText() ==> again.text == AsSaved(b.text))
            && (b.kind.Code? ==> again.code == b.code && again.language == b.language)
  {
    SavedTextIs(b.text);
    DrawnPlain(b.kind, InlineFrom(b.text), b.code, b.language, id);
  }

  lemma DrawnPlain(kind: Kind, inline: seq<Inline>, code: string, language: string, id: nat)
    requires !kind.HasRows()
    ensures var again := Drawn(SavedPlain(kind, inline, code, language), id);
            && again.kind == kind && again.rows == []
            && (kind.HasText() ==> again.text == AttributedFrom(inline))
            && (kind.Code? ==> again.code == code && again.language == language)
  {}

  predicate SameTicks(a: seq<Row>, b: seq<Row>) {
    |a| == |b| && forall i | 0 <= i < |a| :: a[i].checked == b[i].checked
  }

  lemma {:induction false} SavedListIsShown(b: EditorBlock, id: nat)
    requires b.kind.AllowsNesting() && RowsNest(b.rows)
    ensures Drawn(Saved(b), id).kind == b.kind && LinesOf(Drawn(Saved(b), id).rows) == L.Settled(LinesOf(b.rows))
  {
    var lines, ordered := LinesOf(b.rows), b.kind.Numbered?;
    SavedList(b, lines, ordered);
    L.DrawnAgainIsNormalized(lines, ordered);
    L.NormalizedIffValid(L.Settled(lines));
    LinesOfRows(L.Settled(lines), id + 1);
  }

  lemma {:induction false} SavedChecklistIsShown(b: EditorBlock, id: nat)
    requires b.kind.Checklist? && forall i | 0 <= i < |b.rows| :: b.rows[i].depth == 0
    ensures Drawn(Saved(b), id).kind == b.kind && LinesOf(Drawn(Saved(b), id).rows) == L.Settled(LinesOf(b.rows))
    ensures SameTicks(Drawn(Saved(b), id).rows, b.rows)
  {
    var again := CheckRows(ChecksOf(b.rows), id + 1);
    forall i | 0 <= i < |b.rows|
      ensures again[i].text == AsSaved(b.rows[i].text)
    {
      SavedTextIs(b.rows[i].text);
    }
  }

  /** Making a list of a paragraph and a paragraph of the list loses nothing. */
  lemma {:induction false} ThereAndBack(b: EditorBlock, list: Kind, rowId: nat, otherId: nat)
    requires BlockFits(b) && !b.kind.HasRows() && list.HasRows()
    ensures Rekinded(Rekinded(b, list, rowId), b.kind, otherId) == b
  {
    var row := Row(rowId, b.text, false, 0);
    assert [row][..0] == [];
    assert Joined([row]) == b.text;
    assert ToTop([row]) == [row];
  }

  // ---- The note ----

  datatype Lock = Unreadable | Unsupported

  datatype Note = Note(blocks: seq<EditorBlock>, lock: Option<Lock>, focused: Option<nat>, loaded: seq<L.Block>, next: nat)

  /** How many ids a drawn block takes: one, and one for each row. */
  function IdsOf(block: L.Block): nat {
    1 + |Drawn(block, 0).rows|
  }

  function DrawnAll(document: seq<L.Block>, next: nat): (blocks: seq<EditorBlock>)
    ensures |blocks| == |document|
  {
    if document == [] then [] else [Drawn(document[0], next)] + DrawnAll(document[1..], next + IdsOf(document[0]))
  }

  function NextId(document: seq<L.Block>, next: nat): nat {
    if document == [] then next else NextId(document[1..], next + IdsOf(document[0]))
  }

  function SavedAll(blocks: seq<EditorBlock>): seq<L.Block> {
    if blocks == [] then [] else [Saved(blocks[0])] + SavedAll(blocks[1..])
  }

  /** `load`: a note the editor cannot put back is locked, and an empty one it can gets a blank paragraph. */
  function Loaded(document: seq<L.Block>, lossy: bool, next: nat): Note {
    var blocks := DrawnAll(document, next);
    var lock := if lossy then Some(Unreadable) else if SavedAll(blocks) != document then Some(Unsupported) else None;
    var after := NextId(document, next);
    if blocks == [] && lock.None? then Note([Blank(after, Paragraph)], lock, Some(after), document, after + 1)
    else Note(blocks, lock, if blocks == [] then None else Some(blocks[0].id), document, after)
  }

  predicate BlockIsEmpty(b: EditorBlock) {
    match b.kind
    case Divider => false
    case Code => b.code == ""
    case _ => if b.kind.HasRows() then forall r | r in b.rows :: r.text == [] else b.text == []
  }

  predicate IsDirty(n: Note) {
    n.lock.None? && SavedAll(n.blocks) != n.loaded
  }

  datatype BodyEdit = Untouched | Cleared | Set(body: seq<L.Block>)

  /** `apply(to:)`: what saving the task does to its body. */
  function Applied(n: Note): BodyEdit {
    if !IsDirty(n) then Untouched
    else if forall b | b in n.blocks :: BlockIsEmpty(b) then Cleared
    else Set(SavedAll(n.blocks))
  }

  predicate AllSupported(document: seq<L.Block>) {
    forall i | 0 <= i < |document| :: Supported(document[i])
  }

  /** The document drawn and saved is itself. */
  predicate SavesBack(document: seq<L.Block>, next: nat) {
    SavedAll(DrawnAll(document, next)) == document
  }

  lemma {:induction false} DocumentSurvivesIff(document: seq<L.Block>, next: nat)
    ensures SavesBack(document, next) <==> AllSupported(document)
  {
    if document != [] {
      var rest := next + IdsOf(document[0]);
      var head := OneMoreSavesBack(document, next, rest);
      OneMoreSupported(document);
      DocumentSurvivesIff(document[1..], rest);
    }
  }

  lemma OneMoreSupported(document: seq<L.Block>)
    requires document != []
    ensures AllSupported(document) <==> Supported(document[0]) && AllSupported(document[1..])
  {
    var tail := document[1..];
    if AllSupported(tail) {
      assert forall i | 0 < i < |document| :: document[i] == tail[i - 1];
    }
  }

  lemma OneMoreSavesBack(document: seq<L.Block>, next: nat, rest: nat) returns (head: bool)
    requires document != [] && rest == next + IdsOf(document[0])
    ensures head <==> Supported(document[0])
    ensures SavesBack(document, next) <==> head && SavesBack(document[1..], rest)
  {
    var first, tail := Saved(Drawn(document[0], next)), SavedAll(DrawnAll(document[1..], rest));
    head := first == document[0];
    BlockSurvivesIff(document[0], next);
    SavedUnfolds(document, next, rest);
    SameWhole(first, tail, document);
  }

  lemma SavedUnfolds(document: seq<L.Block>, next: nat, rest: nat)
    requires document != [] && rest == next + IdsOf(document[0])
    ensures SavedAll(DrawnAll(document, next))
         == [Saved(Drawn(document[0], next))] + SavedAll(DrawnAll(document[1..], rest))
  {
    var drawn := DrawnAll(document, next);
    assert drawn[0] == Drawn(document[0], next) && drawn[1..] == DrawnAll(document[1..], rest);
  }

  lemma SameWhole(first: L.Block, tail: seq<L.Block>, document: seq<L.Block>)
    requires document != []
    ensures [first] + tail == document <==> first == document[0] && tail == document[1..]
  {
    assert ([first] + tail)[0] == first && ([first] + tail)[1..] == tail;
    assert [document[0]] + document[1..] == document;
  }

  /** A note opens for editing exactly when every byte and every block of it can be put back. */
  lemma {:induction false} OpensForEditingIff(document: seq<L.Block>, lossy: bool, next: nat)
    ensures Loaded(document, lossy, next).lock.None? <==> !lossy && AllSupported(document)
  {
    DocumentSurvivesIff(document, next);
  }

  /** Opening a note and saving it unchanged is meant to write nothing, and does
      unless the note is one that opens for editing with no blocks: the blank
      paragraph it is given to type in makes it dirty, and its body is cleared. */
  lemma {:induction false} OpeningWritesNothingIff(document: seq<L.Block>, lossy: bool, next: nat)
    ensures Applied(Loaded(document, lossy, next)) == Untouched <==> !(document == [] && !lossy)
  {
    DocumentSurvivesIff(document, next);
    if document == [] && !lossy {
      var n := Loaded(document, lossy, next);
      assert SavedAll(n.blocks)[0] == Saved(n.blocks[0]);
    }
  }
}
