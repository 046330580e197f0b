/** Nested lists and the depth rows the editor draws them as
    (apps/apple/Sunrise/Notes/NoteEditorBlock.swift:200-287). */
module NoteLists {
  import opened Wrappers
  import opened NoteText

  datatype Level = One | Two | Three

  datatype CheckItem = CheckItem(checked: bool, inline: seq<Inline>)

  datatype Item = Item(inline: seq<Inline>, children: seq<Block>)

  datatype Block =
    | Paragraph(inline: seq<Inline>)
    | Heading(level: Level, inline: seq<Inline>)
    | Quote(inline: seq<Inline>)
    | List(ordered: bool, items: seq<Item>)
    | Checklist(checks: seq<CheckItem>)
    | Fence(language: Option<string>, content: string)
    | Divider

  /** One row: its text and how far it is indented. */
  datatype Line = Line(text: Attributed, depth: nat)

  // ---- From nested lists to rows ----

  function Flatten(items: seq<Item>, depth: nat): seq<Line>
    decreases items, 1
  {
    if items == [] then []
    else
      [Line(AttributedFrom(items[0].inline), depth)]
      + FlattenChildren(items[0].children, depth + 1)
      + Flatten(items[1..], depth)
  }

  /** Only nested lists are kept, and not whether they are numbered. */
  function FlattenChildren(children: seq<Block>, depth: nat): seq<Line>
    decreases children, 0
  {
    if children == [] then []
    else (if children[0].List? then Flatten(children[0].items, depth) else []) + FlattenChildren(children[1..], depth)
  }

  // ---- From rows to nested lists ----

  datatype Built = Built(items: seq<Item>, cursor: nat)

  /** The items from `cursor` on whose rows are at least `depth` deep. */
  function Build(rows: seq<Line>, cursor: nat, depth: nat, ordered: bool): (b: Built)
    requires cursor <= |rows|
    ensures cursor <= b.cursor <= |rows|
    ensures b.cursor < |rows| ==> rows[b.cursor].depth < depth
    ensures cursor < |rows| && rows[cursor].depth >= depth ==> b.cursor > cursor && b.items != []
    decreases |rows| - cursor, 0
  {
    if cursor == |rows| || rows[cursor].depth < depth then Built([], cursor)
    else
      var nested := Nested(rows, cursor + 1, depth, ordered);
      var rest := Build(rows, nested.cursor, depth, ordered);
      Built([Item(InlineFrom(rows[cursor].text), Children(nested.items, ordered))] + rest.items, rest.cursor)
  }

  /** The rows right below a row of `depth` that are deeper than it. */
  function Nested(rows: seq<Line>, cursor: nat, depth: nat, ordered: bool): (b: Built)
    requires cursor <= |rows|
    ensures cursor <= b.cursor <= |rows|
    ensures b.cursor < |rows| ==> rows[b.cursor].depth <= depth
    decreases |rows| - cursor, 1
  {
    if cursor < |rows| && rows[cursor].depth > depth then Build(rows, cursor, depth + 1, ordered) else Built([], cursor)
  }

  function Children(nested: seq<Item>, ordered: bool): seq<Block> {
    if nested == [] then [] else [List(ordered, nested)]
  }

  function Nest(rows: seq<Line>, ordered: bool): seq<Item> {
    Build(rows, 0, 0, ordered).items
  }

  // ---- The depths a list can say ----

  /** No row is more than one level below the row above it, and the first is at the top. */
  predicate ValidDepths(rows: seq<Line>) {
    && (rows != [] ==> rows[0].depth == 0)
    && forall i | 0 < i < |rows| :: rows[i].depth <= rows[i - 1].depth + 1
  }

  /** Every row pulled up to at most one level below the row above it. */
  function Normalized(rows: seq<Line>, ceiling: nat): seq<Line> {
    if rows == [] then []
    else
      var depth := Min(rows[0].depth, ceiling);
      [rows[0].(depth := depth)] + Normalized(rows[1..], depth + 1)
  }

  /** The rows as a save leaves their texts. */
  function Settled(rows: seq<Line>): (r: seq<Line>)
    ensures |r| == |rows| && forall i | 0 <= i < |rows| :: r[i] == Line(AsSaved(rows[i].text), rows[i].depth)
  {
    seq(|rows|, i requires 0 <= i < |rows| => Line(AsSaved(rows[i].text), rows[i].depth))
  }

  predicate PlainLinks(rows: seq<Line>) {
    forall i | 0 <= i < |rows| :: LinksArePlain(rows[i].text)
  }

  lemma SettledIff(rows: seq<Line>)
    ensures Settled(rows) == rows <==> PlainLinks(rows)
  {
    forall i | 0 <= i < |rows|
      ensures Settled(rows)[i] == rows[i] <==> LinksArePlain(rows[i].text)
    {
      AsSavedIff(rows[i].text);
    }
  }

  /** A list the rows can say: one inner list an item at most, of the same kind and not empty, and plain inlines. */
  predicate Supported(items: seq<Item>, ordered: bool)
    decreases items
  {
    items == [] || (SupportedItem(items[0], ordered) && Supported(items[1..], ordered))
  }

  predicate SupportedItem(item: Item, ordered: bool)
    decreases item
  {
    && Canonical(item.inline)
    && (item.children == []
        || (|item.children| == 1 && item.children[0].List? && item.children[0].ordered == ordered
            && item.children[0].items != [] && Supported(item.children[0].items, ordered)))
  }

  // ---- Rows to lists and back ----

  lemma {:induction false} NormalizedSplits(a: seq<Line>, b: seq<Line>, ceiling: nat, d: nat)
    requires d <= ceiling && (forall r | r in a :: r.depth >= d) && (b != [] ==> b[0].depth <= d)
    ensures Normalized(a + b, ceiling) == Normalized(a, ceiling) + Normalized(b, d)
    decreases |a|
  {
    if a == [] {
      assert a + b == b;
      if b != [] {
        assert Min(b[0].depth, ceiling) == Min(b[0].depth, d);
      }
    } else {
      assert (a + b)[1..] == a[1..] + b && (a + b)[0] == a[0];
      NormalizedSplits(a[1..], b, Min(a[0].depth, ceiling) + 1, d);
    }
  }

  /** What a level consumed is deep enough for it. */
  lemma {:induction false} BuildTakesDeepRows(rows: seq<Line>, cursor: nat, depth: nat, ordered: bool)
    requires cursor <= |rows|
    ensures forall k | cursor <= k < Build(rows, cursor, depth, ordered).cursor :: rows[k].depth >= depth
    decreases |rows| - cursor
  {
    if cursor < |rows| && rows[cursor].depth >= depth {
      var nested := Nested(rows, cursor + 1, depth, ordered);
      if cursor + 1 < |rows| && rows[cursor + 1].depth > depth {
        BuildTakesDeepRows(rows, cursor + 1, depth + 1, ordered);
      }
      BuildTakesDeepRows(rows, nested.cursor, depth, ordered);
    }
  }

  lemma {:induction false} FlattenCons(item: Item, rest: seq<Item>, depth: nat)
    ensures Flatten([item] + rest, depth)
         == [Line(AttributedFrom(item.inline), depth)] + FlattenChildren(item.children, depth + 1) + Flatten(rest, depth)
  {
    assert ([item] + rest)[1..] == rest;
  }

  lemma {:induction false} FlattenOneList(nested: seq<Item>, ordered: bool, depth: nat)
    ensures FlattenChildren(Children(nested, ordered), depth) == Flatten(nested, depth)
  {
    if nested != [] {
      var children := [List(ordered, nested)];
      assert children[1..] == [];
      assert FlattenChildren(children[1..], depth) == [];
      assert FlattenChildren(children, depth) == Flatten(nested, depth) + [];
    }
  }

  /** Building a level and drawing it again gives its rows, normalised. */
  lemma {:induction false} BuiltRowsAreNormalized(rows: seq<Line>, cursor: nat, depth: nat, ordered: bool)
    requires cursor <= |rows|
    ensures var b := Build(rows, cursor, depth, ordered);
            Flatten(b.items, depth) == Normalized(Settled(rows[cursor..b.cursor]), depth)
    decreases |rows| - cursor, 0
  {
    if cursor < |rows| && rows[cursor].depth >= depth {
      var nested := Nested(rows, cursor + 1, depth, ordered);
      var rest := Build(rows, nested.cursor, depth, ordered);
      NestedRowsAreNormalized(rows, cursor + 1, depth, ordered);
      BuiltRowsAreNormalized(rows, nested.cursor, depth, ordered);
      NestedTakesDeepRows(rows, cursor + 1, depth, ordered);
      SliceOfLevel(rows, cursor, nested.cursor, rest.cursor);
      LevelIsDrawn(rows[cursor], rows[cursor + 1..nested.cursor], rows[nested.cursor..rest.cursor],
                   nested.items, rest.items, ordered, depth);
    } else {
      assert rows[cursor..cursor] == [] && Settled([]) == [];
    }
  }

  lemma SliceOfLevel(rows: seq<Line>, a: nat, b: nat, c: nat)
    requires a < b <= c <= |rows|
    ensures rows[a..c] == [rows[a]] + rows[a + 1..b] + rows[b..c]
  {}

  /** A row with the list below it and the rest of its level. */
  lemma LevelIsDrawn(row: Line, inner: seq<Line>, after: seq<Line>, nested: seq<Item>, rest: seq<Item>, ordered: bool, depth: nat)
    requires row.depth >= depth && (forall r | r in inner :: r.depth > depth) && (after != [] ==> after[0].depth <= depth)
    requires Flatten(nested, depth + 1) == Normalized(Settled(inner), depth + 1)
    requires Flatten(rest, depth) == Normalized(Settled(after), depth)
    ensures Flatten([Item(InlineFrom(row.text), Children(nested, ordered))] + rest, depth)
         == Normalized(Settled([row] + inner + after), depth)
  {
    DrawnItem(row, nested, rest, ordered, depth);
    SettledLevelIsNormalized(row, inner, after, depth);
  }

  lemma SettledLevelIsNormalized(row: Line, inner: seq<Line>, after: seq<Line>, depth: nat)
    requires row.depth >= depth && (forall r | r in inner :: r.depth > depth) && (after != [] ==> after[0].depth <= depth)
    ensures Normalized(Settled([row] + inner + after), depth)
         == [Line(AsSaved(row.text), depth)] + Normalized(Settled(inner), depth + 1) + Normalized(Settled(after), depth)
  {
    SettledLevel(row, inner, after);
    var settled := Settled(inner);
    forall r | r in settled
      ensures r.depth > depth
    {
      var i :| 0 <= i < |settled| && settled[i] == r;
      assert inner[i] in inner;
    }
    LevelIsNormalized(Line(AsSaved(row.text), row.depth), settled, Settled(after), depth);
  }

  lemma SettledLevel(row: Line, inner: seq<Line>, after: seq<Line>)
    ensures Settled([row] + inner + after) == [Line(AsSaved(row.text), row.depth)] + Settled(inner) + Settled(after)
  {}

  lemma {:induction false} DrawnItem(row: Line, nested: seq<Item>, rest: seq<Item>, ordered: bool, depth: nat)
    ensures Flatten([Item(InlineFrom(row.text), Children(nested, ordered))] + rest, depth)
         == [Line(AsSaved(row.text), depth)] + Flatten(nested, depth + 1) + Flatten(rest, depth)
  {
    FlattenOneList(nested, ordered, depth + 1);
    FlattenCons(Item(InlineFrom(row.text), Children(nested, ordered)), rest, depth);
    SavedTextIs(row.text);
  }

  lemma {:induction false} NestedRowsAreNormalized(rows: seq<Line>, cursor: nat, depth: nat, ordered: bool)
    requires cursor <= |rows|
    ensures var b := Nested(rows, cursor, depth, ordered);
            Flatten(b.items, depth + 1) == Normalized(Settled(rows[cursor..b.cursor]), depth + 1)
    decreases |rows| - cursor, 1
  {
    if cursor < |rows| && rows[cursor].depth > depth {
      BuiltRowsAreNormalized(rows, cursor, depth + 1, ordered);
    }
  }

  lemma {:induction false} NestedTakesDeepRows(rows: seq<Line>, cursor: nat, depth: nat, ordered: bool)
    requires cursor <= |rows|
    ensures forall k | cursor <= k < Nested(rows, cursor, depth, ordered).cursor :: rows[k].depth > depth
  {
    if cursor < |rows| && rows[cursor].depth > depth {
      BuildTakesDeepRows(rows, cursor, depth + 1, ordered);
    }
  }

  lemma NormalizedCons(row: Line, rest: seq<Line>, ceiling: nat)
    ensures Normalized([row] + rest, ceiling)
         == [row.(depth := Min(row.depth, ceiling))] + Normalized(rest, Min(row.depth, ceiling) + 1)
  {
    assert ([row] + rest)[1..] == rest;
  }

  lemma Associates<T>(a: seq<T>, b: seq<T>, c: seq<T>)
    ensures a + b + c == a + (b + c)
  {}

  lemma {:induction false} LevelIsNormalized(row: Line, inner: seq<Line>, after: seq<Line>, depth: nat)
    requires row.depth >= depth && (forall r | r in inner :: r.depth > depth) && (after != [] ==> after[0].depth <= depth)
    ensures Normalized([row] + inner + after, depth)
         == [row.(depth := depth)] + Normalized(inner, depth + 1) + Normalized(after, depth)
  {
    NormalizedSplits(inner, after, depth + 1, depth);
    NormalizedCons(row, inner + after, depth);
    Associates([row], inner, after);
    Associates([row.(depth := depth)], Normalized(inner, depth + 1), Normalized(after, depth));
  }

  /** Every sequence of rows, whatever its depths: saving it as a list and
      drawing the list again gives the same rows in the same order, each pulled
      up to where it has a parent, their texts as a save leaves them. */
  lemma {:induction false} DrawnAgainIsNormalized(rows: seq<Line>, ordered: bool)
    ensures Flatten(Nest(rows, ordered), 0) == Normalized(Settled(rows), 0)
  {
    BuiltRowsAreNormalized(rows, 0, 0, ordered);
    assert rows[0..|rows|] == rows;
  }

  lemma {:induction false} NormalizedAt(rows: seq<Line>, ceiling: nat)
    ensures |Normalized(rows, ceiling)| == |rows|
    ensures forall i | 0 <= i < |rows| ::
              && Normalized(rows, ceiling)[i].text == rows[i].text
              && Normalized(rows, ceiling)[i].depth
                 == Min(rows[i].depth, if i == 0 then ceiling else Normalized(rows, ceiling)[i - 1].depth + 1)
    decreases |rows|
  {
    if rows != [] {
      NormalizedAt(rows[1..], Min(rows[0].depth, ceiling) + 1);
    }
  }

  lemma {:induction false} NormalizedIffValid(rows: seq<Line>)
    ensures Normalized(rows, 0) == rows <==> ValidDepths(rows)
    ensures ValidDepths(Normalized(rows, 0))
  {
    NormalizedAt(rows, 0);
    if ValidDepths(rows) {
      ValidIsNormalized(rows, 0);
    }
  }

  lemma {:induction false} ValidIsNormalized(rows: seq<Line>, ceiling: nat)
    requires rows != [] ==> rows[0].depth <= ceiling
    requires forall i | 0 < i < |rows| :: rows[i].depth <= rows[i - 1].depth + 1
    ensures Normalized(rows, ceiling) == rows
    decreases |rows|
  {
    if rows != [] {
      ValidIsNormalized(rows[1..], rows[0].depth + 1);
    }
  }

  /** Rows survive a save exactly when their depths are valid and no link of theirs is marked. */
  lemma {:induction false} RowsSurviveIff(rows: seq<Line>, ordered: bool)
    ensures Flatten(Nest(rows, ordered), 0) == rows <==> ValidDepths(rows) && PlainLinks(rows)
  {
    DrawnAgainIsNormalized(rows, ordered);
    SettledIff(rows);
    NormalizedIffValid(rows);
    NormalizedAt(Settled(rows), 0);
    if Normalized(Settled(rows), 0) == rows {
      forall i | 0 <= i < |rows|
        ensures Settled(rows)[i] == rows[i]
      {
        assert Normalized(Settled(rows), 0)[i].text == Settled(rows)[i].text;
      }
    }
  }

  // ---- Lists to rows and back ----

  /** The depths of a drawn list: it starts at its own, and steps down one level at a time. */
  predicate Steps(rows: seq<Line>, depth: nat) {
    && (rows != [] ==> rows[0].depth == depth)
    && (forall i | 0 <= i < |rows| :: rows[i].depth >= depth)
    && forall i | 0 < i < |rows| :: rows[i].depth <= rows[i - 1].depth + 1
  }

  lemma FlattenIsDeep(items: seq<Item>, depth: nat)
    ensures items != [] ==> Flatten(items, depth) != [] && Flatten(items, depth)[0].depth == depth
  {}

  lemma {:induction false} FlattenSteps(items: seq<Item>, depth: nat)
    ensures Steps(Flatten(items, depth), depth)
    decreases items, 1
  {
    if items != [] {
      ChildrenStep(items[0].children, depth + 1);
      FlattenSteps(items[1..], depth);
      var line := Line(AttributedFrom(items[0].inline), depth);
      StepsJoin([line], FlattenChildren(items[0].children, depth + 1), depth, depth + 1);
      StepsJoin([line] + FlattenChildren(items[0].children, depth + 1), Flatten(items[1..], depth), depth, depth);
    }
  }

  lemma {:induction false} ChildrenStep(children: seq<Block>, depth: nat)
    ensures Steps(FlattenChildren(children, depth), depth)
    decreases children, 0
  {
    if children != [] {
      ChildrenStep(children[1..], depth);
      if children[0].List? {
        FlattenSteps(children[0].items, depth);
        StepsJoin(Flatten(children[0].items, depth), FlattenChildren(children[1..], depth), depth, depth);
      }
    }
  }

  lemma StepsJoin(a: seq<Line>, b: seq<Line>, depth: nat, d: nat)
    requires Steps(a, depth) && Steps(b, d) && depth <= d <= depth + 1 && (d > depth ==> a != [])
    ensures Steps(a + b, depth)
  {
    var c := a + b;
    forall i | 0 < i < |c|
      ensures c[i].depth <= c[i - 1].depth + 1
    {
      if i > |a| {
        assert c[i] == b[i - |a|] && c[i - 1] == b[i - 1 - |a|];
      }
    }
  }

  /** Every list is drawn with valid depths, the ones the editor cannot write back included. */
  lemma {:induction false} FlattenNests(items: seq<Item>)
    ensures ValidDepths(Flatten(items, 0))
  {
    FlattenSteps(items, 0);
  }

  lemma PartsOfSlice(rows: seq<Line>, start: nat, line: Line, inner: seq<Line>, others: seq<Line>)
    requires start + 1 + |inner| + |others| <= |rows|
    requires rows[start..start + 1 + |inner| + |others|] == [line] + inner + others
    ensures rows[start] == line
    ensures rows[start + 1..start + 1 + |inner|] == inner
    ensures rows[start + 1 + |inner|..start + 1 + |inner| + |others|] == others
  {
    var slice := rows[start..start + 1 + |inner| + |others|];
    assert slice[0] == line;
    forall k | 0 <= k < |inner|
      ensures rows[start + 1..start + 1 + |inner|][k] == inner[k]
    {
      assert slice[1 + k] == inner[k];
    }
    assert slice[1 + |inner|..] == others;
  }

  lemma DrawnParts(items: seq<Item>, rows: seq<Line>, start: nat, end: nat, depth: nat) returns (middle: nat)
    requires items != [] && start <= end <= |rows| && rows[start..end] == Flatten(items, depth)
    ensures start < middle <= end && rows[start] == Line(AttributedFrom(items[0].inline), depth)
    ensures rows[start + 1..middle] == FlattenChildren(items[0].children, depth + 1)
    ensures rows[middle..end] == Flatten(items[1..], depth)
    ensures middle < end ==> rows[middle].depth == depth
  {
    var line, inner, others := Line(AttributedFrom(items[0].inline), depth), FlattenChildren(items[0].children, depth + 1), Flatten(items[1..], depth);
    assert |rows[start..end]| == 1 + |inner| + |others|;
    PartsOfSlice(rows, start, line, inner, others);
    middle := start + 1 + |inner|;
    FlattenIsDeep(items[1..], depth);
    if middle < end {
      assert rows[middle] == rows[middle..end][0];
    }
  }

  /** A supported list, drawn as rows somewhere in a longer list and built from there, is itself. */
  lemma {:induction false} SupportedIsBuilt(items: seq<Item>, ordered: bool, rows: seq<Line>, start: nat, end: nat, depth: nat)
    requires Supported(items, ordered)
    requires start <= end <= |rows| && rows[start..end] == Flatten(items, depth)
    requires end < |rows| ==> rows[end].depth < depth
    ensures Build(rows, start, depth, ordered) == Built(items, end)
    decreases items, 1
  {
    if items != [] {
      var middle := DrawnParts(items, rows, start, end, depth);
      SupportedIsNested(items[0], ordered, rows, start + 1, middle, depth);
      SupportedIsBuilt(items[1..], ordered, rows, middle, end, depth);
      Assembled(items, ordered, rows, start, middle, end, depth);
    }
  }

  lemma Assembled(items: seq<Item>, ordered: bool, rows: seq<Line>, start: nat, middle: nat, end: nat, depth: nat)
    requires items != [] && Canonical(items[0].inline)
    requires start < middle <= |rows| && rows[start] == Line(AttributedFrom(items[0].inline), depth)
    requires Nested(rows, start + 1, depth, ordered).cursor == middle
    requires Children(Nested(rows, start + 1, depth, ordered).items, ordered) == items[0].children
    requires Build(rows, middle, depth, ordered) == Built(items[1..], end)
    ensures Build(rows, start, depth, ordered) == Built(items, end)
  {
    InlineSurvivesIff(items[0].inline);
    assert items == [items[0]] + items[1..];
  }

  lemma {:induction false} SupportedIsNested(item: Item, ordered: bool, rows: seq<Line>, start: nat, end: nat, depth: nat)
    requires SupportedItem(item, ordered)
    requires start <= end <= |rows| && rows[start..end] == FlattenChildren(item.children, depth + 1)
    requires end < |rows| ==> rows[end].depth <= depth
    ensures Nested(rows, start, depth, ordered).cursor == end
    ensures Children(Nested(rows, start, depth, ordered).items, ordered) == item.children
    decreases item, 0
  {
    if item.children != [] {
      var nested := item.children[0].items;
      assert item.children == [List(ordered, nested)];
      FlattenOneList(nested, ordered, depth + 1);
      FlattenIsDeep(nested, depth + 1);
      assert rows[start] == rows[start..end][0];
      SupportedIsBuilt(nested, ordered, rows, start, end, depth + 1);
    }
  }

  predicate AllWriteWhole(rows: seq<Line>, from: nat, to: nat)
    requires to <= |rows|
  {
    forall k | from <= k < to :: WritesWhole(rows[k].text)
  }

  lemma AllWriteWholeSplits(rows: seq<Line>, a: nat, b: nat, c: nat)
    requires a < b <= c <= |rows|
    ensures AllWriteWhole(rows, a, c) <==> WritesWhole(rows[a].text) && AllWriteWhole(rows, a + 1, b) && AllWriteWhole(rows, b, c)
  {}

  /** A built level is one the rows can say exactly when every text in it writes whole. */
  lemma {:induction false} BuiltIsSupportedIff(rows: seq<Line>, cursor: nat, depth: nat, ordered: bool)
    requires cursor <= |rows|
    ensures var b := Build(rows, cursor, depth, ordered);
            Supported(b.items, ordered) <==> AllWriteWhole(rows, cursor, b.cursor)
    decreases |rows| - cursor, 0
  {
    if cursor < |rows| && rows[cursor].depth >= depth {
      var nested := Nested(rows, cursor + 1, depth, ordered);
      var rest := Build(rows, nested.cursor, depth, ordered);
      NestedIsSupportedIff(rows, cursor + 1, depth, ordered);
      InlineFromIsCanonicalIff(rows[cursor].text);
      BuiltIsSupportedIff(rows, nested.cursor, depth, ordered);
      SupportedParts(Item(InlineFrom(rows[cursor].text), Children(nested.items, ordered)), rest.items, nested.items, ordered);
      AllWriteWholeSplits(rows, cursor, nested.cursor, rest.cursor);
    }
  }

  lemma {:induction false} NestedIsSupportedIff(rows: seq<Line>, cursor: nat, depth: nat, ordered: bool)
    requires cursor <= |rows|
    ensures var b := Nested(rows, cursor, depth, ordered);
            Supported(b.items, ordered) <==> AllWriteWhole(rows, cursor, b.cursor)
    decreases |rows| - cursor, 1
  {
    if cursor < |rows| && rows[cursor].depth > depth {
      BuiltIsSupportedIff(rows, cursor, depth + 1, ordered);
    }
  }

  lemma SupportedParts(item: Item, rest: seq<Item>, nested: seq<Item>, ordered: bool)
    requires item.children == Children(nested, ordered)
    ensures Supported([item] + rest, ordered) <==> Canonical(item.inline) && Supported(nested, ordered) && Supported(rest, ordered)
  {
    assert ([item] + rest)[1..] == rest;
  }

  lemma {:induction false} FlattenIsPlain(items: seq<Item>, depth: nat)
    ensures PlainLinks(Flatten(items, depth))
    decreases items, 1
  {
    if items != [] {
      AttributedIsPlain(items[0].inline);
      ChildrenArePlain(items[0].children, depth + 1);
      FlattenIsPlain(items[1..], depth);
    }
  }

  lemma {:induction false} ChildrenArePlain(children: seq<Block>, depth: nat)
    ensures PlainLinks(FlattenChildren(children, depth))
    decreases children, 0
  {
    if children != [] {
      ChildrenArePlain(children[1..], depth);
      if children[0].List? {
        FlattenIsPlain(children[0].items, depth);
      }
    }
  }

  /** A list comes back from the editor as it was exactly when it is one the rows can say. */
  lemma {:induction false} ListSurvivesIff(items: seq<Item>, ordered: bool)
    ensures Nest(Flatten(items, 0), ordered) == items <==> Supported(items, ordered)
  {
    var drawn := Flatten(items, 0);
    BuiltIsSupportedIff(drawn, 0, 0, ordered);
    FlattenIsPlain(items, 0);
    forall k | 0 <= k < |drawn|
      ensures WritesWhole(drawn[k].text)
    {
      PlainWritesWhole(drawn[k].text);
    }
    if Supported(items, ordered) {
      var rows := Flatten(items, 0);
      assert rows[0..|rows|] == rows;
      SupportedIsBuilt(items, ordered, rows, 0, |rows|, 0);
    }
  }

  // ---- The loops themselves ----

  method ComputeFlatten(items: seq<Item>, depth: nat) returns (rows: seq<Line>)
    ensures rows == Flatten(items, depth)
    decreases items, 1
  {
    rows := [];
    for i := 0 to |items|
      invariant rows + Flatten(items[i..], depth) == Flatten(items, depth)
    {
      var inner := FlattenNested(items[i], depth + 1);
      assert items[i..][1..] == items[i + 1..];
      Regroup(rows, [Line(AttributedFrom(items[i].inline), depth)], inner, Flatten(items[i + 1..], depth));
      rows := rows + [Line(AttributedFrom(items[i].inline), depth)] + inner;
    }
  }

  lemma Regroup<T>(a: seq<T>, b: seq<T>, c: seq<T>, d: seq<T>)
    ensures (a + b + c) + d == a + (b + c + d)
  {}

  lemma ChildrenUnfold(children: seq<Block>, i: nat, depth: nat)
    requires i < |children|
    ensures FlattenChildren(children[i..], depth)
         == if children[i].List? then Flatten(children[i].items, depth) + FlattenChildren(children[i + 1..], depth)
            else FlattenChildren(children[i + 1..], depth)
  {
    assert children[i..][1..] == children[i + 1..];
    assert [] + FlattenChildren(children[i + 1..], depth) == FlattenChildren(children[i + 1..], depth);
  }

  method FlattenNested(item: Item, depth: nat) returns (rows: seq<Line>)
    ensures rows == FlattenChildren(item.children, depth)
    decreases item, 0
  {
    rows := [];
    for i := 0 to |item.children|
      invariant rows + FlattenChildren(item.children[i..], depth) == FlattenChildren(item.children, depth)
    {
      var child := item.children[i];
      ChildrenUnfold(item.children, i, depth);
      if child.List? {
        var nested := ComputeFlatten(child.items, depth);
        Associates(rows, nested, FlattenChildren(item.children[i + 1..], depth));
        rows := rows + nested;
      }
    }
  }

  /** What is still to build from `cursor` on, after `items`. */
  ghost predicate BuiltSoFar(rows: seq<Line>, start: nat, depth: nat, ordered: bool, items: seq<Item>, cursor: nat)
    requires start <= |rows| && cursor <= |rows|
  {
    var whole, rest := Build(rows, start, depth, ordered), Build(rows, cursor, depth, ordered);
    whole.cursor == rest.cursor && whole.items == items + rest.items
  }

  lemma OneMoreItem(rows: seq<Line>, start: nat, depth: nat, ordered: bool, items: seq<Item>, cursor: nat)
    requires start <= |rows| && cursor < |rows| && rows[cursor].depth >= depth
    requires BuiltSoFar(rows, start, depth, ordered, items, cursor)
    ensures var nested := Nested(rows, cursor + 1, depth, ordered);
            BuiltSoFar(rows, start, depth, ordered,
                       items + [Item(InlineFrom(rows[cursor].text), Children(nested.items, ordered))], nested.cursor)
  {
    var nested := Nested(rows, cursor + 1, depth, ordered);
    var item := Item(InlineFrom(rows[cursor].text), Children(nested.items, ordered));
    Regroup(items, [item], [], Build(rows, nested.cursor, depth, ordered).items);
  }

  lemma NoMoreItems(rows: seq<Line>, start: nat, depth: nat, ordered: bool, items: seq<Item>, cursor: nat)
    requires start <= |rows| && cursor <= |rows| && (cursor < |rows| ==> rows[cursor].depth < depth)
    requires BuiltSoFar(rows, start, depth, ordered, items, cursor)
    ensures Built(items, cursor) == Build(rows, start, depth, ordered)
  {}

  method ComputeBuild(rows: seq<Line>, start: nat, depth: nat, ordered: bool) returns (items: seq<Item>, cursor: nat)
    requires start <= |rows|
    ensures Built(items, cursor) == Build(rows, start, depth, ordered)
    decreases |rows| - start, 0
  {
    items, cursor := [], start;
    while cursor < |rows| && rows[cursor].depth >= depth
      invariant start <= cursor <= |rows|
      invariant BuiltSoFar(rows, start, depth, ordered, items, cursor)
      decreases |rows| - cursor
    {
      OneMoreItem(rows, start, depth, ordered, items, cursor);
      var row := rows[cursor];
      var children, next := ComputeChildren(rows, cursor + 1, depth, ordered);
      items := items + [Item(InlineFrom(row.text), children)];
      cursor := next;
    }
    NoMoreItems(rows, start, depth, ordered, items, cursor);
  }

  method ComputeChildren(rows: seq<Line>, cursor: nat, depth: nat, ordered: bool)
    returns (children: seq<Block>, next: nat)
    requires cursor <= |rows|
    ensures var nested := Nested(rows, cursor, depth, ordered);
            children == Children(nested.items, ordered) && next == nested.cursor
    decreases |rows| - cursor, 1
  {
    children, next := [], cursor;
    if cursor < |rows| && rows[cursor].depth > depth {
      var nested;
      nested, next := ComputeBuild(rows, cursor, depth + 1, ordered);
      if nested != [] {
        children := [List(ordered, nested)];
      }
    }
  }
}
