/** Inline text as the grammar writes it and as the editor holds it
    (apps/apple/Sunrise/Notes/NoteInlineText.swift). An attributed string is its
    characters, each with the attributes it carries: marks, and a link, or both. */
module NoteText {
  import opened Wrappers

  datatype Mark = Bold | Italic | Underline | Strike | CodeFont

  datatype Inline =
    | Text(text: string, marks: seq<Mark>)
    | Link(href: string, shown: string)
    | Ref(target: string)
    | Mention(person: string)
    | Redacted(placeholder: string)

  datatype Style = Style(marks: set<Mark>, href: Option<string>) {
    /** The style as the grammar can say it: a link has no marks. */
    function Settled(): Style {
      if href.Some? then this.(marks := {}) else this
    }
  }

  function Marked(marks: set<Mark>): Style {
    Style(marks, None)
  }

  function Linked(href: string): Style {
    Style({}, Some(href))
  }

  datatype Glyph = Glyph(letter: char, style: Style)

  type Attributed = seq<Glyph>

  function Styled(text: string, style: Style): (r: Attributed)
    ensures |r| == |text|
  {
    if text == "" then [] else [Glyph(text[0], style)] + Styled(text[1..], style)
  }

  function Plain(text: string): Attributed {
    Styled(text, Marked({}))
  }

  function Piece(run: Inline): Attributed {
    match run
    case Text(text, marks) => Styled(text, Marked(set m | m in marks))
    case Link(href, shown) => Styled(shown, Linked(href))
    case Ref(target) => Plain(target)
    case Mention(person) => Plain("@" + person)
    case Redacted(placeholder) => Plain(placeholder)
  }

  function AttributedFrom(inline: seq<Inline>): Attributed {
    if inline == [] then [] else Piece(inline[0]) + AttributedFrom(inline[1..])
  }

  /** How far the run beginning at the first glyph reaches. */
  function RunLength(text: Attributed, style: Style): (n: nat)
    ensures n <= |text|
  {
    if text == [] || text[0].style != style then 0 else 1 + RunLength(text[1..], style)
  }

  function Chars(text: Attributed): (r: string)
    ensures |r| == |text|
  {
    if text == [] then "" else [text[0].letter] + Chars(text[1..])
  }

  /** The marks in the order they are always written. */
  function Written(marks: set<Mark>): seq<Mark> {
    (if Bold in marks then [Bold] else []) + (if Italic in marks then [Italic] else [])
    + (if Underline in marks then [Underline] else []) + (if Strike in marks then [Strike] else [])
    + (if CodeFont in marks then [CodeFont] else [])
  }

  function RunOf(text: string, style: Style): Inline {
    match style.href
    case None => Text(text, Written(style.marks))
    case Some(href) => Link(href, text)
  }

  function InlineFrom(text: Attributed): seq<Inline>
    decreases |text|
  {
    if text == [] then []
    else
      var n := RunLength(text, text[0].style);
      [RunOf(Chars(text[..n]), text[0].style)] + InlineFrom(text[n..])
  }

  lemma MarksAreWritten(marks: set<Mark>)
    ensures (set m | m in Written(marks)) == marks
  {
    forall m | m in marks
      ensures m in Written(marks)
    {
      match m
      case Bold => case Italic => case Underline => case Strike => case CodeFont =>
    }
  }

  lemma {:induction false} RunLengthReaches(text: Attributed, style: Style)
    ensures forall i | 0 <= i < RunLength(text, style) :: text[i].style == style
    ensures RunLength(text, style) < |text| ==> text[RunLength(text, style)].style != style
  {
    if text != [] && text[0].style == style {
      RunLengthReaches(text[1..], style);
    }
  }

  lemma {:induction false} StyledAt(text: string, style: Style)
    ensures forall i | 0 <= i < |text| :: Styled(text, style)[i] == Glyph(text[i], style)
  {
    if text != "" {
      StyledAt(text[1..], style);
    }
  }

  lemma {:induction false} CharsOfStyled(text: string, style: Style)
    ensures Chars(Styled(text, style)) == text
  {
    if text != "" {
      CharsOfStyled(text[1..], style);
      assert Styled(text, style)[1..] == Styled(text[1..], style);
      assert text == [text[0]] + text[1..];
    }
  }

  lemma {:induction false} StyledChars(text: Attributed, style: Style)
    requires forall i | 0 <= i < |text| :: text[i].style == style
    ensures Styled(Chars(text), style) == text
  {
    if text != [] {
      StyledChars(text[1..], style);
      assert Chars(text)[1..] == Chars(text[1..]);
      assert text == [text[0]] + text[1..];
    }
  }

  lemma AttributedCons(run: Inline, rest: seq<Inline>)
    ensures AttributedFrom([run] + rest) == Piece(run) + AttributedFrom(rest)
  {
    assert ([run] + rest)[1..] == rest;
  }

  /** The text as a save leaves it. */
  function AsSaved(text: Attributed): (r: Attributed)
    ensures |r| == |text| && forall i | 0 <= i < |text| :: r[i] == Glyph(text[i].letter, text[i].style.Settled())
  {
    seq(|text|, i requires 0 <= i < |text| => Glyph(text[i].letter, text[i].style.Settled()))
  }

  /** No glyph is both linked and marked. */
  predicate LinksArePlain(text: Attributed) {
    forall i | 0 <= i < |text| :: text[i].style.href.Some? ==> text[i].style.marks == {}
  }

  lemma CharsAsSaved(text: Attributed)
    ensures Chars(AsSaved(text)) == Chars(text)
  {
    if text != [] {
      CharsAsSaved(text[1..]);
      assert AsSaved(text)[1..] == AsSaved(text[1..]);
    }
  }

  lemma RunIsItsGlyphs(text: Attributed, style: Style)
    requires forall i | 0 <= i < |text| :: text[i].style == style
    ensures Piece(RunOf(Chars(text), style)) == AsSaved(text)
  {
    StyledChars(AsSaved(text), style.Settled());
    CharsAsSaved(text);
    MarksAreWritten(style.marks);
  }

  /** What is shown comes back from a save with the marks gone from its links, and nothing else changed. */
  lemma {:induction false} SavedTextIs(text: Attributed)
    ensures AttributedFrom(InlineFrom(text)) == AsSaved(text)
    decreases |text|
  {
    if text != [] {
      var style := text[0].style;
      var n := RunLength(text, style);
      var head, tail := text[..n], text[n..];
      assert AsSaved(text) == AsSaved(head) + AsSaved(tail);
      RunLengthReaches(text, style);
      RunIsItsGlyphs(head, style);
      SavedTextIs(tail);
      AttributedCons(RunOf(Chars(head), style), InlineFrom(tail));
    }
  }

  /** So it is unaltered exactly when no glyph is both linked and marked. */
  lemma {:induction false} SavedTextIsUnchangedIff(text: Attributed)
    ensures AttributedFrom(InlineFrom(text)) == text <==> LinksArePlain(text)
  {
    SavedTextIs(text);
    AsSavedIff(text);
  }

  lemma AsSavedIff(text: Attributed)
    ensures AsSaved(text) == text <==> LinksArePlain(text)
  {
    if LinksArePlain(text) {
      assert forall i | 0 <= i < |text| :: text[i].style.Settled() == text[i].style;
    } else {
      var i :| 0 <= i < |text| && text[i].style.href.Some? && text[i].style.marks != {};
      assert AsSaved(text)[i] != text[i];
    }
  }

  function StyleOf(run: Inline): Style {
    match run
    case Text(_, marks) => Marked(set m | m in marks)
    case Link(href, _) => Linked(href)
    case Ref(_) => Marked({})
    case Mention(_) => Marked({})
    case Redacted(_) => Marked({})
  }

  /** A run the editor can say: text with its marks in order, or a link, and not empty. */
  predicate Sayable(run: Inline) {
    match run
    case Text(text, marks) => text != "" && marks == Written(set m | m in marks)
    case Link(_, shown) => shown != ""
    case _ => false
  }

  /** Sayable runs, no two neighbours in one style. */
  predicate Canonical(inline: seq<Inline>) {
    && (forall r | r in inline :: Sayable(r))
    && (forall i | 0 < i < |inline| :: StyleOf(inline[i - 1]) != StyleOf(inline[i]))
  }

  /** Where the style changes, so does what a save says of it: no link is marked only in part. */
  predicate WritesWhole(text: Attributed) {
    forall i | 0 < i < |text| ::
      text[i - 1].style.Settled() == text[i].style.Settled() ==> text[i - 1].style == text[i].style
  }

  lemma PlainWritesWhole(text: Attributed)
    requires LinksArePlain(text)
    ensures WritesWhole(text)
  {}

  lemma RunIsSayable(text: string, style: Style)
    requires text != ""
    ensures StyleOf(RunOf(text, style)) == style.Settled() && Sayable(RunOf(text, style))
  {
    MarksAreWritten(style.marks);
  }

  /** The runs of a text are ones the editor can say again exactly when it writes whole. */
  lemma {:induction false} InlineFromIsCanonicalIff(text: Attributed)
    ensures Canonical(InlineFrom(text)) <==> WritesWhole(text)
    ensures text != [] ==> InlineFrom(text) != [] && StyleOf(InlineFrom(text)[0]) == text[0].style.Settled()
    decreases |text|
  {
    if text != [] {
      var style := text[0].style;
      var n := RunLength(text, style);
      var run, rest := RunOf(Chars(text[..n]), style), InlineFrom(text[n..]);
      RunLengthReaches(text, style);
      RunIsSayable(Chars(text[..n]), style);
      InlineFromIsCanonicalIff(text[n..]);
      assert InlineFrom(text) == [run] + rest;
      CanonicalCons(run, rest);
      WholeFrom(text, n);
    }
  }

  lemma CanonicalCons(run: Inline, rest: seq<Inline>)
    requires Sayable(run)
    ensures Canonical([run] + rest) <==> Canonical(rest) && (rest != [] ==> StyleOf(run) != StyleOf(rest[0]))
  {
    if Canonical([run] + rest) {
      CanonicalRest(run, rest);
    }
    if Canonical(rest) && (rest != [] ==> StyleOf(run) != StyleOf(rest[0])) {
      CanonicalWith(run, rest);
    }
  }

  lemma CanonicalRest(run: Inline, rest: seq<Inline>)
    requires Canonical([run] + rest)
    ensures Canonical(rest) && (rest != [] ==> StyleOf(run) != StyleOf(rest[0]))
  {
    var all := [run] + rest;
    assert forall r | r in rest :: r in all;
    forall i | 0 < i < |rest|
      ensures StyleOf(rest[i - 1]) != StyleOf(rest[i])
    {
      assert rest[i - 1] == all[i] && rest[i] == all[i + 1];
    }
    if rest != [] {
      assert StyleOf(all[1 - 1]) != StyleOf(all[1]) && all[1] == rest[0];
    }
  }

  lemma CanonicalWith(run: Inline, rest: seq<Inline>)
    requires Sayable(run) && Canonical(rest) && (rest != [] ==> StyleOf(run) != StyleOf(rest[0]))
    ensures Canonical([run] + rest)
  {
    var all := [run] + rest;
    forall i | 0 < i < |all|
      ensures StyleOf(all[i - 1]) != StyleOf(all[i])
    {
      if i > 1 {
        assert all[i - 1] == rest[i - 2] && all[i] == rest[i - 1];
      }
    }
  }

  lemma WholeFrom(text: Attributed, n: nat)
    requires 0 < n <= |text| && forall i | 0 <= i < n :: text[i].style == text[0].style
    requires n < |text| ==> text[n].style != text[0].style
    ensures WritesWhole(text) <==>
              WritesWhole(text[n..]) && (n < |text| ==> text[0].style.Settled() != text[n].style.Settled())
  {
    var tail := text[n..];
    if WritesWhole(text) {
      forall i | 0 < i < |tail| && tail[i - 1].style.Settled() == tail[i].style.Settled()
        ensures tail[i - 1].style == tail[i].style
      {
        assert text[n + i - 1] == tail[i - 1] && text[n + i] == tail[i];
      }
      if n < |text| {
        assert text[n - 1].style == text[0].style;
      }
    }
    if WritesWhole(tail) && (n < |text| ==> text[0].style.Settled() != text[n].style.Settled()) {
      forall i | 0 < i < |text| && text[i - 1].style.Settled() == text[i].style.Settled()
        ensures text[i - 1].style == text[i].style
      {
        if i > n {
          assert text[i - 1] == tail[i - n - 1] && text[i] == tail[i - n];
        }
      }
    }
  }

  lemma {:induction false} RunReachesItsEnd(n: nat, text: Attributed, style: Style)
    requires n <= |text| && (forall i | 0 <= i < n :: text[i].style == style) && (n < |text| ==> text[n].style != style)
    ensures RunLength(text, style) == n
  {
    if n > 0 {
      RunReachesItsEnd(n - 1, text[1..], style);
    }
  }

  lemma SayablePiece(run: Inline)
    requires Sayable(run)
    ensures Piece(run) != [] && forall i | 0 <= i < |Piece(run)| :: Piece(run)[i].style == StyleOf(run)
    ensures RunOf(Chars(Piece(run)), StyleOf(run)) == run
  {
    var text := if run.Text? then run.text else run.shown;
    StyledAt(text, StyleOf(run));
    CharsOfStyled(text, StyleOf(run));
  }

  lemma {:induction false} RunIsReadBack(run: Inline, after: Attributed)
    requires Sayable(run) && (after != [] ==> after[0].style != StyleOf(run))
    ensures InlineFrom(Piece(run) + after) == [run] + InlineFrom(after)
  {
    var piece := Piece(run);
    SayablePiece(run);
    var text := piece + after;
    RunReachesItsEnd(|piece|, text, StyleOf(run));
    assert text[..|piece|] == piece && text[|piece|..] == after;
    assert text[0] == piece[0];
  }

  lemma {:induction false} CanonicalSurvives(inline: seq<Inline>)
    requires Canonical(inline)
    ensures InlineFrom(AttributedFrom(inline)) == inline
    decreases |inline|
  {
    if inline != [] {
      var run, rest := inline[0], inline[1..];
      assert Canonical(rest) by {
        assert forall r | r in rest :: r in inline;
        assert forall i | 0 < i < |rest| :: rest[i - 1] == inline[i] && rest[i] == inline[i + 1];
      }
      CanonicalSurvives(rest);
      if rest != [] {
        assert rest[0] in inline && rest[0] == inline[1];
        SayablePiece(rest[0]);
      }
      RunIsReadBack(run, AttributedFrom(rest));
    }
  }

  lemma {:induction false} AttributedIsPlain(inline: seq<Inline>)
    ensures LinksArePlain(AttributedFrom(inline))
  {
    if inline != [] {
      AttributedIsPlain(inline[1..]);
      var run := inline[0];
      var text := match run
        case Text(t, _) => t
        case Link(_, t) => t
        case Ref(t) => t
        case Mention(person) => "@" + person
        case Redacted(t) => t;
      StyledAt(text, StyleOf(run));
    }
  }

  /** An inline comes back as it was exactly when the editor could have written it. */
  lemma {:induction false} InlineSurvivesIff(inline: seq<Inline>)
    ensures InlineFrom(AttributedFrom(inline)) == inline <==> Canonical(inline)
  {
    AttributedIsPlain(inline);
    PlainWritesWhole(AttributedFrom(inline));
    InlineFromIsCanonicalIff(AttributedFrom(inline));
    if Canonical(inline) {
      CanonicalSurvives(inline);
    }
  }

  // ---- The mark buttons ----

  /** `isActive`: every glyph selected carries the mark, and there is one. */
  predicate IsActive(text: Attributed, mark: Mark, at: set<nat>) {
    (exists i :: 0 <= i < |text| && i in at) && forall i | 0 <= i < |text| && i in at :: mark in text[i].style.marks
  }

  /** `toggle`: the mark on across the selection, or off if it is on throughout; links are marked like any text. */
  function MarkToggled(text: Attributed, mark: Mark, at: set<nat>): (r: Attributed)
    ensures |r| == |text|
  {
    var enable := !IsActive(text, mark, at);
    seq(|text|, i requires 0 <= i < |text| =>
      if i in at then text[i].(style := text[i].style.(marks := if enable then text[i].style.marks + {mark} else text[i].style.marks - {mark}))
      else text[i])
  }

  /** A second press takes back a first that found none of the selection marked. */
  lemma {:induction false} PressingTwiceRestoresIff(text: Attributed, mark: Mark, at: set<nat>)
    ensures MarkToggled(MarkToggled(text, mark, at), mark, at) == text
        <==> || (forall i | 0 <= i < |text| && i in at :: mark in text[i].style.marks)
             || (forall i | 0 <= i < |text| && i in at :: mark !in text[i].style.marks)
  {
    var once := MarkToggled(text, mark, at);
    var twice := MarkToggled(once, mark, at);
    var active := IsActive(text, mark, at);
    forall i | 0 <= i < |text|
      ensures twice[i] == text[i] <==> (i in at ==> (mark in text[i].style.marks <==> active))
    {
      if i in at {
        assert mark in once[i].style.marks <==> !active;
        assert IsActive(once, mark, at) <==> !active by {
          if active {
            assert i in at && mark !in once[i].style.marks;
          }
        }
        assert twice[i].style.marks == if active then once[i].style.marks + {mark} else once[i].style.marks - {mark};
      }
    }
  }
}
