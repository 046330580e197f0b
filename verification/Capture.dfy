/** The capture line (crates/sunrise-domain/src/capture.rs:136-364). A line is its
    words; what a date phrase means and how a name is case-folded belong to the
    civil-time code and to Unicode, and are parameters. */
module Capture {
  import opened Wrappers
  import opened Sequences
  import opened Text

  const MAX_PRIORITY: nat := 5
  const MAX_DATE_WORDS: nat := 3

  type Id = nat

  /** A moment, a wall-clock time or a day, as the civil-time code says. */
  type When = string

  datatype Named = Named(id: Id, name: string)

  datatype Context = Context(
    when: string -> Option<When>,
    fold: string -> string,
    streams: seq<Named>,
    contexts: seq<Named>)

  datatype NameKind = StreamName | ContextName

  datatype Unresolved =
    | UnknownName(kind: NameKind, typed: string)
    | AmbiguousName(kind: NameKind, typed: string, candidates: seq<string>)
    | UnparseableDate(phrase: string)
    | PriorityOutOfRange(typed: string)
    | UnparseableDuration(typed: string)

  datatype Facet =
    | InStream(id: Id)
    | InContext(id: Id)
    | Priority(n: nat)
    | Duration(seconds: nat)
    | Planned(at: When)
    | Due(at: When)
    | Target(at: When)

  datatype Draft = Draft(
    title: seq<string>,
    stream: Option<Id>,
    contexts: seq<Id>,
    priority: Option<nat>,
    duration: Option<nat>,
    planned: Option<When>,
    due: Option<When>,
    target: Option<When>)

  const Empty: Draft := Draft([], None, [], None, None, None, None, None)

  // ---- One token ----

  predicate IsSigil(c: char) {
    c in {'#', '@', '!', '~', '^'}
  }

  /** The sigil a word begins with, and the rest of it. */
  function SplitTag(w: string): (Option<char>, string) {
    if w != "" && IsSigil(w[0]) then (Some(w[0]), w[1..]) else (None, w)
  }

  function Between(w: string, prefix: string): Option<string> {
    if |w| > |prefix| + 1 && prefix <= w && w[|w| - 1] == '*' then Some(w[|prefix|..|w| - 1]) else None
  }

  /** An exact name outright, else the one name it is a prefix of. */
  function Resolve(c: Context, typed: string, kind: NameKind): Result<Id, Unresolved> {
    var candidates := if kind.StreamName? then c.streams else c.contexts;
    var exact := Filter(candidates, (x: Named) => c.fold(x.name) == c.fold(typed));
    var prefixed := Filter(candidates, (x: Named) => c.fold(typed) <= c.fold(x.name));
    if exact != [] then Ok(exact[0].id)
    else if |prefixed| == 1 then Ok(prefixed[0].id)
    else if prefixed == [] then Err(UnknownName(kind, typed))
    else Err(AmbiguousName(kind, typed, Map(prefixed, (x: Named) => x.name)))
  }

  const MAX_U64: nat := 0xffff_ffff_ffff_ffff

  function UnitOf(c: char): nat {
    if c == 'h' then 3600 else if c == 'm' then 60 else if c == 'd' then 86400 else 0
  }

  /** Digits and units from here on: `total` so far, `number` the digits not yet given a unit. */
  function Units(s: string, total: nat, number: string, sawUnit: bool): Option<nat>
    requires AllDigits(number)
  {
    if s == "" then (if sawUnit && number == "" && total > 0 then Some(total) else None)
    else if IsDigit(s[0]) then Units(s[1..], total, number + [s[0]], sawUnit)
    else if number == "" || NatValue(number) > MAX_U64 || UnitOf(s[0]) == 0 then None
    else
      var more := NatValue(number) * UnitOf(s[0]);
      if more > MAX_U64 || total + more > MAX_U64 then None else Units(s[1..], total + more, "", true)
  }

  /** `90` is minutes; otherwise `2h`, `30m`, `1h30m`. */
  function Seconds(c: Context, typed: string): Option<nat> {
    var s := c.fold(typed);
    var minutes := Digits(if s != "" && s[0] == '+' then s[1..] else s, MAX_U64);
    if s == "" then None
    else if minutes.Some? then (if minutes.value * 60 <= MAX_U64 then Some(minutes.value * 60) else None)
    else Units(s, 0, "", false)
  }

  // ---- A date over several words ----

  /** The first word's rest and the words after it, a space between each two. */
  function Phrase(words: seq<string>, at: nat, span: nat, rest: string): string
    requires 1 <= span && at + span <= |words|
  {
    if span == 1 then rest else Phrase(words, at, span - 1, rest) + (" " + words[at + span - 1])
  }

  /** A phrase without the space an empty first word leaves in front. */
  function Trimmed(phrase: string): string {
    if phrase != "" && phrase[0] == ' ' then phrase[1..] else phrase
  }

  /** What the phrase of so many words from `at` on says. */
  function DatesAt(c: Context, words: seq<string>, at: nat, rest: string): nat -> Option<When> {
    (span: nat) =>
      if span == 0 || at + span > |words| then None
      else
        var phrase := Trimmed(Phrase(words, at, span, rest));
        if phrase == "" then None else c.when(phrase)
  }

  /** The longest phrase of at most `span` words that is a date. */
  function TakeDate(date: nat -> Option<When>, span: nat): (nat, Option<When>) {
    if span == 0 then (1, None)
    else if date(span).Some? then (span, date(span))
    else TakeDate(date, span - 1)
  }

  function MostWords(words: seq<string>, at: nat): nat
    requires at < |words|
  {
    Min(MAX_DATE_WORDS, |words| - at)
  }

  // ---- The line ----

  /** What became of some words: kept in the title, with a reason if they looked
      like an annotation, or spent on a facet. */
  datatype Event =
    | Kept(at: nat, why: Option<Unresolved>)
    | Applied(at: nat, span: nat, facet: Facet)
  {
    function Length(): nat {
      if Kept? then 1 else span
    }
  }

  function KeptOr(at: nat, r: Result<Facet, Unresolved>): Event {
    match r
    case Ok(facet) => Applied(at, 1, facet)
    case Err(why) => Kept(at, Some(why))
  }

  /** What the word at `i` becomes, with the words after it that it takes along. */
  function Token(c: Context, words: seq<string>, i: nat): Event
    requires i < |words|
  {
    var w := words[i];
    var (tag, rest) := SplitTag(w);
    if tag == Some('#') && rest != "" then
      KeptOr(i, match Resolve(c, rest, StreamName) case Ok(id) => Ok(InStream(id)) case Err(why) => Err(why))
    else if tag == Some('@') && rest != "" then
      KeptOr(i, match Resolve(c, rest, ContextName) case Ok(id) => Ok(InContext(id)) case Err(why) => Err(why))
    else if tag == Some('!') && rest != "" then
      var n := Digits(if rest[0] == '+' then rest[1..] else rest, 255);
      KeptOr(i, if n.Some? && 1 <= n.value <= MAX_PRIORITY then Ok(Priority(n.value)) else Err(PriorityOutOfRange(rest)))
    else if tag == Some('~') && rest != "" then
      var seconds := Seconds(c, rest);
      KeptOr(i, if seconds.Some? then Ok(Duration(seconds.value)) else Err(UnparseableDuration(rest)))
    else if tag == Some('^') then
      var (span, at) := TakeDate(DatesAt(c, words, i, rest), MostWords(words, i));
      if at.Some? then Applied(i, span, Planned(at.value)) else Kept(i, Some(UnparseableDate(w)))
    else
      var due, target := Between(w, "*due:"), Between(w, "*target:");
      if due.Some? then
        KeptOr(i, if c.when(due.value).Some? then Ok(Due(c.when(due.value).value)) else Err(UnparseableDate(due.value)))
      else if target.Some? then
        KeptOr(i, if c.when(target.value).Some? then Ok(Target(c.when(target.value).value)) else Err(UnparseableDate(target.value)))
      else Kept(i, None)
  }

  lemma {:induction false} DatesTakeWords(date: nat -> Option<When>, span: nat)
    ensures 1 <= TakeDate(date, span).0 <= Max(1, span)
  {
    if span > 0 && date(span).None? {
      DatesTakeWords(date, span - 1);
    }
  }

  lemma {:induction false} TokensTakeWords(c: Context, words: seq<string>, i: nat)
    requires i < |words|
    ensures var e := Token(c, words, i); e.at == i && 1 <= e.Length() && i + e.Length() <= |words|
  {
    DatesTakeWords(DatesAt(c, words, i, SplitTag(words[i]).1), MostWords(words, i));
  }

  function TokenAt(c: Context, words: seq<string>): nat -> Event {
    (i: nat) => if i < |words| then Token(c, words, i) else Kept(i, None)
  }

  /** Every token is at its word, takes one word at least, and none past the end. */
  ghost predicate TakesWords(token: nat -> Event, n: nat) {
    forall i: nat | i < n :: token(i).at == i && 1 <= token(i).Length() && i + token(i).Length() <= n
  }

  lemma TheseTakeWords(c: Context, words: seq<string>)
    ensures TakesWords(TokenAt(c, words), |words|)
  {
    forall i: nat | i < |words|
      ensures var e := TokenAt(c, words)(i); e.at == i && 1 <= e.Length() && i + e.Length() <= |words|
    {
      TokensTakeWords(c, words, i);
    }
  }

  /** The tokens from word `i` on, each beginning where the one before it ended. */
  function Scan(token: nat -> Event, n: nat, i: nat): seq<Event>
    decreases n - i
  {
    if i >= n then [] else [token(i)] + Scan(token, n, i + Max(1, token(i).Length()))
  }

  function Events(c: Context, words: seq<string>): seq<Event> {
    Scan(TokenAt(c, words), |words|, 0)
  }

  /** A draft, and what could not be applied. */
  datatype Parsed = Parsed(draft: Draft, unresolved: seq<Unresolved>)

  function Faceted(d: Draft, facet: Facet): Draft {
    match facet
    case InStream(id) => d.(stream := Some(id))
    case InContext(id) => d.(contexts := d.contexts + [id])
    case Priority(n) => d.(priority := Some(n))
    case Duration(seconds) => d.(duration := Some(seconds))
    case Planned(at) => d.(planned := Some(at))
    case Due(at) => d.(due := Some(at))
    case Target(at) => d.(target := Some(at))
  }

  function Take(words: seq<string>, p: Parsed, e: Event): Parsed {
    match e
    case Applied(_, _, facet) => p.(draft := Faceted(p.draft, facet))
    case Kept(at, why) =>
      Parsed(p.draft.(title := p.draft.title + WordAt(words, at)), p.unresolved + if why.Some? then [why.value] else [])
  }

  function WordAt(words: seq<string>, at: nat): seq<string> {
    if at < |words| then [words[at]] else []
  }

  /** Everything some events add to a draft. */
  function Gather(words: seq<string>, p: Parsed, events: seq<Event>): Parsed
    decreases |events|
  {
    if events == [] then p else Gather(words, Take(words, p, events[0]), events[1..])
  }

  function Parse(c: Context, words: seq<string>): Parsed {
    Gather(words, Parsed(Empty, []), Events(c, words))
  }

  lemma GatherOne(words: seq<string>, p: Parsed, token: nat -> Event, n: nat, i: nat)
    requires i < n && TakesWords(token, n)
    ensures Gather(words, p, Scan(token, n, i))
         == Gather(words, Take(words, p, token(i)), Scan(token, n, i + token(i).Length()))
  {
    var events := Scan(token, n, i);
    assert events[0] == token(i) && events[1..] == Scan(token, n, i + token(i).Length());
  }

  /** A draft with the tokens from word `i` on added to it. */
  function Rest(c: Context, words: seq<string>, p: Parsed, i: nat): Parsed {
    Gather(words, p, Scan(TokenAt(c, words), |words|, i))
  }

  /** The parser's loop: a cursor that every arm moves. */
  method ComputeParse(c: Context, words: seq<string>) returns (p: Parsed)
    ensures p == Parse(c, words)
  {
    p := Parsed(Empty, []);
    var i := 0;
    while i < |words|
      invariant i <= |words| && Rest(c, words, p, i) == Parse(c, words)
      decreases |words| - i
    {
      p, i := TakeToken(c, words, p, i);
    }
  }

  /** One turn of it: the draft with one more token in it, and the word after that token. */
  method TakeToken(c: Context, words: seq<string>, before: Parsed, i: nat) returns (p: Parsed, next: nat)
    requires i < |words|
    ensures i < next <= |words| && Rest(c, words, p, next) == Rest(c, words, before, i)
  {
    var e := ComputeToken(c, words, i);
    OneMoreToken(c, words, before, i, e);
    p, next := Take(words, before, e), i + e.Length();
  }

  lemma OneMoreToken(c: Context, words: seq<string>, p: Parsed, i: nat, e: Event)
    requires i < |words| && e == TokenAt(c, words)(i)
    ensures 1 <= e.Length() && i + e.Length() <= |words|
    ensures Rest(c, words, Take(words, p, e), i + e.Length()) == Rest(c, words, p, i)
  {
    TheseTakeWords(c, words);
    GatherOne(words, p, TokenAt(c, words), |words|, i);
  }

  method ComputeToken(c: Context, words: seq<string>, i: nat) returns (e: Event)
    requires i < |words|
    ensures e == TokenAt(c, words)(i)
  {
    var (tag, rest) := SplitTag(words[i]);
    if tag == Some('^') {
      var span, at := ComputeTakeDate(c, words, i, rest);
      e := if at.Some? then Applied(i, span, Planned(at.value)) else Kept(i, Some(UnparseableDate(words[i])));
    } else {
      e := Token(c, words, i);
    }
  }

  /** Longest first. */
  method ComputeTakeDate(c: Context, words: seq<string>, at: nat, rest: string) returns (taken: nat, date: Option<When>)
    requires at < |words|
    ensures (taken, date) == TakeDate(DatesAt(c, words, at, rest), MostWords(words, at))
  {
    var dates := DatesAt(c, words, at, rest);
    var span := MostWords(words, at);
    while span > 0
      invariant TakeDate(dates, span) == TakeDate(dates, MostWords(words, at))
    {
      date := dates(span);
      if date.Some? {
        return span, date;
      }
      span := span - 1;
    }
    return 1, None;
  }

  // ---- Nothing typed is lost ----

  /** The events cut the words from `i` on into consecutive pieces, end to end. */
  predicate Covers(events: seq<Event>, i: nat, n: nat)
    decreases |events|
  {
    if events == [] then i == n else events[0].at == i && i + events[0].Length() <= n && Covers(events[1..], i + events[0].Length(), n)
  }

  lemma {:induction false} ScanCovers(token: nat -> Event, n: nat, i: nat)
    requires i <= n && TakesWords(token, n)
    ensures Covers(Scan(token, n, i), i, n)
    ensures forall e | e in Scan(token, n, i) :: e.Length() >= 1
    decreases n - i
  {
    if i < n {
      ScanCovers(token, n, i + token(i).Length());
      assert Scan(token, n, i)[1..] == Scan(token, n, i + token(i).Length());
    }
  }

  lemma EventsCover(c: Context, words: seq<string>)
    ensures Covers(Events(c, words), 0, |words|) && forall e | e in Events(c, words) :: e.Length() >= 1
  {
    TheseTakeWords(c, words);
    ScanCovers(TokenAt(c, words), |words|, 0);
  }

  predicate Within(k: nat, e: Event) {
    e.at <= k < e.at + e.Length()
  }

  lemma {:induction false} EveryWordHasOnePlace(events: seq<Event>, i: nat, n: nat, k: nat)
    requires Covers(events, i, n)
    ensures i <= k < n <==> exists j :: 0 <= j < |events| && Within(k, events[j])
    ensures forall j, l | 0 <= j < l < |events| :: !(Within(k, events[j]) && Within(k, events[l]))
    decreases |events|
  {
    if events != [] {
      var rest := events[1..];
      EveryWordHasOnePlace(rest, i + events[0].Length(), n, k);
      forall j | 0 < j < |events|
        ensures events[j] == rest[j - 1]
      {}
      if Within(k, events[0]) {
        assert !exists j :: 0 <= j < |rest| && Within(k, rest[j]);
      } else if i <= k < n {
        var j :| 0 <= j < |rest| && Within(k, rest[j]);
        assert Within(k, events[j + 1]);
      }
    }
  }

  // ---- What a draft holds ----

  datatype Field = StreamOf | ContextsOf | PriorityOf | DurationOf | PlannedOf | DueOf | TargetOf

  function FieldOf(facet: Facet): Field {
    match facet
    case InStream(_) => StreamOf
    case InContext(_) => ContextsOf
    case Priority(_) => PriorityOf
    case Duration(_) => DurationOf
    case Planned(_) => PlannedOf
    case Due(_) => DueOf
    case Target(_) => TargetOf
  }

  /** What a field that holds one facet holds. */
  function Held(d: Draft, field: Field): Option<Facet> {
    match field
    case StreamOf => if d.stream.Some? then Some(InStream(d.stream.value)) else None
    case ContextsOf => None
    case PriorityOf => if d.priority.Some? then Some(Priority(d.priority.value)) else None
    case DurationOf => if d.duration.Some? then Some(Duration(d.duration.value)) else None
    case PlannedOf => if d.planned.Some? then Some(Planned(d.planned.value)) else None
    case DueOf => if d.due.Some? then Some(Due(d.due.value)) else None
    case TargetOf => if d.target.Some? then Some(Target(d.target.value)) else None
  }

  predicate Applies(e: Event, field: Field) {
    e.Applied? && FieldOf(e.facet) == field
  }

  /** The last facet the events apply to a field. */
  function Latest(events: seq<Event>, field: Field): Option<Facet> {
    if events == [] then None
    else
      var later := Latest(events[1..], field);
      if later.Some? then later else if Applies(events[0], field) then Some(events[0].facet) else None
  }

  lemma {:induction false} LatestIsLast(events: seq<Event>, field: Field, j: nat)
    requires j < |events| && Applies(events[j], field)
    ensures Latest(events, field).Some?
    ensures (forall l | j < l < |events| :: !Applies(events[l], field)) ==> Latest(events, field) == Some(events[j].facet)
  {
    if j > 0 {
      LatestIsLast(events[1..], field, j - 1);
    } else if Latest(events[1..], field).Some? {
      var l := LatestIsSomewhere(events[1..], field);
      assert Applies(events[l + 1], field);
    }
  }

  lemma {:induction false} LatestIsSomewhere(events: seq<Event>, field: Field) returns (j: nat)
    requires Latest(events, field).Some?
    ensures j < |events| && Applies(events[j], field) && Latest(events, field) == Some(events[j].facet)
    ensures forall l | j < l < |events| :: !Applies(events[l], field)
  {
    if Latest(events[1..], field).Some? {
      var l := LatestIsSomewhere(events[1..], field);
      j := l + 1;
    } else {
      j := 0;
      forall l | 0 < l < |events|
        ensures !Applies(events[l], field)
      {
        if Applies(events[l], field) {
          LatestIsLast(events[1..], field, l - 1);
        }
      }
    }
  }

  /** The contexts the events put a task in. */
  function ContextsIn(events: seq<Event>): seq<Id> {
    if events == [] then []
    else (if Applies(events[0], ContextsOf) then [events[0].facet.id] else []) + ContextsIn(events[1..])
  }

  lemma {:induction false} DraftGathers(words: seq<string>, p: Parsed, events: seq<Event>, field: Field)
    requires field != ContextsOf
    ensures var d := Gather(words, p, events).draft;
            Held(d, field) == if Latest(events, field).Some? then Latest(events, field) else Held(p.draft, field)
    decreases |events|
  {
    if events != [] {
      DraftGathers(words, Take(words, p, events[0]), events[1..], field);
    }
  }

  lemma {:induction false} ContextsGather(words: seq<string>, p: Parsed, events: seq<Event>)
    ensures Gather(words, p, events).draft.contexts == p.draft.contexts + ContextsIn(events)
    decreases |events|
  {
    if events != [] {
      var here := if Applies(events[0], ContextsOf) then [events[0].facet.id] else [];
      ContextsGather(words, Take(words, p, events[0]), events[1..]);
      assert Take(words, p, events[0]).draft.contexts == p.draft.contexts + here;
      Regrouped(p.draft.contexts, here, ContextsIn(events[1..]));
    }
  }

  /** The draft is what the line applied: every context, in order, and of each
      other kind of facet the last one, if there was any. */
  lemma {:induction false} TheDraftHoldsTheLast(c: Context, words: seq<string>, field: Field)
    ensures Parse(c, words).draft.contexts == ContextsIn(Events(c, words))
    ensures field != ContextsOf ==> Held(Parse(c, words).draft, field) == Latest(Events(c, words), field)
  {
    var events := Events(c, words);
    ContextsGather(words, Parsed(Empty, []), events);
    if field != ContextsOf {
      DraftGathers(words, Parsed(Empty, []), events, field);
    }
  }

  /** The draft shows the facet. */
  predicate Shows(d: Draft, facet: Facet) {
    if facet.InContext? then facet.id in d.contexts else Held(d, FieldOf(facet)) == Some(facet)
  }

  lemma {:induction false} ContextsAreIn(events: seq<Event>, j: nat)
    requires j < |events| && Applies(events[j], ContextsOf)
    ensures events[j].facet.id in ContextsIn(events)
  {
    if j > 0 {
      ContextsAreIn(events[1..], j - 1);
    }
  }

  /** A later event applies another facet of the same single-valued kind, and no event after that one undoes it. */
  ghost predicate Replaced(events: seq<Event>, j: nat)
    requires j < |events| && events[j].Applied?
  {
    && !events[j].facet.InContext?
    && exists l :: j < l < |events| && Applies(events[l], FieldOf(events[j].facet)) && events[l].facet != events[j].facet
                   && forall m | l < m < |events| :: !Applies(events[m], FieldOf(events[j].facet))
  }

  lemma {:induction false} AppliedIsShownIff(c: Context, words: seq<string>, j: nat)
    requires j < |Events(c, words)| && Events(c, words)[j].Applied?
    ensures Shows(Parse(c, words).draft, Events(c, words)[j].facet) <==> !Replaced(Events(c, words), j)
  {
    var events := Events(c, words);
    var facet := events[j].facet;
    var field := FieldOf(facet);
    TheDraftHoldsTheLast(c, words, field);
    if facet.InContext? {
      ContextsAreIn(events, j);
    } else {
      LatestIsLast(events, field, j);
      var l := LatestIsSomewhere(events, field);
      assert l >= j;
      if Replaced(events, j) {
        var r :| j < r < |events| && Applies(events[r], field) && events[r].facet != facet
                 && forall m | r < m < |events| :: !Applies(events[m], field);
        assert r == l;
      }
    }
  }

  /** The line's words are divided once and for all, each belonging to one event.
      A word that was kept is in the title; one that was spent is in the draft,
      unless and only unless the last facet of its kind on the line is another
      one and the draft holds only one of that kind. */
  lemma {:induction false} EveryWordIsKeptSpentOrReplaced(c: Context, words: seq<string>, k: nat) returns (j: nat)
    requires k < |words|
    ensures var events, parsed := Events(c, words), Parse(c, words);
            && j < |events| && (forall l: nat | l < |events| :: Within(k, events[l]) <==> l == j)
            && (events[j].Kept? ==> events[j].at == k && words[k] in parsed.draft.title)
            && (events[j].Applied? ==> (Shows(parsed.draft, events[j].facet) <==> !Replaced(events, j)))
  {
    var events := Events(c, words);
    EventsCover(c, words);
    EveryWordHasOnePlace(events, 0, |words|, k);
    j :| 0 <= j < |events| && Within(k, events[j]);
    forall l: nat | l < |events|
      ensures Within(k, events[l]) <==> l == j
    {}
    if events[j].Applied? {
      AppliedIsShownIff(c, words, j);
    } else {
      var at := TheTitleIsOfTheLine(c, words);
      KeptIsAt(events, j);
      var m :| 0 <= m < |at| && at[m] == k;
      assert Parse(c, words).draft.title[m] == words[k];
    }
  }

  lemma {:induction false} KeptIsAt(events: seq<Event>, j: nat)
    requires j < |events| && events[j].Kept?
    ensures events[j].at in KeptAt(events)
  {
    if j > 0 {
      KeptIsAt(events[1..], j - 1);
    }
  }

  /** So a word can be in neither: of two priorities on a line, the first leaves no trace. */
  lemma {:induction false} AReplacedWordLeavesNoTrace(c: Context)
    ensures var parsed := Parse(c, ["!1", "!2"]);
            parsed.draft == Empty.(priority := Some(2)) && parsed.unresolved == []
  {
    var words := ["!1", "!2"];
    var token := TokenAt(c, words);
    assert words[0][1..] == "1" && words[1][1..] == "2";
    assert token(0) == Applied(0, 1, Priority(1)) && token(1) == Applied(1, 1, Priority(2));
    TheseTakeWords(c, words);
    var empty := Parsed(Empty, []);
    GatherOne(words, empty, token, 2, 0);
    GatherOne(words, Take(words, empty, token(0)), token, 2, 1);
    assert Scan(token, 2, 2) == [];
  }

  /** Where the kept words were. */
  function KeptAt(events: seq<Event>): seq<nat> {
    if events == [] then [] else (if events[0].Kept? then [events[0].at] else []) + KeptAt(events[1..])
  }

  function WordsAt(words: seq<string>, at: seq<nat>): seq<string> {
    if at == [] then [] else WordAt(words, at[0]) + WordsAt(words, at[1..])
  }

  lemma {:induction false} TitleGathers(words: seq<string>, p: Parsed, events: seq<Event>)
    ensures Gather(words, p, events).draft.title == p.draft.title + WordsAt(words, KeptAt(events))
    decreases |events|
  {
    if events != [] {
      var e, rest := events[0], events[1..];
      TitleGathers(words, Take(words, p, e), rest);
      if e.Kept? {
        assert KeptAt(events)[0] == e.at && KeptAt(events)[1..] == KeptAt(rest);
        assert WordsAt(words, KeptAt(events)) == WordAt(words, e.at) + WordsAt(words, KeptAt(rest));
        Regrouped(p.draft.title, WordAt(words, e.at), WordsAt(words, KeptAt(rest)));
      } else {
        assert KeptAt(events) == KeptAt(rest);
      }
    }
  }

  lemma Regrouped<T>(a: seq<T>, b: seq<T>, c: seq<T>)
    ensures (a + b) + c == a + (b + c)
  {}

  lemma {:induction false} KeptAtAscends(events: seq<Event>, i: nat, n: nat)
    requires Covers(events, i, n) && forall e | e in events :: e.Length() >= 1
    ensures forall k | 0 <= k < |KeptAt(events)| :: i <= KeptAt(events)[k] < n
    ensures forall k, l | 0 <= k < l < |KeptAt(events)| :: KeptAt(events)[k] < KeptAt(events)[l]
    decreases |events|
  {
    if events != [] {
      KeptAtAscends(events[1..], i + events[0].Length(), n);
    }
  }

  lemma {:induction false} WordsAtIsThem(words: seq<string>, at: seq<nat>)
    requires forall k | 0 <= k < |at| :: at[k] < |words|
    ensures |WordsAt(words, at)| == |at| && forall k | 0 <= k < |at| :: WordsAt(words, at)[k] == words[at[k]]
    decreases |at|
  {
    if at != [] {
      WordsAtIsThem(words, at[1..]);
    }
  }

  /** The title holds only the line's words, in their order, each at most once. */
  lemma {:induction false} TheTitleIsOfTheLine(c: Context, words: seq<string>) returns (at: seq<nat>)
    ensures Subsequence(Parse(c, words).draft.title, words, at)
    ensures at == KeptAt(Events(c, words))
  {
    var events := Events(c, words);
    at := KeptAt(events);
    EventsCover(c, words);
    KeptAtAscends(events, 0, |words|);
    TitleGathers(words, Parsed(Empty, []), events);
    WordsAtIsThem(words, at);
    assert Parse(c, words).draft.title == WordsAt(words, at);
  }

  /** Split the title again and it is those words: none of them holds a space. */
  lemma {:induction false} TheTitleReadsBack(c: Context, words: seq<string>)
    requires AllWithout(words, ' ') && Parse(c, words).draft.title != []
    ensures Split(Join(Parse(c, words).draft.title, ' '), ' ') == Parse(c, words).draft.title
  {
    var at := TheTitleIsOfTheLine(c, words);
    SplitJoin(Parse(c, words).draft.title, ' ');
  }

  // ---- What is kept is said to be ----

  function Whys(events: seq<Event>): seq<Unresolved> {
    if events == [] then []
    else (if events[0].Kept? && events[0].why.Some? then [events[0].why.value] else []) + Whys(events[1..])
  }

  lemma {:induction false} UnresolvedGathers(words: seq<string>, p: Parsed, events: seq<Event>)
    ensures Gather(words, p, events).unresolved == p.unresolved + Whys(events)
    decreases |events|
  {
    if events != [] {
      var e := events[0];
      var why := if e.Kept? && e.why.Some? then [e.why.value] else [];
      UnresolvedGathers(words, Take(words, p, e), events[1..]);
      assert Take(words, p, e).unresolved == p.unresolved + why;
      Regrouped(p.unresolved, why, Whys(events[1..]));
    }
  }

  /** A word that looks like an annotation: a sigil and something after it, or a starred deadline. */
  predicate LooksLikeOne(w: string) {
    || (w != "" && IsSigil(w[0]) && (w[0] == '^' || |w| > 1))
    || Between(w, "*due:").Some? || Between(w, "*target:").Some?
  }

  /** A word kept in the title is reported exactly when it looked like an annotation. */
  lemma {:induction false} KeptIsReportedIff(c: Context, words: seq<string>, i: nat)
    requires i < |words| && Token(c, words, i).Kept?
    ensures Token(c, words, i).why.Some? <==> LooksLikeOne(words[i])
  {}

  /** And what is reported is exactly what was kept for a reason, in the line's order. */
  lemma {:induction false} WhatIsReported(c: Context, words: seq<string>)
    ensures Parse(c, words).unresolved == Whys(Events(c, words))
  {
    UnresolvedGathers(words, Parsed(Empty, []), Events(c, words));
  }

  /** The longest date wins: what follows `^` is spent on the longest phrase of
      at most three words that is a date, and kept only when none is. */
  lemma {:induction false} TheLongestDateWins(c: Context, words: seq<string>, i: nat, longer: nat)
    requires i < |words| && words[i] != "" && words[i][0] == '^'
    requires 1 <= longer <= MostWords(words, i)
    ensures var e, date := Token(c, words, i), DatesAt(c, words, i, words[i][1..]);
            && (e.Applied? ==> e.facet.Planned? && 1 <= e.span <= MostWords(words, i) && date(e.span) == Some(e.facet.at))
            && (e.Kept? || longer > e.span ==> date(longer).None?)
  {
    var date := DatesAt(c, words, i, words[i][1..]);
    TakenIsADate(date, MostWords(words, i));
    LongestIsTaken(date, MostWords(words, i), longer);
  }

  lemma {:induction false} LongestIsTaken(date: nat -> Option<When>, span: nat, longer: nat)
    requires 1 <= longer <= span
    ensures TakeDate(date, span).1.None? || longer > TakeDate(date, span).0 ==> date(longer).None?
  {
    if date(span).None? && longer < span {
      LongestIsTaken(date, span - 1, longer);
    }
  }

  lemma {:induction false} TakenIsADate(date: nat -> Option<When>, span: nat)
    ensures var taken := TakeDate(date, span); taken.1.Some? ==> 1 <= taken.0 <= span && date(taken.0) == taken.1
  {
    if span > 0 && date(span).None? {
      TakenIsADate(date, span - 1);
    }
  }

  /** Candidate `k` is what a typed name means: the first whose whole name it is,
      or, if it is no candidate's whole name, the only one whose name it begins. */
  predicate Means(c: Context, candidates: seq<Named>, typed: string, k: nat) {
    && k < |candidates|
    && (|| (c.fold(candidates[k].name) == c.fold(typed)
            && forall m | 0 <= m < k :: c.fold(candidates[m].name) != c.fold(typed))
        || ((forall x | x in candidates :: c.fold(x.name) != c.fold(typed))
            && forall m | 0 <= m < |candidates| :: c.fold(typed) <= c.fold(candidates[m].name) <==> m == k))
  }

  lemma {:induction false} FirstKept<T>(s: seq<T>, p: T -> bool) returns (k: nat)
    requires Filter(s, p) != []
    ensures k < |s| && p(s[k]) && Filter(s, p)[0] == s[k] && forall m | 0 <= m < k :: !p(s[m])
  {
    if p(s[0]) {
      k := 0;
    } else {
      var l := FirstKept(s[1..], p);
      k := l + 1;
    }
  }

  lemma {:induction false} OnlyOneKeptIff<T>(s: seq<T>, p: T -> bool, k: nat)
    requires k < |s| && p(s[k])
    ensures |Filter(s, p)| == 1 <==> forall m | 0 <= m < |s| :: p(s[m]) <==> m == k
  {
    var before, after := s[..k], s[k + 1..];
    assert s == before + [s[k]] + after && Filter([s[k]], p) == [s[k]] + Filter([], p);
    FilterConcat(before + [s[k]], after, p);
    FilterConcat(before, [s[k]], p);
    if |Filter(s, p)| == 1 {
      forall m | 0 <= m < |s|
        ensures p(s[m]) <==> m == k
      {
        assert m < k ==> s[m] in before;
        assert m > k ==> s[m] in after;
      }
    }
    if forall m | 0 <= m < |s| :: p(s[m]) <==> m == k {
      FilterNone(before, p);
      FilterNone(after, p);
    }
  }

  /** A typed name resolves exactly when it means some candidate, and to that one.
      Otherwise it is unknown when it begins no name, and ambiguous, among the
      names it begins, when it begins several. */
  lemma {:induction false} ResolvesIffClear(c: Context, typed: string, kind: NameKind, k: nat)
    ensures var candidates := if kind.StreamName? then c.streams else c.contexts;
            && (Means(c, candidates, typed, k) ==> Resolve(c, typed, kind) == Ok(candidates[k].id))
            && (Resolve(c, typed, kind).Ok? ==> exists m :: Means(c, candidates, typed, m))
            && (Resolve(c, typed, kind).Err? ==>
                  var begun := Filter(candidates, (x: Named) => c.fold(typed) <= c.fold(x.name));
                  Resolve(c, typed, kind).error == if begun == [] then UnknownName(kind, typed)
                                                   else AmbiguousName(kind, typed, Map(begun, (x: Named) => x.name)))
  {
    var candidates := if kind.StreamName? then c.streams else c.contexts;
    var whole := (x: Named) => c.fold(x.name) == c.fold(typed);
    var begins := (x: Named) => c.fold(typed) <= c.fold(x.name);
    var exact, prefixed := Filter(candidates, whole), Filter(candidates, begins);
    if exact != [] {
      var m := FirstKept(candidates, whole);
      assert Means(c, candidates, typed, m);
      if Means(c, candidates, typed, k) {
        assert candidates[m] in candidates;
        assert k == m;
      }
    } else {
      forall x | x in candidates
        ensures c.fold(x.name) != c.fold(typed)
      {
        assert whole(x) ==> x in exact;
      }
      if Means(c, candidates, typed, k) {
        assert candidates[k] in candidates && begins(candidates[k]);
        OnlyOneKeptIff(candidates, begins, k);
        assert prefixed[0] in prefixed;
        assert candidates[k] in prefixed;
      }
      if |prefixed| == 1 {
        var m := FirstKept(candidates, begins);
        OnlyOneKeptIff(candidates, begins, m);
        assert Means(c, candidates, typed, m);
      }
    }
  }
}
