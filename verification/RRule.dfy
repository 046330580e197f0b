/** RRULE bodies (section 3.3.10 of RFC 5545): parsing and the canonical text
    (crates/sunrise-domain/src/rrule.rs:139-310, 379-403). How a bare date, a bare
    date-time and an instant are read and written belongs to the civil-time library
    and is a parameter. */
module RRule {
  import opened Wrappers
  import opened Sequences
  import opened Text

  /** The kinds of time an `UNTIL` can be. Instants, date-times and dates are the library's, here numbered. */
  datatype Until =
    | Instant(at: int)
    | Zoned(civil: int, zone: string)
    | Floating(civil: int)
    | AllDay(date: int)
    | OtherKind(raw: string)

  /** The library's readers and writers. */
  datatype Clock = Clock(
    readInstant: string -> Option<int>,
    writeInstant: int -> string,
    readDateTime: string -> Option<int>,
    writeDateTime: int -> string,
    readDate: string -> Option<int>,
    writeDate: int -> string)

  /** An instant, `civil[zone]`, a date-time or a date, tried in that order. */
  function ReadUntil(clock: Clock, v: string): Option<Until> {
    if clock.readInstant(v).Some? then Some(Instant(clock.readInstant(v).value))
    else match SplitOnce(v, '[')
      case Some((civil, rest)) =>
        if rest == "" || rest[|rest| - 1] != ']' || clock.readDateTime(civil).None? then None
        else Some(Zoned(clock.readDateTime(civil).value, rest[..|rest| - 1]))
      case None =>
        if !Without(v, 'T') then
          (if clock.readDateTime(v).Some? then Some(Floating(clock.readDateTime(v).value)) else None)
        else if clock.readDate(v).Some? then Some(AllDay(clock.readDate(v).value)) else None
  }

  function Bracketed(civil: string, zone: string): string {
    civil + (['['] + (zone + "]"))
  }

  function UntilText(clock: Clock, until: Until): Option<string> {
    match until
    case Instant(at) => Some(clock.writeInstant(at))
    case Zoned(civil, zone) => Some(Bracketed(clock.writeDateTime(civil), zone))
    case Floating(civil) => Some(clock.writeDateTime(civil))
    case AllDay(date) => Some(clock.writeDate(date))
    case OtherKind(_) => None
  }

  datatype Frequency = Daily | Weekly | Monthly | Yearly | OtherFrequency(raw: string) {
    function Text(): string {
      match this
      case Daily => "DAILY"
      case Weekly => "WEEKLY"
      case Monthly => "MONTHLY"
      case Yearly => "YEARLY"
      case OtherFrequency(raw) => raw
    }
  }

  function ReadFrequency(raw: string): Frequency {
    if raw == "DAILY" then Daily
    else if raw == "WEEKLY" then Weekly
    else if raw == "MONTHLY" then Monthly
    else if raw == "YEARLY" then Yearly
    else OtherFrequency(raw)
  }

  datatype Weekday = Su | Mo | Tu | We | Th | Fr | Sa | OtherDay(raw: string) {
    function Text(): string {
      match this
      case Su => "SU"
      case Mo => "MO"
      case Tu => "TU"
      case We => "WE"
      case Th => "TH"
      case Fr => "FR"
      case Sa => "SA"
      case OtherDay(raw) => raw
    }
  }

  function ReadWeekday(raw: string): Weekday {
    if raw == "SU" then Su
    else if raw == "MO" then Mo
    else if raw == "TU" then Tu
    else if raw == "WE" then We
    else if raw == "TH" then Th
    else if raw == "FR" then Fr
    else if raw == "SA" then Sa
    else OtherDay(raw)
  }

  /** `unknown`: the fields this build does not know, which the text has no place for. */
  datatype Rule = Rule(
    freq: Frequency,
    interval: nat,
    byDay: seq<Weekday>,
    byMonthDay: seq<int>,
    byMonth: seq<nat>,
    bySetPos: seq<int>,
    count: Option<nat>,
    until: Option<Until>,
    wkst: Option<Weekday>,
    unknown: map<string, string>)

  datatype Error = MissingFreq | UnknownPart(part: string) | BadValue(key: string, value: string)

  // ---- Parsing ----

  /** The rule read so far, and whether a frequency has been. */
  datatype Reading = Reading(freq: Option<Frequency>, rule: Rule)

  const Blank: Rule := Rule(Daily, 1, [], [], [], [], None, None, None, map[])

  function ReadDays(tokens: seq<string>): (days: seq<Weekday>)
    ensures |days| == |tokens|
  {
    if tokens == [] then [] else [ReadWeekday(tokens[0])] + ReadDays(tokens[1..])
  }

  function ReadI32s(tokens: seq<string>): (r: Result<seq<int>, string>)
    ensures r.Ok? ==> |r.value| == |tokens|
  {
    if tokens == [] then Ok([])
    else match ReadI32(tokens[0])
      case None => Err(tokens[0])
      case Some(n) =>
        match ReadI32s(tokens[1..])
        case Ok(rest) => Ok([n] + rest)
        case Err(token) => Err(token)
  }

  function ReadU32s(tokens: seq<string>): (r: Result<seq<nat>, string>)
    ensures r.Ok? ==> |r.value| == |tokens|
  {
    if tokens == [] then Ok([])
    else match ReadU32(tokens[0])
      case None => Err(tokens[0])
      case Some(n) =>
        match ReadU32s(tokens[1..])
        case Ok(rest) => Ok([n] + rest)
        case Err(token) => Err(token)
  }

  function ReadValue(clock: Clock, r: Reading, key: string, value: string): Result<Reading, Error> {
    var rule := r.rule;
    if key == "FREQ" then Ok(r.(freq := Some(ReadFrequency(value))))
    else if key == "INTERVAL" then
      match ReadU32(value)
      case Some(n) => if n == 0 then Err(BadValue(key, value)) else Ok(r.(rule := rule.(interval := n)))
      case None => Err(BadValue(key, value))
    else if key == "BYDAY" then Ok(r.(rule := rule.(byDay := rule.byDay + ReadDays(Split(value, ',')))))
    else if key == "BYMONTHDAY" then
      match ReadI32s(Split(value, ','))
      case Ok(days) => Ok(r.(rule := rule.(byMonthDay := rule.byMonthDay + days)))
      case Err(token) => Err(BadValue(key, token))
    else if key == "BYMONTH" then
      match ReadU32s(Split(value, ','))
      case Ok(months) => Ok(r.(rule := rule.(byMonth := rule.byMonth + months)))
      case Err(token) => Err(BadValue(key, token))
    else if key == "BYSETPOS" then
      match ReadI32s(Split(value, ','))
      case Ok(positions) => Ok(r.(rule := rule.(bySetPos := rule.bySetPos + positions)))
      case Err(token) => Err(BadValue(key, token))
    else if key == "COUNT" then
      match ReadU32(value)
      case Some(n) => Ok(r.(rule := rule.(count := Some(n))))
      case None => Err(BadValue(key, value))
    else if key == "UNTIL" then
      match ReadUntil(clock, value)
      case Some(until) => Ok(r.(rule := rule.(until := Some(until))))
      case None => Err(BadValue(key, value))
    else if key == "WKST" then Ok(r.(rule := rule.(wkst := Some(ReadWeekday(value)))))
    else Err(UnknownPart(key))
  }

  function ReadPart(clock: Clock, r: Reading, part: string): Result<Reading, Error> {
    match SplitOnce(part, '=')
    case None => Err(UnknownPart(part))
    case Some((key, value)) => ReadValue(clock, r, key, value)
  }

  function ReadParts(clock: Clock, r: Reading, parts: seq<string>): Result<Reading, Error>
    decreases |parts|
  {
    if parts == [] then Ok(r)
    else match ReadPart(clock, r, parts[0])
      case Ok(next) => ReadParts(clock, next, parts[1..])
      case Err(error) => Err(error)
  }

  function Done(r: Reading): Result<Rule, Error> {
    match r.freq
    case Some(freq) => Ok(r.rule.(freq := freq))
    case None => Err(MissingFreq)
  }

  function Parts(body: string): seq<string> {
    Filter(Split(body, ';'), (part: string) => part != "")
  }

  function Parse(clock: Clock, body: string): Result<Rule, Error> {
    match ReadParts(clock, Reading(None, Blank), Parts(body))
    case Ok(r) => Done(r)
    case Err(error) => Err(error)
  }

  /** The parser's loop. */
  method ComputeParse(clock: Clock, body: string) returns (result: Result<Rule, Error>)
    ensures result == Parse(clock, body)
  {
    var parts := Parts(body);
    var r := Reading(None, Blank);
    for i := 0 to |parts|
      invariant ReadParts(clock, r, parts[i..]) == ReadParts(clock, Reading(None, Blank), parts)
    {
      assert parts[i..][0] == parts[i] && parts[i..][1..] == parts[i + 1..];
      var next := ReadPart(clock, r, parts[i]);
      if next.Err? {
        return Err(next.error);
      }
      r := next.value;
    }
    return Done(r);
  }

  // ---- Rendering ----

  function Field(key: string, value: string): string {
    key + (['='] + value)
  }

  function DayTexts(days: seq<Weekday>): (texts: seq<string>)
    ensures |texts| == |days|
  {
    if days == [] then [] else [days[0].Text()] + DayTexts(days[1..])
  }

  function IntTexts(numbers: seq<int>): (texts: seq<string>)
    ensures |texts| == |numbers|
  {
    if numbers == [] then [] else [IntText(numbers[0])] + IntTexts(numbers[1..])
  }

  function ListField(key: string, texts: seq<string>): seq<string> {
    if texts == [] then [] else [Field(key, Join(texts, ','))]
  }

  /** The `n`th part of the canonical text, where there is one. */
  function Segment(clock: Clock, rule: Rule, n: nat): seq<string> {
    match n
    case 0 => [Field("FREQ", rule.freq.Text())]
    case 1 => if rule.interval != 1 then [Field("INTERVAL", NatText(rule.interval))] else []
    case 2 => ListField("BYDAY", DayTexts(rule.byDay))
    case 3 => ListField("BYMONTHDAY", IntTexts(rule.byMonthDay))
    case 4 => ListField("BYMONTH", IntTexts(rule.byMonth))
    case 5 => ListField("BYSETPOS", IntTexts(rule.bySetPos))
    case 6 => if rule.count.Some? then [Field("COUNT", NatText(rule.count.value))] else []
    case 7 =>
      var text := if rule.until.Some? then UntilText(clock, rule.until.value) else None;
      if text.Some? then [Field("UNTIL", text.value)] else []
    case 8 => if rule.wkst.Some? then [Field("WKST", rule.wkst.value.Text())] else []
    case _ => []
  }

  function SegmentsFrom(clock: Clock, rule: Rule, n: nat): seq<string>
    decreases 9 - n
  {
    if n >= 9 then [] else Segment(clock, rule, n) + SegmentsFrom(clock, rule, n + 1)
  }

  function Render(clock: Clock, rule: Rule): string {
    Join(SegmentsFrom(clock, rule, 0), ';')
  }

  // ---- Which rules have a text ----

  predicate AllI32(numbers: seq<int>) {
    forall i | 0 <= i < |numbers| :: -MAX_I32 - 1 <= numbers[i] <= MAX_I32
  }

  predicate AllU32(numbers: seq<nat>) {
    forall i | 0 <= i < |numbers| :: numbers[i] <= MAX_U32
  }

  /** What the Rust types already say: widths, and no known value kept as an unknown one. */
  ghost predicate Typed(rule: Rule) {
    && ReadFrequency(rule.freq.Text()) == rule.freq
    && rule.interval <= MAX_U32
    && (forall d | d in rule.byDay :: ReadWeekday(d.Text()) == d)
    && AllI32(rule.byMonthDay) && AllU32(rule.byMonth) && AllI32(rule.bySetPos)
    && (rule.count.Some? ==> rule.count.value <= MAX_U32)
    && (rule.wkst.Some? ==> ReadWeekday(rule.wkst.value.Text()) == rule.wkst.value)
  }

  /** An `UNTIL` of a kind this build knows, in a zone whose name holds no `;`. */
  predicate UntilIsSayable(until: Until) {
    !until.OtherKind? && (until.Zoned? ==> Without(until.zone, ';'))
  }

  /** No separator inside a value, and nothing the text has no word for. */
  ghost predicate Sayable(rule: Rule) {
    && Without(rule.freq.Text(), ';')
    && rule.interval != 0 && rule.unknown == map[]
    && (forall d | d in rule.byDay :: Without(d.Text(), ';') && Without(d.Text(), ','))
    && (rule.until.Some? ==> UntilIsSayable(rule.until.value))
    && (rule.wkst.Some? ==> Without(rule.wkst.value.Text(), ';'))
  }

  /** The library reads what it writes; a date-time's text has a `T` in it and a
      date's has none; and only an instant's text says an offset, without which
      none is read, whatever brackets follow. */
  ghost predicate Lawful(clock: Clock) {
    && (forall i :: clock.readInstant(clock.writeInstant(i)) == Some(i) && Without(clock.writeInstant(i), ';'))
    && (forall c :: clock.readDateTime(clock.writeDateTime(c)) == Some(c) && clock.readInstant(clock.writeDateTime(c)) == None)
    && (forall c :: Without(clock.writeDateTime(c), ';') && Without(clock.writeDateTime(c), '[') && !Without(clock.writeDateTime(c), 'T'))
    && (forall c, zone :: clock.readInstant(Bracketed(clock.writeDateTime(c), zone)) == None)
    && (forall d :: clock.readDate(clock.writeDate(d)) == Some(d) && clock.readInstant(clock.writeDate(d)) == None)
    && (forall d :: Without(clock.writeDate(d), ';') && Without(clock.writeDate(d), '[') && Without(clock.writeDate(d), 'T'))
  }

  function After(c: char, s: string): Option<int> {
    if s != "" && s[0] == c then Some(IntValue(s[1..])) else None
  }

  /** A library that keeps to this: a letter for the kind, and a number. */
  const Plain: Clock := Clock(
    (s: string) => After('Z', s), (i: int) => ['Z'] + IntText(i),
    (s: string) => After('T', s), (i: int) => ['T'] + IntText(i),
    (s: string) => After('D', s), (i: int) => ['D'] + IntText(i))

  lemma {:induction false} AfterReads(c: char, n: int)
    ensures After(c, [c] + IntText(n)) == Some(n)
  {
    IntTextReads(n);
    assert ([c] + IntText(n))[1..] == IntText(n);
  }

  lemma AfterAnother(c: char, d: char, s: string)
    requires c != d
    ensures After(c, [d] + s) == None
  {}

  lemma TaggedWithout(c: char, n: int, d: char)
    requires c != d && !IsDigit(d) && d != '-'
    ensures Without([c] + IntText(n), d)
  {
    IntTextWithout(n, d);
  }

  lemma PlainInstants(n: int)
    ensures Plain.readInstant(Plain.writeInstant(n)) == Some(n) && Without(Plain.writeInstant(n), ';')
  {
    AfterReads('Z', n);
    TaggedWithout('Z', n, ';');
  }

  lemma PlainDateTimes(n: int, zone: string)
    ensures Plain.readDateTime(Plain.writeDateTime(n)) == Some(n) && Plain.readInstant(Plain.writeDateTime(n)) == None
    ensures Without(Plain.writeDateTime(n), ';') && Without(Plain.writeDateTime(n), '[') && !Without(Plain.writeDateTime(n), 'T')
    ensures Plain.readInstant(Bracketed(Plain.writeDateTime(n), zone)) == None
  {
    AfterReads('T', n);
    AfterAnother('Z', 'T', IntText(n));
    TaggedWithout('T', n, ';');
    TaggedWithout('T', n, '[');
    assert Plain.writeDateTime(n)[0] == 'T';
    assert Bracketed(Plain.writeDateTime(n), zone)[0] == 'T';
  }

  lemma PlainDates(n: int)
    ensures Plain.readDate(Plain.writeDate(n)) == Some(n) && Plain.readInstant(Plain.writeDate(n)) == None
    ensures Without(Plain.writeDate(n), ';') && Without(Plain.writeDate(n), '[') && Without(Plain.writeDate(n), 'T')
  {
    AfterReads('D', n);
    AfterAnother('Z', 'D', IntText(n));
    TaggedWithout('D', n, ';');
    TaggedWithout('D', n, '[');
    TaggedWithout('D', n, 'T');
  }

  lemma {:induction false} APlainClockIsLawful()
    ensures Lawful(Plain)
  {
    forall n
      ensures Plain.readInstant(Plain.writeInstant(n)) == Some(n) && Without(Plain.writeInstant(n), ';')
    {
      PlainInstants(n);
    }
    forall n
      ensures Plain.readDateTime(Plain.writeDateTime(n)) == Some(n) && Plain.readInstant(Plain.writeDateTime(n)) == None
      ensures Without(Plain.writeDateTime(n), ';') && Without(Plain.writeDateTime(n), '[') && !Without(Plain.writeDateTime(n), 'T')
    {
      PlainDateTimes(n, "");
    }
    forall n, zone
      ensures Plain.readInstant(Bracketed(Plain.writeDateTime(n), zone)) == None
    {
      PlainDateTimes(n, zone);
    }
    forall n
      ensures Plain.readDate(Plain.writeDate(n)) == Some(n) && Plain.readInstant(Plain.writeDate(n)) == None
      ensures Without(Plain.writeDate(n), ';') && Without(Plain.writeDate(n), '[') && Without(Plain.writeDate(n), 'T')
    {
      PlainDates(n);
    }
  }

  lemma {:induction false} SplitOnceNone(s: string, c: char)
    requires Without(s, c)
    ensures SplitOnce(s, c) == None
  {
    if s != "" {
      SplitOnceNone(s[1..], c);
    }
  }

  /** Every `UNTIL` the text can say is read back from it, as the kind it was. */
  lemma {:induction false} UntilIsReadBack(clock: Clock, until: Until)
    requires Lawful(clock) && !until.OtherKind?
    ensures ReadUntil(clock, UntilText(clock, until).value) == Some(until)
    ensures Without(UntilText(clock, until).value, ';') <==> UntilIsSayable(until)
  {
    match until
    case Instant(_) =>
    case Zoned(civil, zone) =>
      var text := clock.writeDateTime(civil);
      var rest := zone + "]";
      SplitOnceAt(text, '[', rest);
      assert rest[..|rest| - 1] == zone && rest[|rest| - 1] == ']';
      BracketedWithoutIff(text, zone);
    case Floating(civil) => SplitOnceNone(clock.writeDateTime(civil), '[');
    case AllDay(date) => SplitOnceNone(clock.writeDate(date), '[');
  }

  lemma BracketedWithoutIff(civil: string, zone: string)
    requires Without(civil, ';')
    ensures Without(Bracketed(civil, zone), ';') <==> Without(zone, ';')
  {
    var s := Bracketed(civil, zone);
    assert forall i | 0 <= i < |zone| :: s[|civil| + 1 + i] == zone[i];
  }

  /** And every one that is read can be said. */
  lemma {:induction false} ReadUntilIsSayable(clock: Clock, text: string)
    requires Without(text, ';') && ReadUntil(clock, text).Some?
    ensures UntilIsSayable(ReadUntil(clock, text).value)
  {
    if SplitOnce(text, '[').Some? {
      SplitOnceParts(text, '[', ';');
    }
  }

  // ---- Reading back ----

  /** The first `n` fields as the rule has them, the rest still blank. */
  function Upto(rule: Rule, n: nat): Reading {
    Reading(
      if n > 0 then Some(rule.freq) else None,
      Rule(
        Daily,
        if n > 1 then rule.interval else 1,
        if n > 2 then rule.byDay else [],
        if n > 3 then rule.byMonthDay else [],
        if n > 4 then rule.byMonth else [],
        if n > 5 then rule.bySetPos else [],
        if n > 6 then rule.count else None,
        if n > 7 then rule.until else None,
        if n > 8 then rule.wkst else None,
        map[]))
  }

  lemma {:induction false} DaysAreRead(days: seq<Weekday>)
    requires forall d | d in days :: ReadWeekday(d.Text()) == d
    ensures ReadDays(DayTexts(days)) == days
  {
    if days != [] {
      DaysAreRead(days[1..]);
      assert DayTexts(days)[1..] == DayTexts(days[1..]);
    }
  }

  lemma {:induction false} I32sAreRead(numbers: seq<int>)
    requires AllI32(numbers)
    ensures ReadI32s(IntTexts(numbers)) == Ok(numbers)
  {
    if numbers != [] {
      I32IsRead(numbers[0]);
      I32sAreRead(numbers[1..]);
      assert IntTexts(numbers)[1..] == IntTexts(numbers[1..]) && IntTexts(numbers)[0] == IntText(numbers[0]);
      assert [numbers[0]] + numbers[1..] == numbers;
    }
  }

  lemma {:induction false} U32sAreRead(numbers: seq<nat>)
    requires AllU32(numbers)
    ensures ReadU32s(IntTexts(numbers)) == Ok(numbers)
  {
    if numbers != [] {
      U32IsRead(numbers[0]);
      U32sAreRead(numbers[1..]);
      assert IntTexts(numbers)[1..] == IntTexts(numbers[1..]) && IntTexts(numbers)[0] == IntText(numbers[0]);
      assert [numbers[0]] + numbers[1..] == numbers;
    }
  }

  lemma {:induction false} IntTextsWithout(numbers: seq<int>, c: char)
    requires !IsDigit(c) && c != '-'
    ensures AllWithout(IntTexts(numbers), c)
  {
    if numbers != [] {
      IntTextWithout(numbers[0], c);
      IntTextsWithout(numbers[1..], c);
    }
  }

  lemma {:induction false} DayTextsWithout(days: seq<Weekday>, c: char)
    requires forall d | d in days :: Without(d.Text(), c)
    ensures AllWithout(DayTexts(days), c)
  {
    if days != [] {
      DayTextsWithout(days[1..], c);
    }
  }

  lemma FieldIsRead(clock: Clock, r: Reading, key: string, value: string)
    requires Without(key, '=')
    ensures ReadParts(clock, r, [Field(key, value)]) == ReadValue(clock, r, key, value)
  {
    SplitOnceAt(key, '=', value);
    assert [Field(key, value)][1..] == [];
  }

  lemma {:induction false} ListIsRead(key: string, texts: seq<string>)
    requires texts != [] && AllWithout(texts, ',')
    ensures ListField(key, texts) == [Field(key, Join(texts, ','))]
    ensures Split(Join(texts, ','), ',') == texts
  {
    SplitJoin(texts, ',');
  }

  lemma {:induction false} NumbersAreRead(clock: Clock, rule: Rule, n: nat)
    requires Typed(rule) && 3 <= n <= 5
    ensures ReadParts(clock, Upto(rule, n), Segment(clock, rule, n)) == Ok(Upto(rule, n + 1))
  {
    match n
    case 3 => SignedAreRead(clock, rule, 3, "BYMONTHDAY", rule.byMonthDay);
    case 4 => MonthsAreRead(clock, rule);
    case _ => SignedAreRead(clock, rule, 5, "BYSETPOS", rule.bySetPos);
  }

  lemma {:induction false} SignedAreRead(clock: Clock, rule: Rule, n: nat, key: string, numbers: seq<int>)
    requires Typed(rule) && AllI32(numbers)
    requires (n == 3 && key == "BYMONTHDAY" && numbers == rule.byMonthDay) || (n == 5 && key == "BYSETPOS" && numbers == rule.bySetPos)
    ensures ReadParts(clock, Upto(rule, n), Segment(clock, rule, n)) == Ok(Upto(rule, n + 1))
  {
    if numbers != [] {
      IntTextsWithout(numbers, ',');
      ListIsRead(key, IntTexts(numbers));
      FieldIsRead(clock, Upto(rule, n), key, Join(IntTexts(numbers), ','));
      I32sAreRead(numbers);
      assert [] + numbers == numbers;
    }
  }

  lemma {:induction false} MonthsAreRead(clock: Clock, rule: Rule)
    requires Typed(rule)
    ensures ReadParts(clock, Upto(rule, 4), Segment(clock, rule, 4)) == Ok(Upto(rule, 5))
  {
    if rule.byMonth != [] {
      IntTextsWithout(rule.byMonth, ',');
      ListIsRead("BYMONTH", IntTexts(rule.byMonth));
      FieldIsRead(clock, Upto(rule, 4), "BYMONTH", Join(IntTexts(rule.byMonth), ','));
      U32sAreRead(rule.byMonth);
      assert [] + rule.byMonth == rule.byMonth;
    }
  }

  lemma {:induction false} DayFieldIsRead(clock: Clock, rule: Rule)
    requires Typed(rule) && Sayable(rule)
    ensures ReadParts(clock, Upto(rule, 2), Segment(clock, rule, 2)) == Ok(Upto(rule, 3))
  {
    if rule.byDay != [] {
      DayTextsWithout(rule.byDay, ',');
      ListIsRead("BYDAY", DayTexts(rule.byDay));
      FieldIsRead(clock, Upto(rule, 2), "BYDAY", Join(DayTexts(rule.byDay), ','));
      DaysAreRead(rule.byDay);
      assert [] + rule.byDay == rule.byDay;
    }
  }

  lemma {:induction false} SegmentIsRead(clock: Clock, rule: Rule, n: nat)
    requires Lawful(clock) && Typed(rule) && Sayable(rule) && n < 9
    ensures ReadParts(clock, Upto(rule, n), Segment(clock, rule, n)) == Ok(Upto(rule, n + 1))
  {
    match n
    case 0 => FieldIsRead(clock, Upto(rule, 0), "FREQ", rule.freq.Text());
    case 1 =>
      if rule.interval != 1 {
        FieldIsRead(clock, Upto(rule, 1), "INTERVAL", NatText(rule.interval));
        U32IsRead(rule.interval);
      }
    case 2 => DayFieldIsRead(clock, rule);
    case 6 =>
      if rule.count.Some? {
        FieldIsRead(clock, Upto(rule, 6), "COUNT", NatText(rule.count.value));
        U32IsRead(rule.count.value);
      }
    case 7 =>
      if rule.until.Some? {
        UntilIsReadBack(clock, rule.until.value);
        FieldIsRead(clock, Upto(rule, 7), "UNTIL", UntilText(clock, rule.until.value).value);
      }
    case 8 =>
      if rule.wkst.Some? {
        FieldIsRead(clock, Upto(rule, 8), "WKST", rule.wkst.value.Text());
      }
    case _ => NumbersAreRead(clock, rule, n);
  }

  lemma {:induction false} ReadPartsAppend(clock: Clock, r: Reading, a: seq<string>, b: seq<string>, next: Reading)
    requires ReadParts(clock, r, a) == Ok(next)
    ensures ReadParts(clock, r, a + b) == ReadParts(clock, next, b)
    decreases |a|
  {
    if a == [] {
      assert a + b == b;
    } else {
      assert (a + b)[0] == a[0] && (a + b)[1..] == a[1..] + b;
      ReadPartsAppend(clock, ReadPart(clock, r, a[0]).value, a[1..], b, next);
    }
  }

  lemma {:induction false} SegmentsAreRead(clock: Clock, rule: Rule, n: nat)
    requires Lawful(clock) && Typed(rule) && Sayable(rule) && n <= 9
    ensures ReadParts(clock, Upto(rule, n), SegmentsFrom(clock, rule, n)) == Ok(Upto(rule, 9))
    decreases 9 - n
  {
    if n < 9 {
      SegmentIsRead(clock, rule, n);
      SegmentsAreRead(clock, rule, n + 1);
      ReadPartsAppend(clock, Upto(rule, n), Segment(clock, rule, n), SegmentsFrom(clock, rule, n + 1), Upto(rule, n + 1));
    }
  }

  /** Parts that can be joined by `;` and split again: none empty, none holding one. */
  ghost predicate Whole(parts: seq<string>) {
    AllWithout(parts, ';') && forall i | 0 <= i < |parts| :: parts[i] != ""
  }

  lemma FieldIsWhole(key: string, value: string)
    requires Without(key, ';') && Without(value, ';')
    ensures Whole([Field(key, value)])
  {}

  lemma {:induction false} SegmentIsWhole(clock: Clock, rule: Rule, n: nat)
    requires Lawful(clock) && Sayable(rule)
    ensures Whole(Segment(clock, rule, n))
  {
    match n
    case 0 => FieldIsWhole("FREQ", rule.freq.Text());
    case 1 => FieldIsWhole("INTERVAL", NatText(rule.interval));
    case 2 =>
      DayTextsWithout(rule.byDay, ';');
      JoinWithout(DayTexts(rule.byDay), ',', ';');
    case 3 =>
      IntTextsWithout(rule.byMonthDay, ';');
      JoinWithout(IntTexts(rule.byMonthDay), ',', ';');
    case 4 =>
      IntTextsWithout(rule.byMonth, ';');
      JoinWithout(IntTexts(rule.byMonth), ',', ';');
    case 5 =>
      IntTextsWithout(rule.bySetPos, ';');
      JoinWithout(IntTexts(rule.bySetPos), ',', ';');
    case 7 =>
      if rule.until.Some? {
        UntilIsReadBack(clock, rule.until.value);
        FieldIsWhole("UNTIL", UntilText(clock, rule.until.value).value);
      }
    case _ =>
  }

  lemma {:induction false} SegmentsAreWhole(clock: Clock, rule: Rule, n: nat)
    requires Lawful(clock) && Sayable(rule)
    ensures Whole(SegmentsFrom(clock, rule, n))
    decreases 9 - n
  {
    if n < 9 {
      SegmentIsWhole(clock, rule, n);
      SegmentsAreWhole(clock, rule, n + 1);
    }
  }

  /** A rule with a text is read back from it exactly. */
  lemma {:induction false} SayableIsReadBack(clock: Clock, rule: Rule)
    requires Lawful(clock) && Typed(rule) && Sayable(rule)
    ensures Parse(clock, Render(clock, rule)) == Ok(rule)
  {
    var parts := SegmentsFrom(clock, rule, 0);
    SegmentsAreWhole(clock, rule, 0);
    SplitJoin(parts, ';');
    FilterAll(parts, (part: string) => part != "");
    SegmentsAreRead(clock, rule, 0);
    assert Upto(rule, 0) == Reading(None, Blank);
  }

  // ---- What the parser admits ----

  ghost predicate Admitted(r: Reading) {
    && Typed(r.rule) && Sayable(r.rule)
    && (r.freq.Some? ==> Without(r.freq.value.Text(), ';') && ReadFrequency(r.freq.value.Text()) == r.freq.value)
  }

  lemma FrequencyIsKept(raw: string)
    ensures ReadFrequency(raw).Text() == raw
  {}

  lemma WeekdayIsKept(raw: string)
    ensures ReadWeekday(raw).Text() == raw
  {}

  lemma {:induction false} ReadDaysAreSayable(tokens: seq<string>)
    requires AllWithout(tokens, ';') && AllWithout(tokens, ',')
    ensures forall d | d in ReadDays(tokens) ::
              ReadWeekday(d.Text()) == d && Without(d.Text(), ';') && Without(d.Text(), ',')
  {
    if tokens != [] {
      WeekdayIsKept(tokens[0]);
      ReadDaysAreSayable(tokens[1..]);
    }
  }

  lemma {:induction false} ReadI32sAreTyped(tokens: seq<string>)
    requires ReadI32s(tokens).Ok?
    ensures AllI32(ReadI32s(tokens).value)
  {
    if tokens != [] {
      ReadI32sAreTyped(tokens[1..]);
    }
  }

  lemma {:induction false} ReadU32sAreTyped(tokens: seq<string>)
    requires ReadU32s(tokens).Ok?
    ensures AllU32(ReadU32s(tokens).value)
  {
    if tokens != [] {
      ReadU32sAreTyped(tokens[1..]);
    }
  }

  lemma {:induction false} ValueIsAdmitted(clock: Clock, r: Reading, key: string, value: string)
    requires Admitted(r) && Without(value, ';') && ReadValue(clock, r, key, value).Ok?
    ensures Admitted(ReadValue(clock, r, key, value).value)
  {
    FrequencyIsKept(value);
    WeekdayIsKept(value);
    var tokens := Split(value, ',');
    SplitParts(value, ',', ',');
    SplitParts(value, ',', ';');
    if key == "BYDAY" {
      ReadDaysAreSayable(tokens);
    } else if key == "BYMONTHDAY" || key == "BYSETPOS" {
      ReadI32sAreTyped(tokens);
    } else if key == "BYMONTH" {
      ReadU32sAreTyped(tokens);
    } else if key == "UNTIL" {
      ReadUntilIsSayable(clock, value);
    }
  }

  lemma {:induction false} PartsAreAdmitted(clock: Clock, r: Reading, parts: seq<string>)
    requires Admitted(r) && AllWithout(parts, ';') && ReadParts(clock, r, parts).Ok?
    ensures Admitted(ReadParts(clock, r, parts).value)
    decreases |parts|
  {
    if parts != [] {
      var split := SplitOnce(parts[0], '=');
      SplitOnceParts(parts[0], '=', ';');
      ValueIsAdmitted(clock, r, split.value.0, split.value.1);
      PartsAreAdmitted(clock, ReadPart(clock, r, parts[0]).value, parts[1..]);
    }
  }

  /** Whatever text the parser admits, out-of-range days, a count of nought and
      all, the rule it gives has a text. */
  lemma {:induction false} ParsedIsSayable(clock: Clock, body: string)
    requires Parse(clock, body).Ok?
    ensures Typed(Parse(clock, body).value) && Sayable(Parse(clock, body).value)
  {
    PartsHoldNoSeparator(body);
    PartsAreAdmitted(clock, Reading(None, Blank), Parts(body));
  }

  lemma {:induction false} PartsHoldNoSeparator(body: string)
    ensures AllWithout(Parts(body), ';')
  {
    SplitParts(body, ';', ';');
    var split, kept := Split(body, ';'), Parts(body);
    forall i | 0 <= i < |kept|
      ensures Without(kept[i], ';')
    {
      assert kept[i] in kept;
      var j :| 0 <= j < |split| && split[j] == kept[i];
    }
  }

  /** Parsing the rendered form of any parsed rule gives the same rule, and rendering it again the same text. */
  lemma {:induction false} RenderingRoundTrips(clock: Clock, body: string)
    requires Lawful(clock) && Parse(clock, body).Ok?
    ensures var rule := Parse(clock, body).value;
            && Parse(clock, Render(clock, rule)) == Ok(rule)
            && Render(clock, Parse(clock, Render(clock, rule)).value) == Render(clock, rule)
  {
    ParsedIsSayable(clock, body);
    SayableIsReadBack(clock, Parse(clock, body).value);
  }

  /** A rule from anywhere else survives its text exactly when no frequency, day
      or week start holds a `;`, no day of `BYDAY` a `,`, its interval is not
      nought, its `UNTIL` is of a kind this build knows, in a zone without a `;`,
      and it carries no field this build does not know. */
  lemma {:induction false} ReadBackIff(clock: Clock, rule: Rule)
    requires Lawful(clock) && Typed(rule)
    ensures Parse(clock, Render(clock, rule)) == Ok(rule) <==> Sayable(rule)
  {
    if Sayable(rule) {
      SayableIsReadBack(clock, rule);
    }
    if Parse(clock, Render(clock, rule)) == Ok(rule) {
      ParsedIsSayable(clock, Render(clock, rule));
    }
  }
}
