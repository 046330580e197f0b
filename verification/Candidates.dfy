/** Which dates a period of a recurrence offers under its BY parts
    (crates/sunrise-domain/src/routine_gen.rs:97-334). Dates are day numbers, with
    day 0 a Monday; months are numbered through the years, twelve to a year. Where
    each month begins is a parameter. */
module Candidates {
  import opened Wrappers
  import opened RRule
  import E = Expansion

  const MIN_YEAR: int := -9999
  const MAX_YEAR: int := 9999

  /** The longest spans the calendar library can express. */
  const MAX_DAYS: int := 7304484
  const MAX_WEEKS: int := 1043497
  const MAX_MONTHS: int := 120000

  /** `first(m)` is the first day of month `m`, and `monthOf(d)` the month of day `d`. */
  datatype Almanac = Almanac(first: int -> int, monthOf: int -> int)

  /** Months follow one another, and every day is in its own. */
  ghost predicate Lawful(cal: Almanac) {
    && (forall m :: 28 <= cal.first(m + 1) - cal.first(m) <= 31)
    && (forall d :: InMonth(cal, cal.monthOf(d), d))
  }

  predicate InMonth(cal: Almanac, m: int, d: int) {
    cal.first(m) <= d < cal.first(m + 1)
  }

  predicate MonthExists(m: int) {
    12 * MIN_YEAR <= m < 12 * (MAX_YEAR + 1)
  }

  predicate Exists(cal: Almanac, d: int) {
    MonthExists(cal.monthOf(d))
  }

  lemma {:induction false} MonthsAscend(cal: Almanac, a: int, b: int)
    requires Lawful(cal) && a <= b
    ensures cal.first(a) + 28 * (b - a) <= cal.first(b)
    decreases b - a
  {
    if a < b {
      MonthsAscend(cal, a, b - 1);
      assert cal.first(b - 1 + 1) - cal.first(b - 1) >= 28;
    }
  }

  /** A day is in one month only. */
  lemma {:induction false} OneMonth(cal: Almanac, m: int, d: int)
    requires Lawful(cal) && InMonth(cal, m, d)
    ensures cal.monthOf(d) == m
  {
    if cal.monthOf(d) < m {
      MonthsAscend(cal, cal.monthOf(d) + 1, m);
    } else if cal.monthOf(d) > m {
      MonthsAscend(cal, m + 1, cal.monthOf(d));
    }
  }

  // ---- The filters ----

  function WeekdayIndex(w: Weekday): Option<nat> {
    match w
    case Mo => Some(0)
    case Tu => Some(1)
    case We => Some(2)
    case Th => Some(3)
    case Fr => Some(4)
    case Sa => Some(5)
    case Su => Some(6)
    case OtherDay(_) => None
  }

  function DayOfMonth(cal: Almanac, d: int): int {
    d - cal.first(cal.monthOf(d)) + 1
  }

  function DaysInMonth(cal: Almanac, m: int): int {
    cal.first(m + 1) - cal.first(m)
  }

  predicate MatchesByMonth(cal: Almanac, rule: Rule, d: int) {
    rule.byMonth == [] || exists k :: 0 <= k < |rule.byMonth| && rule.byMonth[k] == cal.monthOf(d) % 12 + 1
  }

  predicate MatchesByDay(rule: Rule, d: int) {
    rule.byDay == [] || exists k :: 0 <= k < |rule.byDay| && WeekdayIndex(rule.byDay[k]) == Some(d % 7)
  }

  predicate IsMonthDay(cal: Almanac, d: int, v: int) {
    var day := DayOfMonth(cal, d);
    if v > 0 then day == v else v < 0 && day == DaysInMonth(cal, cal.monthOf(d)) + 1 + v
  }

  predicate MatchesByMonthDay(cal: Almanac, rule: Rule, d: int) {
    rule.byMonthDay == [] || exists k :: 0 <= k < |rule.byMonthDay| && IsMonthDay(cal, d, rule.byMonthDay[k])
  }

  predicate Matches(cal: Almanac, rule: Rule, d: int) {
    MatchesByMonth(cal, rule, d) && MatchesByDay(rule, d) && MatchesByMonthDay(cal, rule, d)
  }

  // ---- The periods ----

  function Interval(rule: Rule): nat {
    Max(1, rule.interval)
  }

  function WeekStart(cal: Almanac, d: int, wkst: nat): int {
    var back := (d % 7 - wkst) % 7;
    if Exists(cal, d - back) then d - back else d
  }

  /** Monday where the rule does not say. */
  function StartOfWeek(rule: Rule): nat {
    if rule.wkst.Some? && WeekdayIndex(rule.wkst.value).Some? then WeekdayIndex(rule.wkst.value).value else 0
  }

  function Later(cal: Almanac, d: int, days: int, expressible: bool): Option<int> {
    if expressible && Exists(cal, d + days) then Some(d + days) else None
  }

  /** The month a monthly period is about. */
  function PeriodMonth(cal: Almanac, rule: Rule, anchor: int, p: nat): int {
    cal.monthOf(anchor) + p * Interval(rule)
  }

  function PeriodYear(cal: Almanac, rule: Rule, anchor: int, p: nat): int {
    cal.monthOf(anchor) / 12 + p * Interval(rule)
  }

  /** The first day of period `p`, if there is one that can be expressed. */
  function PeriodStart(cal: Almanac, rule: Rule, anchor: int, p: nat): Option<int> {
    var n := p * Interval(rule);
    match rule.freq
    case Daily => Later(cal, anchor, n, n <= MAX_DAYS)
    case Weekly => Later(cal, WeekStart(cal, anchor, StartOfWeek(rule)), 7 * n, n <= MAX_WEEKS)
    case Monthly =>
      var m := PeriodMonth(cal, rule, anchor, p);
      if n <= MAX_MONTHS && MonthExists(m) then Some(cal.first(m)) else None
    case Yearly =>
      var y := PeriodYear(cal, rule, anchor, p);
      if MIN_YEAR <= y <= MAX_YEAR then Some(cal.first(12 * y)) else None
    case OtherFrequency(_) => None
  }

  /** A day of month `m`: under BYMONTHDAY and BYDAY where there are any, else on
      the anchor's day of the month, which a short month does not have. */
  predicate IsInMonthly(cal: Almanac, rule: Rule, anchor: int, m: int, d: int) {
    && InMonth(cal, m, d)
    && (if rule.byMonthDay == [] && rule.byDay == [] then DayOfMonth(cal, d) == DayOfMonth(cal, anchor)
        else MatchesByMonthDay(cal, rule, d) && MatchesByDay(rule, d))
    && MatchesByMonth(cal, rule, d)
  }

  /** A month of the year: those of BYMONTH that there are, else the anchor's. */
  predicate IsYearlyMonth(cal: Almanac, rule: Rule, anchor: int, month: int) {
    1 <= month <= 12 && if rule.byMonth == [] then month == cal.monthOf(anchor) % 12 + 1 else month in rule.byMonth
  }

  predicate IsInYear(cal: Almanac, rule: Rule, anchor: int, y: int, d: int) {
    var m := cal.monthOf(d);
    m / 12 == y && IsYearlyMonth(cal, rule, anchor, m % 12 + 1) && IsInMonthly(cal, rule, anchor, m, d)
  }

  predicate IsInWeek(cal: Almanac, rule: Rule, anchor: int, start: int, d: int) {
    start <= d < start + 7 && Exists(cal, d) && (rule.byDay == [] ==> d % 7 == anchor % 7) && Matches(cal, rule, d)
  }

  /** What the scan offers in period `p`. Section 3.3.10 of RFC 5545 is `IsAskedFor`, below. */
  predicate IsCandidate(cal: Almanac, rule: Rule, anchor: int, p: nat, d: int) {
    var start := PeriodStart(cal, rule, anchor, p);
    && start.Some?
    && match rule.freq
       case Daily => d == start.value && Matches(cal, rule, d)
       case Weekly => IsInWeek(cal, rule, anchor, start.value, d)
       case Monthly => IsInMonthly(cal, rule, anchor, PeriodMonth(cal, rule, anchor, p), d)
       case Yearly => IsInYear(cal, rule, anchor, PeriodYear(cal, rule, anchor, p), d)
       case OtherFrequency(_) => false
  }

  // ---- The loops that find them ----

  method MonthCandidates(cal: Almanac, rule: Rule, anchor: int, m: int) returns (out: seq<int>)
    requires Lawful(cal)
    ensures forall d :: d in out <==> IsInMonthly(cal, rule, anchor, m, d)
  {
    out := [];
    var dim := DaysInMonth(cal, m);
    if rule.byMonthDay == [] && rule.byDay == [] {
      var day := DayOfMonth(cal, anchor);
      var d := cal.first(m) + day - 1;
      if day <= dim {
        OneMonth(cal, m, d);
        if MatchesByMonth(cal, rule, d) {
          out := [d];
        }
      }
      forall x | IsInMonthly(cal, rule, anchor, m, x)
        ensures x == d && day <= dim
      {
        OneMonth(cal, m, x);
      }
      return;
    }
    for day := 0 to dim
      invariant forall d :: d in out <==> IsInMonthly(cal, rule, anchor, m, d) && d < cal.first(m) + day
    {
      var d := cal.first(m) + day;
      if MatchesByMonthDay(cal, rule, d) && MatchesByDay(rule, d) && MatchesByMonth(cal, rule, d) {
        out := out + [d];
      }
    }
  }

  method WeekCandidates(cal: Almanac, rule: Rule, anchor: int, start: int) returns (out: seq<int>)
    ensures forall d :: d in out <==> IsInWeek(cal, rule, anchor, start, d)
  {
    out := [];
    for i := 0 to 7
      invariant forall d :: d in out <==> IsInWeek(cal, rule, anchor, start, d) && d < start + i
    {
      var d := start + i;
      if Exists(cal, d) {
        var dayOk := if rule.byDay == [] then d % 7 == anchor % 7 else MatchesByDay(rule, d);
        if dayOk && MatchesByMonth(cal, rule, d) && MatchesByMonthDay(cal, rule, d) {
          out := out + [d];
        }
      }
    }
  }

  method YearCandidates(cal: Almanac, rule: Rule, anchor: int, y: int) returns (out: seq<int>)
    requires Lawful(cal)
    ensures forall d :: d in out <==> IsInYear(cal, rule, anchor, y, d)
  {
    out := [];
    var months := MonthsOf(cal, rule, anchor);
    for k := 0 to |months|
      invariant forall d :: d in out <==> InOneOf(cal, rule, anchor, y, months[..k], d)
    {
      assert months[..k + 1] == months[..k] + [months[k]];
      out := AddMonth(cal, rule, anchor, y, months[..k], months[k], out);
    }
    assert months[..|months|] == months;
    AYearIsItsMonths(cal, rule, anchor, y);
  }

  function MonthsOf(cal: Almanac, rule: Rule, anchor: int): seq<int> {
    if rule.byMonth == [] then [cal.monthOf(anchor) % 12 + 1] else rule.byMonth
  }

  lemma AYearIsItsMonths(cal: Almanac, rule: Rule, anchor: int, y: int)
    ensures forall d :: InOneOf(cal, rule, anchor, y, MonthsOf(cal, rule, anchor), d) <==> IsInYear(cal, rule, anchor, y, d)
  {
    forall month | 1 <= month <= 12
      ensures month in MonthsOf(cal, rule, anchor) <==> IsYearlyMonth(cal, rule, anchor, month)
    {}
  }

  method AddMonth(cal: Almanac, rule: Rule, anchor: int, y: int, ghost months: seq<int>, month: int, before: seq<int>)
    returns (out: seq<int>)
    requires Lawful(cal) && forall d :: d in before <==> InOneOf(cal, rule, anchor, y, months, d)
    ensures forall d :: d in out <==> InOneOf(cal, rule, anchor, y, months + [month], d)
  {
    if 1 <= month <= 12 {
      var inMonth := MonthCandidates(cal, rule, anchor, 12 * y + month - 1);
      OneMoreMonth(cal, rule, anchor, y, months, month);
      out := before + inMonth;
    } else {
      NoSuchMonth(cal, rule, anchor, y, months, month);
      out := before;
    }
  }

  /** A day of one of these months of the year. */
  predicate InOneOf(cal: Almanac, rule: Rule, anchor: int, y: int, months: seq<int>, d: int) {
    var m := cal.monthOf(d);
    m / 12 == y && m % 12 + 1 in months && IsInMonthly(cal, rule, anchor, m, d)
  }

  lemma {:induction false} OneMoreMonth(cal: Almanac, rule: Rule, anchor: int, y: int, months: seq<int>, month: int)
    requires Lawful(cal) && 1 <= month <= 12
    ensures forall d :: InOneOf(cal, rule, anchor, y, months + [month], d)
                   <==> InOneOf(cal, rule, anchor, y, months, d) || IsInMonthly(cal, rule, anchor, 12 * y + month - 1, d)
  {
    var m := 12 * y + month - 1;
    assert m / 12 == y && m % 12 + 1 == month;
    forall d
      ensures InOneOf(cal, rule, anchor, y, months + [month], d)
         <==> InOneOf(cal, rule, anchor, y, months, d) || IsInMonthly(cal, rule, anchor, m, d)
    {
      if InMonth(cal, m, d) {
        OneMonth(cal, m, d);
      }
      assert cal.monthOf(d) == 12 * (cal.monthOf(d) / 12) + cal.monthOf(d) % 12;
    }
  }

  lemma NoSuchMonth(cal: Almanac, rule: Rule, anchor: int, y: int, months: seq<int>, month: int)
    requires !(1 <= month <= 12)
    ensures forall d :: InOneOf(cal, rule, anchor, y, months + [month], d) <==> InOneOf(cal, rule, anchor, y, months, d)
  {}

  /** The candidates of one period, as the source gathers them: in no order, and perhaps repeated. */
  method PeriodCandidates(cal: Almanac, rule: Rule, anchor: int, p: nat) returns (out: seq<int>)
    requires Lawful(cal)
    ensures forall d :: d in out <==> IsCandidate(cal, rule, anchor, p, d)
  {
    var start := PeriodStart(cal, rule, anchor, p);
    if start.None? {
      return [];
    }
    match rule.freq {
      case Daily => out := if Matches(cal, rule, start.value) then [start.value] else [];
      case Weekly => out := WeekCandidates(cal, rule, anchor, start.value);
      case Monthly => out := MonthCandidates(cal, rule, anchor, PeriodMonth(cal, rule, anchor, p));
      case Yearly => out := YearCandidates(cal, rule, anchor, PeriodYear(cal, rule, anchor, p));
      case OtherFrequency(_) => out := [];
    }
  }

  // ---- In order, each once ----

  ghost predicate Ascending(dates: seq<int>) {
    forall i, j | 0 <= i < j < |dates| :: dates[i] < dates[j]
  }

  /** `sort_unstable` and `dedup`, one insertion at a time. */
  method SortedOnce(dates: seq<int>) returns (out: seq<int>)
    ensures Ascending(out) && forall d :: d in out <==> d in dates
  {
    out := [];
    for k := 0 to |dates|
      invariant Ascending(out) && forall d :: d in out <==> d in dates[..k]
    {
      assert dates[..k + 1] == dates[..k] + [dates[k]];
      var at := 0;
      while at < |out| && out[at] < dates[k]
        invariant at <= |out| && forall i | 0 <= i < at :: out[i] < dates[k]
      {
        at := at + 1;
      }
      if at == |out| || out[at] != dates[k] {
        out := out[..at] + [dates[k]] + out[at..];
      }
    }
    assert dates[..|dates|] == dates;
  }

  /** Those of the `n` days from `d` on that are asked for. */
  function Those(asked: int -> bool, d: int, n: nat): seq<int>
    decreases n
  {
    if n == 0 then [] else (if asked(d) then [d] else []) + Those(asked, d + 1, n - 1)
  }

  /** No period is longer than a year of months as long as they come. */
  const LONGEST: nat := 372

  function Dates(cal: Almanac, rule: Rule, anchor: int, p: nat): seq<int> {
    var start := PeriodStart(cal, rule, anchor, p);
    if start.None? then [] else Those((d: int) => IsCandidate(cal, rule, anchor, p, d), start.value, LONGEST)
  }

  lemma {:induction false} ThoseAreAsked(asked: int -> bool, d: int, n: nat)
    ensures Ascending(Those(asked, d, n))
    ensures forall x :: x in Those(asked, d, n) <==> d <= x < d + n && asked(x)
    decreases n
  {
    if n > 0 {
      ThoseAreAsked(asked, d + 1, n - 1);
      var rest := Those(asked, d + 1, n - 1);
      forall k | 0 <= k < |rest|
        ensures rest[k] > d
      {
        assert rest[k] in rest;
      }
    }
  }

  /** Every candidate is in its period, which is over before any later one starts. */
  lemma {:induction false} CandidatesAreInTheirPeriod(cal: Almanac, rule: Rule, anchor: int, p: nat, q: nat, d: int)
    requires Lawful(cal) && IsCandidate(cal, rule, anchor, p, d) && p < q
    ensures PeriodStart(cal, rule, anchor, p).value <= d < PeriodStart(cal, rule, anchor, p).value + LONGEST
    ensures PeriodStart(cal, rule, anchor, q).Some? ==> d < PeriodStart(cal, rule, anchor, q).value
  {
    var n := LaterPeriod(cal, rule, anchor, p, q);
    match rule.freq
    case Monthly => MonthlyStaysInItsPeriod(cal, PeriodMonth(cal, rule, anchor, p), n, d);
    case Yearly => YearlyStaysInItsPeriod(cal, PeriodYear(cal, rule, anchor, p), n, d);
    case Daily => ShortStaysInItsPeriod(cal, rule, anchor, p, q, n, d);
    case Weekly => ShortStaysInItsPeriod(cal, rule, anchor, p, q, n, d);
    case _ =>
  }

  lemma ShortStaysInItsPeriod(cal: Almanac, rule: Rule, anchor: int, p: nat, q: nat, n: nat, d: int)
    requires (rule.freq.Daily? || rule.freq.Weekly?) && IsCandidate(cal, rule, anchor, p, d)
    requires n >= 1 && q * Interval(rule) == p * Interval(rule) + n
    ensures PeriodStart(cal, rule, anchor, p).value <= d < PeriodStart(cal, rule, anchor, p).value + 7
    ensures PeriodStart(cal, rule, anchor, q).Some? ==> d < PeriodStart(cal, rule, anchor, q).value
  {
    ShortPeriods(cal, rule, anchor, p, q, n);
  }

  lemma LaterPeriod(cal: Almanac, rule: Rule, anchor: int, p: nat, q: nat) returns (n: nat)
    requires p < q
    ensures n >= 1 && q * Interval(rule) == p * Interval(rule) + n
    ensures PeriodMonth(cal, rule, anchor, q) == PeriodMonth(cal, rule, anchor, p) + n
    ensures PeriodYear(cal, rule, anchor, q) == PeriodYear(cal, rule, anchor, p) + n
  {
    n := (q - p) * Interval(rule);
    assert q * Interval(rule) == p * Interval(rule) + n;
  }

  lemma ShortPeriods(cal: Almanac, rule: Rule, anchor: int, p: nat, q: nat, n: nat)
    requires rule.freq.Daily? || rule.freq.Weekly?
    requires PeriodStart(cal, rule, anchor, p).Some? && q * Interval(rule) == p * Interval(rule) + n
    ensures PeriodStart(cal, rule, anchor, q).Some? ==>
              PeriodStart(cal, rule, anchor, q).value
              == PeriodStart(cal, rule, anchor, p).value + (if rule.freq.Daily? then 1 else 7) * n
  {}

  lemma MonthlyStaysInItsPeriod(cal: Almanac, m: int, i: nat, d: int)
    requires Lawful(cal) && InMonth(cal, m, d) && i >= 1
    ensures cal.first(m) <= d < cal.first(m) + LONGEST && d < cal.first(m + i)
  {
    MonthsAscend(cal, m + 1, m + i);
    YearIsShort(cal, m, 1);
  }

  lemma YearlyStaysInItsPeriod(cal: Almanac, y: int, i: nat, d: int)
    requires Lawful(cal) && cal.monthOf(d) / 12 == y && i >= 1
    ensures cal.first(12 * y) <= d < cal.first(12 * y) + LONGEST && d < cal.first(12 * (y + i))
  {
    var m := cal.monthOf(d);
    assert InMonth(cal, m, d) && 12 * y <= m < 12 * y + 12;
    MonthsAscend(cal, 12 * y, m);
    MonthsAscend(cal, m + 1, 12 * y + 12);
    MonthsAscend(cal, 12 * y + 12, 12 * (y + i));
    YearIsShort(cal, 12 * y, 12);
  }

  lemma {:induction false} YearIsShort(cal: Almanac, m: int, n: nat)
    requires Lawful(cal)
    ensures cal.first(m + n) <= cal.first(m) + 31 * n
    decreases n
  {
    if n > 0 {
      YearIsShort(cal, m, n - 1);
      assert cal.first(m + (n - 1) + 1) - cal.first(m + (n - 1)) <= 31;
    }
  }

  /** The dates of a period are exactly its candidates, in order and each once. */
  lemma {:induction false} DatesAreTheCandidates(cal: Almanac, rule: Rule, anchor: int, p: nat)
    requires Lawful(cal)
    ensures Ascending(Dates(cal, rule, anchor, p))
    ensures forall d :: d in Dates(cal, rule, anchor, p) <==> IsCandidate(cal, rule, anchor, p, d)
  {
    var start := PeriodStart(cal, rule, anchor, p);
    if start.Some? {
      ThoseAreAsked((d: int) => IsCandidate(cal, rule, anchor, p, d), start.value, LONGEST);
      forall d | IsCandidate(cal, rule, anchor, p, d)
        ensures start.value <= d < start.value + LONGEST
      {
        CandidatesAreInTheirPeriod(cal, rule, anchor, p, p + 1, d);
      }
    }
  }

  lemma HoldsNothing(s: seq<int>)
    ensures (forall d :: d !in s) ==> s == []
  {
    if s != [] {
      var d := s[0];
      assert d in s;
      assert exists d :: d in s;
    }
  }

  lemma {:induction false} AscendingIsUnique(a: seq<int>, b: seq<int>)
    requires Ascending(a) && Ascending(b) && forall d :: d in a <==> d in b
    ensures a == b
    decreases |a|
  {
    if a == [] {
      HoldsNothing(b);
    } else {
      assert a[0] in b && b != [] && b[0] in a;
      assert a[0] == b[0];
      forall d
        ensures d in a[1..] <==> d in b[1..]
      {
        assert d in a <==> d == a[0] || d in a[1..];
        assert d in b <==> d == b[0] || d in b[1..];
      }
      AscendingIsUnique(a[1..], b[1..]);
    }
  }

  /** One turn of the scan: gather, sort, drop repeats. */
  method ComputeDates(cal: Almanac, rule: Rule, anchor: int, p: nat) returns (dates: seq<int>)
    requires Lawful(cal)
    ensures dates == Dates(cal, rule, anchor, p)
  {
    var gathered := PeriodCandidates(cal, rule, anchor, p);
    dates := SortedOnce(gathered);
    DatesAreTheCandidates(cal, rule, anchor, p);
    AscendingIsUnique(dates, Dates(cal, rule, anchor, p));
  }

  // ---- What the standard asks for ----

  /** The days of period `p`. */
  predicate InPeriod(cal: Almanac, rule: Rule, anchor: int, p: nat, d: int) {
    var start := PeriodStart(cal, rule, anchor, p);
    && start.Some?
    && match rule.freq
       case Daily => d == start.value
       case Weekly => start.value <= d < start.value + 7 && Exists(cal, d)
       case Monthly => cal.monthOf(d) == PeriodMonth(cal, rule, anchor, p)
       case Yearly => cal.monthOf(d) / 12 == PeriodYear(cal, rule, anchor, p)
       case OtherFrequency(_) => false
  }

  /** What the start of the series fills in, for the parts below the frequency the
      rule does not give: its weekday in a week, its day in a month, and in a year
      its month too where nothing says any day of the year. */
  predicate FilledIn(cal: Almanac, rule: Rule, anchor: int, d: int) {
    var noDay := rule.byDay == [] && rule.byMonthDay == [];
    match rule.freq
    case Weekly => rule.byDay == [] ==> d % 7 == anchor % 7
    case Monthly => noDay ==> DayOfMonth(cal, d) == DayOfMonth(cal, anchor)
    case Yearly =>
      && (noDay ==> DayOfMonth(cal, d) == DayOfMonth(cal, anchor))
      && (noDay && rule.byMonth == [] ==> cal.monthOf(d) % 12 == cal.monthOf(anchor) % 12)
    case _ => true
  }

  /** What section 3.3.10 of RFC 5545 asks of a day in period `p`: every part given
      holds of it, expanding or limiting the period as it may, and the start fills
      in the rest. BYMONTHDAY under WEEKLY, which the section forbids, is taken as a
      limit like the others. */
  predicate IsAskedFor(cal: Almanac, rule: Rule, anchor: int, p: nat, d: int) {
    InPeriod(cal, rule, anchor, p, d) && Matches(cal, rule, d) && FilledIn(cal, rule, anchor, d)
  }

  /** A rule by the year that says which days and not which months. */
  predicate DaysOfTheYear(rule: Rule) {
    rule.freq.Yearly? && rule.byMonth == [] && (rule.byDay != [] || rule.byMonthDay != [])
  }

  /** The scan offers what is asked for, but of the days of the year only those in the month the series starts in. */
  lemma {:induction false} OfferedIffAskedFor(cal: Almanac, rule: Rule, anchor: int, p: nat, d: int)
    requires Lawful(cal)
    ensures IsCandidate(cal, rule, anchor, p, d)
        <==> IsAskedFor(cal, rule, anchor, p, d)
             && (DaysOfTheYear(rule) ==> cal.monthOf(d) % 12 == cal.monthOf(anchor) % 12)
  {
    match rule.freq
    case Monthly => MonthlyIffAskedFor(cal, rule, anchor, p, d);
    case Yearly => YearlyIffAskedFor(cal, rule, anchor, p, d);
    case _ =>
  }

  lemma MonthlyIffAskedFor(cal: Almanac, rule: Rule, anchor: int, p: nat, d: int)
    requires Lawful(cal) && rule.freq.Monthly?
    ensures IsCandidate(cal, rule, anchor, p, d) <==> IsAskedFor(cal, rule, anchor, p, d)
  {
    var m := PeriodMonth(cal, rule, anchor, p);
    if InMonth(cal, m, d) {
      OneMonth(cal, m, d);
    }
  }

  lemma YearlyIffAskedFor(cal: Almanac, rule: Rule, anchor: int, p: nat, d: int)
    requires Lawful(cal) && rule.freq.Yearly?
    ensures IsCandidate(cal, rule, anchor, p, d)
        <==> IsAskedFor(cal, rule, anchor, p, d)
             && (DaysOfTheYear(rule) ==> cal.monthOf(d) % 12 == cal.monthOf(anchor) % 12)
  {
    YearlyMonthIff(cal, rule, anchor, d);
  }

  lemma YearlyMonthIff(cal: Almanac, rule: Rule, anchor: int, d: int)
    ensures IsYearlyMonth(cal, rule, anchor, cal.monthOf(d) % 12 + 1)
        <==> if rule.byMonth == [] then cal.monthOf(d) % 12 == cal.monthOf(anchor) % 12 else MatchesByMonth(cal, rule, d)
  {
    var month := cal.monthOf(d) % 12 + 1;
    if month in rule.byMonth {
      var k :| 0 <= k < |rule.byMonth| && rule.byMonth[k] == month;
    }
  }

  ghost predicate OffersWhatIsAsked(cal: Almanac, rule: Rule) {
    forall anchor, p: nat, d :: IsCandidate(cal, rule, anchor, p, d) <==> IsAskedFor(cal, rule, anchor, p, d)
  }

  /** There is a day the rule's BYDAY and BYMONTHDAY name. */
  ghost predicate NamesADay(cal: Almanac, rule: Rule) {
    exists d :: Exists(cal, d) && MatchesByDay(rule, d) && MatchesByMonthDay(cal, rule, d)
  }

  /** A rule is offered just the dates the standard asks for, wherever its series
      starts, exactly when it does not say days of the year without months, or says
      none that there is. */
  lemma {:induction false} OffersWhatIsAskedIff(cal: Almanac, rule: Rule)
    requires Lawful(cal)
    ensures OffersWhatIsAsked(cal, rule) <==> !DaysOfTheYear(rule) || !NamesADay(cal, rule)
  {
    if DaysOfTheYear(rule) && NamesADay(cal, rule) {
      var d :| Exists(cal, d) && MatchesByDay(rule, d) && MatchesByMonthDay(cal, rule, d);
      var anchor := AnotherMonth(cal, d);
      OfferedIffAskedFor(cal, rule, anchor, 0, d);
      assert PeriodYear(cal, rule, anchor, 0) == cal.monthOf(d) / 12;
      assert IsAskedFor(cal, rule, anchor, 0, d) && !IsCandidate(cal, rule, anchor, 0, d);
    } else {
      forall anchor, p: nat, d
        ensures IsCandidate(cal, rule, anchor, p, d) <==> IsAskedFor(cal, rule, anchor, p, d)
      {
        OfferedIffAskedFor(cal, rule, anchor, p, d);
        if DaysOfTheYear(rule) && IsAskedFor(cal, rule, anchor, p, d) {
          YearsExist(cal, rule, anchor, p, d);
          assert false;
        }
      }
    }
  }

  lemma YearsExist(cal: Almanac, rule: Rule, anchor: int, p: nat, d: int)
    requires rule.freq.Yearly? && InPeriod(cal, rule, anchor, p, d)
    ensures Exists(cal, d)
  {}

  /** The first day of another month of its year. */
  lemma AnotherMonth(cal: Almanac, d: int) returns (anchor: int)
    requires Lawful(cal)
    ensures cal.monthOf(anchor) / 12 == cal.monthOf(d) / 12 && cal.monthOf(anchor) % 12 != cal.monthOf(d) % 12
  {
    var m := cal.monthOf(d);
    var other := if m % 12 == 0 then m + 1 else m - 1;
    anchor := cal.first(other);
    OneMonth(cal, other, anchor);
  }

  /** So a rule for every Monday of the year is offered those of one month of it. */
  lemma {:induction false} EveryMondayOfTheYearIsNotOffered(cal: Almanac, rule: Rule)
    requires Lawful(cal) && rule == Blank.(freq := Yearly, byDay := [Mo])
    ensures !OffersWhatIsAsked(cal, rule)
  {
    var d := cal.first(0) + (0 - cal.first(0)) % 7;
    assert InMonth(cal, 0, d) by {
      assert 28 <= cal.first(0 + 1) - cal.first(0);
    }
    OneMonth(cal, 0, d);
    assert d % 7 == 0 && WeekdayIndex(rule.byDay[0]) == Some(d % 7);
    assert Exists(cal, d) && MatchesByDay(rule, d) && MatchesByMonthDay(cal, rule, d);
    OffersWhatIsAskedIff(cal, rule);
  }

  /** And one for a day of the month in every month is offered it in one month of the year. */
  lemma {:induction false} EveryMonthsDayIsNotOffered(cal: Almanac, rule: Rule, day: int)
    requires Lawful(cal) && 1 <= day <= 28 && rule == Blank.(freq := Yearly, byMonthDay := [day])
    ensures !OffersWhatIsAsked(cal, rule)
  {
    var d := cal.first(0) + day - 1;
    assert InMonth(cal, 0, d) by {
      assert 28 <= cal.first(0 + 1) - cal.first(0);
    }
    OneMonth(cal, 0, d);
    assert IsMonthDay(cal, d, rule.byMonthDay[0]);
    assert Exists(cal, d) && MatchesByDay(rule, d) && MatchesByMonthDay(cal, rule, d);
    OffersWhatIsAskedIff(cal, rule);
  }

  // ---- The expansion over them ----

  /** The calendar an expansion of this rule scans. */
  function CalendarOf(cal: Almanac, rule: Rule, anchor: int, instant: int -> Option<int>, within: int -> bool): E.Calendar {
    E.Calendar((p: nat) => PeriodStart(cal, rule, anchor, p), (p: nat) => Dates(cal, rule, anchor, p), instant, within)
  }

  function RuleOf(rule: Rule, anchor: int): E.Rule {
    E.Rule(
      && !rule.freq.OtherFrequency? && (forall d | d in rule.byDay :: !d.OtherDay?)
      && (rule.wkst.Some? ==> !rule.wkst.value.OtherDay?) && (rule.until.Some? ==> !rule.until.value.OtherKind?),
      anchor, rule.count, rule.bySetPos)
  }

  lemma {:induction false} TheScanIsOrderly(cal: Almanac, rule: Rule, anchor: int, instant: int -> Option<int>, within: int -> bool)
    requires Lawful(cal)
    ensures E.Orderly(CalendarOf(cal, rule, anchor, instant, within))
  {
    var scan := CalendarOf(cal, rule, anchor, instant, within);
    forall p: nat, k: nat | k < |scan.dates(p)| && scan.start(p).Some?
      ensures scan.dates(p)[k] >= scan.start(p).value
    {
      DatesAreTheCandidates(cal, rule, anchor, p);
      assert scan.dates(p)[k] in Dates(cal, rule, anchor, p);
      CandidatesAreInTheirPeriod(cal, rule, anchor, p, p + 1, scan.dates(p)[k]);
    }
    forall p: nat | scan.start(p).Some? && scan.start(p + 1).Some?
      ensures scan.start(p).value <= scan.start(p + 1).value
    {
      PeriodsAscend(cal, rule, anchor, p);
    }
  }

  lemma {:induction false} PeriodsAscend(cal: Almanac, rule: Rule, anchor: int, p: nat)
    requires Lawful(cal) && PeriodStart(cal, rule, anchor, p).Some? && PeriodStart(cal, rule, anchor, p + 1).Some?
    ensures PeriodStart(cal, rule, anchor, p).value <= PeriodStart(cal, rule, anchor, p + 1).value
  {
    var n := LaterPeriod(cal, rule, anchor, p, p + 1);
    match rule.freq
    case Monthly => MonthsAscend(cal, PeriodMonth(cal, rule, anchor, p), PeriodMonth(cal, rule, anchor, p + 1));
    case Yearly => MonthsAscend(cal, 12 * PeriodYear(cal, rule, anchor, p), 12 * PeriodYear(cal, rule, anchor, p + 1));
    case Daily => ShortPeriods(cal, rule, anchor, p, p + 1, n);
    case Weekly => ShortPeriods(cal, rule, anchor, p, p + 1, n);
    case _ =>
  }

  /** An expansion holds only dates its rule is offered, and two windows never
      disagree, with no assumption left about the dates themselves. */
  lemma {:induction false} WindowsAgreeOnTheDatesOffered(cal: Almanac, rule: Rule, anchor: int, instant: int -> Option<int>,
                                                          within: int -> bool, a: E.Window, b: E.Window, o: E.Occurrence)
    requires Lawful(cal)
    requires var scan := CalendarOf(cal, rule, anchor, instant, within);
             && E.EndIsLate(scan, a) && E.EndIsLate(scan, b) && E.InWindow(o, a) && E.InWindow(o, b)
             && E.Expanded(scan, RuleOf(rule, anchor), a).Ok? && E.Expanded(scan, RuleOf(rule, anchor), b).Ok?
    ensures var scan := CalendarOf(cal, rule, anchor, instant, within);
            && (o in E.Expanded(scan, RuleOf(rule, anchor), a).value <==> o in E.Expanded(scan, RuleOf(rule, anchor), b).value)
            && (o in E.Expanded(scan, RuleOf(rule, anchor), a).value ==> exists p: nat :: IsCandidate(cal, rule, anchor, p, o.date))
  {
    var scan := CalendarOf(cal, rule, anchor, instant, within);
    TheScanIsOrderly(cal, rule, anchor, instant, within);
    E.WindowsAgree(scan, RuleOf(rule, anchor), a, b, o);
    E.ExpansionStaysInsideItsWindow(scan, RuleOf(rule, anchor), a);
    if o in E.Expanded(scan, RuleOf(rule, anchor), a).value {
      var p: nat :| o.date in scan.dates(p);
      DatesAreTheCandidates(cal, rule, anchor, p);
    }
  }

  /** End to end: a rule with no COUNT, UNTIL or BYSETPOS, that does not say days of
      the year without months, expands over a window to exactly the dates RFC 5545
      asks for in the periods that can be reached, on or after the anchor, whose
      instants are in the window. */
  lemma {:induction false} AnExpansionIsWhatIsAskedFor(cal: Almanac, rule: Rule, anchor: int, instant: int -> Option<int>,
                                                       within: int -> bool, w: E.Window, o: E.Occurrence)
    requires Lawful(cal) && !DaysOfTheYear(rule) && RuleOf(rule, anchor).understood && rule.count.None? && rule.bySetPos == []
    requires var scan := CalendarOf(cal, rule, anchor, instant, within);
             && E.EndIsLate(scan, w) && E.Expanded(scan, RuleOf(rule, anchor), w).Ok? && forall d :: within(d)
    ensures o in E.Expanded(CalendarOf(cal, rule, anchor, instant, within), RuleOf(rule, anchor), w).value
        <==> && E.InWindow(o, w) && o.date >= anchor && instant(o.date) == Some(o.at)
             && exists q: nat :: Reached(cal, rule, anchor, q) && IsAskedFor(cal, rule, anchor, q, o.date)
  {
    var scan, r := CalendarOf(cal, rule, anchor, instant, within), RuleOf(rule, anchor);
    TheScanIsOrderly(cal, rule, anchor, instant, within);
    E.AnExpansionIsExactly(scan, r, w, o);
    forall q: nat
      ensures E.Selects(scan, r, q, o)
         <==> && Reached(cal, rule, anchor, q) && IsAskedFor(cal, rule, anchor, q, o.date)
              && o.date >= anchor && instant(o.date) == Some(o.at)
    {
      SelectsIff(cal, rule, anchor, instant, within, o, q);
    }
  }

  /** Every period up to this one can be expressed. */
  ghost predicate Reached(cal: Almanac, rule: Rule, anchor: int, q: nat) {
    forall k: nat | k <= q :: PeriodStart(cal, rule, anchor, k).Some?
  }

  lemma SelectsIff(cal: Almanac, rule: Rule, anchor: int, instant: int -> Option<int>, within: int -> bool, o: E.Occurrence, q: nat)
    requires Lawful(cal) && !DaysOfTheYear(rule) && rule.bySetPos == []
    ensures E.Selects(CalendarOf(cal, rule, anchor, instant, within), RuleOf(rule, anchor), q, o)
        <==> && Reached(cal, rule, anchor, q) && IsAskedFor(cal, rule, anchor, q, o.date)
             && o.date >= anchor && instant(o.date) == Some(o.at)
  {
    DatesAreTheCandidates(cal, rule, anchor, q);
    OfferedIffAskedFor(cal, rule, anchor, q, o.date);
    ReachedIff(cal, rule, anchor, instant, within, q);
  }

  lemma ReachedIff(cal: Almanac, rule: Rule, anchor: int, instant: int -> Option<int>, within: int -> bool, q: nat)
    ensures Reached(cal, rule, anchor, q)
        <==> forall k: nat | k <= q :: CalendarOf(cal, rule, anchor, instant, within).start(k).Some?
  {
    var scan := CalendarOf(cal, rule, anchor, instant, within);
    assert forall k: nat :: scan.start(k) == PeriodStart(cal, rule, anchor, k);
  }

  // ---- Each date once ----

  ghost predicate InDateOrder(all: seq<E.Occurrence>) {
    forall i, j | 0 <= i < j < |all| :: all[i].date < all[j].date
  }

  lemma {:induction false} PickedAscends(dates: seq<int>, setPos: seq<int>, i: nat)
    requires Ascending(dates)
    ensures Ascending(E.PickedFrom(dates, setPos, i))
    ensures forall d | d in E.PickedFrom(dates, setPos, i) :: exists k :: i <= k < |dates| && dates[k] == d
    decreases |dates| - i
  {
    if i < |dates| {
      PickedAscends(dates, setPos, i + 1);
      var rest := E.PickedFrom(dates, setPos, i + 1);
      forall k | 0 <= k < |rest|
        ensures rest[k] > dates[i]
      {
        assert rest[k] in rest;
      }
    }
  }

  lemma {:induction false} AddingAscends(scan: E.Calendar, rule: E.Rule, s: E.Series, dates: seq<int>)
    requires InDateOrder(s.all) && Ascending(dates) && forall o, d | o in s.all && d in dates :: o.date < d
    ensures InDateOrder(E.AddDates(scan, rule, s, dates).all)
    ensures forall o | o in E.AddDates(scan, rule, s, dates).all :: o in s.all || o.date in dates
    decreases |dates|
  {
    if dates != [] {
      var next := E.AddDate(scan, rule, s, dates[0]);
      assert dates[0] in dates;
      forall i | 0 <= i < |s.all|
        ensures s.all[i].date < dates[0]
      {
        assert s.all[i] in s.all;
      }
      forall d | d in dates[1..]
        ensures d in dates && dates[0] < d
      {
        var k :| 0 <= k < |dates| - 1 && dates[1..][k] == d;
        assert dates[k + 1] == d;
      }
      AddingAscends(scan, rule, next, dates[1..]);
    }
  }

  /** Each period's dates go forward, and past those of the periods before it. */
  ghost predicate Spaced(scan: E.Calendar) {
    && (forall p: nat :: Ascending(scan.dates(p)))
    && (forall p: nat, q: nat, a, b | p < q && a in scan.dates(p) && b in scan.dates(q) :: a < b)
  }

  ghost predicate OfEarlierPeriods(scan: E.Calendar, all: seq<E.Occurrence>, p: nat) {
    forall o | o in all :: exists q: nat :: q < p && o.date in scan.dates(q)
  }

  lemma {:induction false} SpacedSeriesAscend(scan: E.Calendar, rule: E.Rule, p: nat)
    requires Spaced(scan)
    ensures InDateOrder(E.SeriesUpto(scan, rule, p).all) && OfEarlierPeriods(scan, E.SeriesUpto(scan, rule, p).all, p)
  {
    if p > 0 {
      SpacedSeriesAscend(scan, rule, p - 1);
      var before := E.SeriesUpto(scan, rule, p - 1);
      var dates := E.Selected(scan.dates(p - 1), rule.setPos);
      PickedAscends(scan.dates(p - 1), rule.setPos, 0);
      assert forall d | d in dates :: d in scan.dates(p - 1);
      forall o, d | o in before.all && d in dates
        ensures o.date < d
      {
        var q: nat :| q < p - 1 && o.date in scan.dates(q);
      }
      AddingAscends(scan, rule, before, dates);
      OneMorePeriod(scan, before.all, E.SeriesUpto(scan, rule, p).all, p - 1);
    }
  }

  lemma OneMorePeriod(scan: E.Calendar, before: seq<E.Occurrence>, after: seq<E.Occurrence>, p: nat)
    requires OfEarlierPeriods(scan, before, p) && forall o | o in after :: o in before || o.date in scan.dates(p)
    ensures OfEarlierPeriods(scan, after, p + 1)
  {}

  lemma {:induction false} TheScanIsSpaced(cal: Almanac, rule: Rule, anchor: int, instant: int -> Option<int>, within: int -> bool)
    requires Lawful(cal)
    ensures Spaced(CalendarOf(cal, rule, anchor, instant, within))
  {
    forall p: nat
      ensures Ascending(Dates(cal, rule, anchor, p))
    {
      DatesAreTheCandidates(cal, rule, anchor, p);
    }
    forall p: nat, q: nat, a, b | p < q && a in Dates(cal, rule, anchor, p) && b in Dates(cal, rule, anchor, q)
      ensures a < b
    {
      LaterPeriodsComeLater(cal, rule, anchor, p, q, a, b);
    }
  }

  lemma LaterPeriodsComeLater(cal: Almanac, rule: Rule, anchor: int, p: nat, q: nat, a: int, b: int)
    requires Lawful(cal) && p < q && a in Dates(cal, rule, anchor, p) && b in Dates(cal, rule, anchor, q)
    ensures a < b
  {
    DatesAreTheCandidates(cal, rule, anchor, p);
    DatesAreTheCandidates(cal, rule, anchor, q);
    CandidatesAreInTheirPeriod(cal, rule, anchor, p, q, a);
    CandidatesAreInTheirPeriod(cal, rule, anchor, q, q + 1, b);
  }

  /** A series names no date twice: its dates only go forward, whatever the periods offer and BYSETPOS picks. */
  lemma {:induction false} NoDateComesUpTwice(cal: Almanac, rule: Rule, anchor: int, instant: int -> Option<int>, within: int -> bool,
                                              p: nat)
    requires Lawful(cal)
    ensures InDateOrder(E.SeriesUpto(CalendarOf(cal, rule, anchor, instant, within), RuleOf(rule, anchor), p).all)
  {
    TheScanIsSpaced(cal, rule, anchor, instant, within);
    SpacedSeriesAscend(CalendarOf(cal, rule, anchor, instant, within), RuleOf(rule, anchor), p);
  }
}
