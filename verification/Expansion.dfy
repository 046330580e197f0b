/** Expanding a recurrence over a window (crates/sunrise-domain/src/routine_gen.rs:338-495).
    Dates are day numbers. Which dates a period offers, and where a date falls on
    the timeline in a zone, belong to the calendar and are parameters. */
module Expansion {
  import opened Wrappers
  import opened Sequences

  const MAX_PERIODS: nat := 100000

  /** `start(p)` is the first day of period `p`, if it can be expressed; `dates(p)`
      its candidates, sorted and without repeats; `instant(d)` when an occurrence
      on `d` fires; `within(d)` whether `UNTIL` still allows it. */
  datatype Calendar = Calendar(
    start: nat -> Option<int>,
    dates: nat -> seq<int>,
    instant: int -> Option<int>,
    within: int -> bool)

  /** `understood`: every frequency, day, week start and kind of `UNTIL` in it is one this build knows. */
  datatype Rule = Rule(understood: bool, anchor: int, count: Option<nat>, setPos: seq<int>)

  datatype Occurrence = Occurrence(date: int, at: int)

  /** `[start, end)` on the timeline, and the last date a period may start on to reach into it. */
  datatype Window = Window(start: int, end: int, endDate: int)

  predicate InWindow(o: Occurrence, w: Window) {
    w.start <= o.at < w.end
  }

  function Inside(w: Window): Occurrence -> bool {
    (o: Occurrence) => InWindow(o, w)
  }

  // ---- BYSETPOS ----

  /** Whether the `i`th of `n` candidates is one of the positions asked for, counted from either end. */
  predicate IsPicked(i: nat, n: nat, setPos: seq<int>) {
    exists k :: 0 <= k < |setPos| && Picks(setPos[k], i, n)
  }

  predicate Picks(pos: int, i: nat, n: nat) {
    if pos > 0 then i == pos - 1 else if pos < 0 then i == n + pos else false
  }

  function PickedFrom(dates: seq<int>, setPos: seq<int>, i: nat): seq<int>
    decreases |dates| - i
  {
    if i >= |dates| then []
    else (if IsPicked(i, |dates|, setPos) then [dates[i]] else []) + PickedFrom(dates, setPos, i + 1)
  }

  function Selected(dates: seq<int>, setPos: seq<int>): seq<int> {
    if setPos == [] then dates else PickedFrom(dates, setPos, 0)
  }

  // ---- The series ----

  /** The occurrences counted so far, wherever they fall, and whether the series has ended. */
  datatype Series = Series(all: seq<Occurrence>, done: bool)

  function AddDate(cal: Calendar, rule: Rule, s: Series, d: int): Series {
    if s.done || d < rule.anchor then s
    else match cal.instant(d)
      case None => s
      case Some(at) =>
        if !cal.within(d) then s.(done := true)
        else if rule.count.Some? && |s.all| >= rule.count.value then s.(done := true)
        else s.(all := s.all + [Occurrence(d, at)])
  }

  function AddDates(cal: Calendar, rule: Rule, s: Series, dates: seq<int>): Series
    decreases |dates|
  {
    if dates == [] then s else AddDates(cal, rule, AddDate(cal, rule, s, dates[0]), dates[1..])
  }

  /** The series over the first `p` periods: no window in it. */
  function SeriesUpto(cal: Calendar, rule: Rule, p: nat): Series {
    if p == 0 then Series([], false)
    else AddDates(cal, rule, SeriesUpto(cal, rule, p - 1), Selected(cal.dates(p - 1), rule.setPos))
  }

  /** The period at which a scan for the window stops, if it does before the cap. */
  function StopFrom(cal: Calendar, rule: Rule, w: Window, p: nat): (q: Option<nat>)
    ensures q.Some? ==> p <= q.value <= Max(p, MAX_PERIODS)
    decreases MAX_PERIODS - p
  {
    if SeriesUpto(cal, rule, p).done then Some(p)
    else if p >= MAX_PERIODS then None
    else match cal.start(p)
      case None => Some(p)
      case Some(first) => if first > w.endDate then Some(p) else StopFrom(cal, rule, w, p + 1)
  }

  datatype ExpandError = WindowTooLarge

  function Expanded(cal: Calendar, rule: Rule, w: Window): Result<seq<Occurrence>, ExpandError> {
    if !rule.understood then Ok([])
    else match StopFrom(cal, rule, w, 0)
      case None => Err(WindowTooLarge)
      case Some(p) => Ok(Filter(SeriesUpto(cal, rule, p).all, Inside(w)))
  }

  /** The scan itself. */
  method Expand(cal: Calendar, rule: Rule, w: Window) returns (r: Result<seq<Occurrence>, ExpandError>)
    ensures r == Expanded(cal, rule, w)
  {
    if !rule.understood {
      return Ok([]);
    }
    var out: seq<Occurrence> := [];
    var seen: nat := 0;
    var p := 0;
    ghost var series := Series([], false);
    while p < MAX_PERIODS
      invariant p <= MAX_PERIODS && series == SeriesUpto(cal, rule, p) && !series.done
      invariant seen == |series.all| && out == Filter(series.all, Inside(w))
      invariant StopFrom(cal, rule, w, 0) == StopFrom(cal, rule, w, p)
      decreases MAX_PERIODS - p
    {
      var first := cal.start(p);
      if first.None? || first.value > w.endDate {
        return Ok(out);
      }
      var done;
      out, seen, done, series := ScanPeriod(cal, rule, w, out, seen, Selected(cal.dates(p), rule.setPos), series);
      p := p + 1;
      if done {
        return Ok(out);
      }
    }
    return Err(WindowTooLarge);
  }

  method ScanPeriod(cal: Calendar, rule: Rule, w: Window, before: seq<Occurrence>, counted: nat, dates: seq<int>, ghost s: Series)
    returns (out: seq<Occurrence>, seen: nat, done: bool, ghost series: Series)
    requires !s.done && counted == |s.all| && before == Filter(s.all, Inside(w))
    ensures series == AddDates(cal, rule, s, dates) && done == series.done
    ensures seen == |series.all| && out == Filter(series.all, Inside(w))
  {
    out, seen, done, series := before, counted, false, s;
    for i := 0 to |dates|
      invariant !series.done && seen == |series.all| && out == Filter(series.all, Inside(w))
      invariant AddDates(cal, rule, series, dates[i..]) == AddDates(cal, rule, s, dates)
    {
      var d := dates[i];
      assert dates[i..][0] == d && dates[i..][1..] == dates[i + 1..];
      var at := cal.instant(d);
      ghost var next := AddDate(cal, rule, series, d);
      if d >= rule.anchor && at.Some? {
        if !cal.within(d) || (rule.count.Some? && seen >= rule.count.value) {
          DoneIsDone(cal, rule, next, dates[i + 1..]);
          series := next;
          return out, seen, true, series;
        }
        seen := seen + 1;
        OneMoreInWindow(series.all, Occurrence(d, at.value), w);
        if w.start <= at.value < w.end {
          out := out + [Occurrence(d, at.value)];
        }
      }
      series := next;
    }
  }

  lemma OneMoreInWindow(all: seq<Occurrence>, o: Occurrence, w: Window)
    ensures Filter(all + [o], Inside(w))
         == Filter(all, Inside(w)) + (if InWindow(o, w) then [o] else [])
  {
    var inWindow := Inside(w);
    FilterConcat(all, [o], inWindow);
    if !InWindow(o, w) {
      FilterNone([o], inWindow);
    } else {
      FilterAll([o], inWindow);
    }
  }

  lemma {:induction false} DoneIsDone(cal: Calendar, rule: Rule, s: Series, dates: seq<int>)
    requires s.done
    ensures AddDates(cal, rule, s, dates) == s
    decreases |dates|
  {
    if dates != [] {
      DoneIsDone(cal, rule, s, dates[1..]);
    }
  }

  // ---- What an expansion holds ----

  /** A period's candidates are no earlier than its start, and no period starts before the one before it. */
  ghost predicate Orderly(cal: Calendar) {
    && (forall p: nat, k: nat | k < |cal.dates(p)| && cal.start(p).Some? :: cal.dates(p)[k] >= cal.start(p).value)
    && (forall p: nat | cal.start(p).Some? && cal.start(p + 1).Some? :: cal.start(p).value <= cal.start(p + 1).value)
  }

  /** A date after the window's last one fires at its end or later. */
  ghost predicate EndIsLate(cal: Calendar, w: Window) {
    forall d | d > w.endDate && cal.instant(d).Some? :: cal.instant(d).value >= w.end
  }

  lemma {:induction false} PickedFromDates(dates: seq<int>, setPos: seq<int>, i: nat)
    ensures forall d | d in PickedFrom(dates, setPos, i) :: d in dates
    decreases |dates| - i
  {
    if i < |dates| {
      PickedFromDates(dates, setPos, i + 1);
    }
  }

  /** What some dates add to a series: occurrences of those dates, on or after the anchor, at their instants. */
  lemma {:induction false} AddedFromDates(cal: Calendar, rule: Rule, s: Series, dates: seq<int>, o: Occurrence)
    requires o in AddDates(cal, rule, s, dates).all
    ensures o in s.all || (o.date in dates && cal.instant(o.date) == Some(o.at) && o.date >= rule.anchor && cal.within(o.date))
    decreases |dates|
  {
    if dates != [] {
      AddedFromDates(cal, rule, AddDate(cal, rule, s, dates[0]), dates[1..], o);
    }
  }

  lemma {:induction false} AddedIsKept(cal: Calendar, rule: Rule, s: Series, dates: seq<int>, o: Occurrence)
    requires o in s.all
    ensures o in AddDates(cal, rule, s, dates).all
    decreases |dates|
  {
    if dates != [] {
      AddedIsKept(cal, rule, AddDate(cal, rule, s, dates[0]), dates[1..], o);
    }
  }

  lemma {:induction false} CountBoundsDates(cal: Calendar, rule: Rule, s: Series, dates: seq<int>)
    requires rule.count.Some? && |s.all| <= rule.count.value
    ensures |AddDates(cal, rule, s, dates).all| <= rule.count.value
    decreases |dates|
  {
    if dates != [] {
      CountBoundsDates(cal, rule, AddDate(cal, rule, s, dates[0]), dates[1..]);
    }
  }

  lemma {:induction false} CountBoundsSeries(cal: Calendar, rule: Rule, p: nat)
    requires rule.count.Some?
    ensures |SeriesUpto(cal, rule, p).all| <= rule.count.value
  {
    if p > 0 {
      CountBoundsSeries(cal, rule, p - 1);
      CountBoundsDates(cal, rule, SeriesUpto(cal, rule, p - 1), Selected(cal.dates(p - 1), rule.setPos));
    }
  }

  lemma {:induction false} SeriesIsOfDates(cal: Calendar, rule: Rule, p: nat, o: Occurrence)
    requires o in SeriesUpto(cal, rule, p).all
    ensures cal.instant(o.date) == Some(o.at) && o.date >= rule.anchor && cal.within(o.date)
    ensures exists q: nat :: q < p && o.date in cal.dates(q)
  {
    if p > 0 {
      var before, dates := SeriesUpto(cal, rule, p - 1), Selected(cal.dates(p - 1), rule.setPos);
      AddedFromDates(cal, rule, before, dates, o);
      PickedFromDates(cal.dates(p - 1), rule.setPos, 0);
      if o in before.all {
        SeriesIsOfDates(cal, rule, p - 1, o);
      }
    }
  }

  /** Every occurrence is inside the half-open window, on or after the anchor,
      allowed by `UNTIL`, one of its period's dates, and there are at most `COUNT` of them. */
  lemma {:induction false} ExpansionStaysInsideItsWindow(cal: Calendar, rule: Rule, w: Window)
    requires Expanded(cal, rule, w).Ok?
    ensures var out := Expanded(cal, rule, w).value;
            && (forall o | o in out :: w.start <= o.at < w.end && o.date >= rule.anchor && cal.within(o.date)
                                       && cal.instant(o.date) == Some(o.at) && exists q: nat :: o.date in cal.dates(q))
            && (rule.count.Some? ==> |out| <= rule.count.value)
  {
    if !rule.understood {
      return;
    }
    var p := StopFrom(cal, rule, w, 0).value;
    forall o | o in Expanded(cal, rule, w).value
      ensures w.start <= o.at < w.end && o.date >= rule.anchor && cal.within(o.date)
      ensures cal.instant(o.date) == Some(o.at) && exists q: nat :: o.date in cal.dates(q)
    {
      SeriesIsOfDates(cal, rule, p, o);
    }
    if rule.count.Some? {
      CountBoundsSeries(cal, rule, p);
    }
  }

  // ---- One series, however it is looked at ----

  lemma {:induction false} StopIsFirst(cal: Calendar, rule: Rule, w: Window, p: nat)
    requires StopFrom(cal, rule, w, p).Some?
    ensures var q := StopFrom(cal, rule, w, p).value;
            && (SeriesUpto(cal, rule, q).done || cal.start(q).None? || cal.start(q).value > w.endDate)
            && forall k | p <= k < q :: !SeriesUpto(cal, rule, k).done && cal.start(k).Some? && cal.start(k).value <= w.endDate
    decreases MAX_PERIODS - p
  {
    if !SeriesUpto(cal, rule, p).done && p < MAX_PERIODS && cal.start(p).Some? && cal.start(p).value <= w.endDate {
      StopIsFirst(cal, rule, w, p + 1);
    }
  }

  lemma {:induction false} DoneStays(cal: Calendar, rule: Rule, p: nat, q: nat)
    requires p <= q && SeriesUpto(cal, rule, p).done
    ensures SeriesUpto(cal, rule, q) == SeriesUpto(cal, rule, p)
    decreases q
  {
    if p < q {
      DoneStays(cal, rule, p, q - 1);
      DoneIsDone(cal, rule, SeriesUpto(cal, rule, q - 1), Selected(cal.dates(q - 1), rule.setPos));
    }
  }

  lemma {:induction false} SeriesGrows(cal: Calendar, rule: Rule, p: nat, q: nat, o: Occurrence)
    requires p <= q && o in SeriesUpto(cal, rule, p).all
    ensures o in SeriesUpto(cal, rule, q).all
    decreases q
  {
    if p < q {
      SeriesGrows(cal, rule, p, q - 1, o);
      AddedIsKept(cal, rule, SeriesUpto(cal, rule, q - 1), Selected(cal.dates(q - 1), rule.setPos), o);
    }
  }

  /** Past the period a scan stopped at, nothing in its window is left. */
  lemma {:induction false} NothingIsLeftBehind(cal: Calendar, rule: Rule, w: Window, p: nat, q: nat, o: Occurrence)
    requires Orderly(cal) && EndIsLate(cal, w) && p <= q
    requires cal.start(p).Some? && cal.start(p).value > w.endDate
    requires forall k | p <= k < q :: cal.start(k).Some?
    requires o in SeriesUpto(cal, rule, q).all && o !in SeriesUpto(cal, rule, p).all
    ensures o.at >= w.end
    decreases q
  {
    if p < q {
      var before, dates := SeriesUpto(cal, rule, q - 1), Selected(cal.dates(q - 1), rule.setPos);
      if o in before.all {
        NothingIsLeftBehind(cal, rule, w, p, q - 1, o);
      } else {
        AddedFromDates(cal, rule, before, dates, o);
        PickedFromDates(cal.dates(q - 1), rule.setPos, 0);
        StartsAscend(cal, p, q - 1);
        var k :| 0 <= k < |cal.dates(q - 1)| && cal.dates(q - 1)[k] == o.date;
      }
    }
  }

  lemma {:induction false} StartsAscend(cal: Calendar, p: nat, q: nat)
    requires Orderly(cal) && p <= q && forall k | p <= k <= q :: cal.start(k).Some?
    ensures cal.start(p).value <= cal.start(q).value
    decreases q
  {
    if p < q {
      StartsAscend(cal, p, q - 1);
      assert cal.start(q - 1).Some? && cal.start(q).Some?;
    }
  }

  /** Two windows never disagree: an occurrence inside both is in the one
      expansion exactly when it is in the other, whatever `COUNT` and `UNTIL` say. */
  lemma {:induction false} WindowsAgree(cal: Calendar, rule: Rule, a: Window, b: Window, o: Occurrence)
    requires Orderly(cal) && EndIsLate(cal, a) && EndIsLate(cal, b)
    requires Expanded(cal, rule, a).Ok? && Expanded(cal, rule, b).Ok? && InWindow(o, a) && InWindow(o, b)
    ensures o in Expanded(cal, rule, a).value <==> o in Expanded(cal, rule, b).value
  {
    if !rule.understood {
      return;
    }
    var p, q := StopFrom(cal, rule, a, 0).value, StopFrom(cal, rule, b, 0).value;
    if p <= q {
      SameUpto(cal, rule, a, b, o);
    } else {
      SameUpto(cal, rule, b, a, o);
    }
  }

  lemma {:induction false} SameUpto(cal: Calendar, rule: Rule, a: Window, b: Window, o: Occurrence)
    requires Orderly(cal) && EndIsLate(cal, a) && InWindow(o, a)
    requires StopFrom(cal, rule, a, 0).Some? && StopFrom(cal, rule, b, 0).Some?
    requires StopFrom(cal, rule, a, 0).value <= StopFrom(cal, rule, b, 0).value
    ensures o in SeriesUpto(cal, rule, StopFrom(cal, rule, a, 0).value).all
        <==> o in SeriesUpto(cal, rule, StopFrom(cal, rule, b, 0).value).all
  {
    var p, q := StopFrom(cal, rule, a, 0).value, StopFrom(cal, rule, b, 0).value;
    StopIsFirst(cal, rule, a, 0);
    StopIsFirst(cal, rule, b, 0);
    if o in SeriesUpto(cal, rule, p).all {
      SeriesGrows(cal, rule, p, q, o);
    } else if o in SeriesUpto(cal, rule, q).all {
      if SeriesUpto(cal, rule, p).done {
        DoneStays(cal, rule, p, q);
      } else if p < q {
        NothingIsLeftBehind(cal, rule, a, p, q, o);
      }
    }
  }

  // ---- Nothing of the series is missing ----

  /** Every occurrence of the series inside the window is in the expansion, as far as periods can be expressed. */
  lemma {:induction false} NothingInTheWindowIsMissing(cal: Calendar, rule: Rule, w: Window, p: nat, o: Occurrence)
    requires Orderly(cal) && EndIsLate(cal, w) && rule.understood && Expanded(cal, rule, w).Ok?
    requires o in SeriesUpto(cal, rule, p).all && InWindow(o, w) && forall k: nat | k < p :: cal.start(k).Some?
    ensures o in Expanded(cal, rule, w).value
  {
    var q := StopFrom(cal, rule, w, 0).value;
    StopIsFirst(cal, rule, w, 0);
    if p <= q {
      SeriesGrows(cal, rule, p, q, o);
    } else if SeriesUpto(cal, rule, q).done {
      DoneStays(cal, rule, q, p);
    } else if o !in SeriesUpto(cal, rule, q).all {
      NothingIsLeftBehind(cal, rule, w, q, p, o);
    }
  }

  /** A rule that says no COUNT, in a calendar in which UNTIL stops nothing. */
  ghost predicate Unlimited(cal: Calendar, rule: Rule) {
    rule.count.None? && forall d :: cal.within(d)
  }

  /** Period `q` can be reached, and an occurrence there is one of its selected dates,
      on or after the anchor, at its instant. */
  ghost predicate Selects(cal: Calendar, rule: Rule, q: nat, o: Occurrence) {
    && (forall k: nat | k <= q :: cal.start(k).Some?)
    && o.date in Selected(cal.dates(q), rule.setPos) && o.date >= rule.anchor && cal.instant(o.date) == Some(o.at)
  }

  lemma {:induction false} UnlimitedAddsAll(cal: Calendar, rule: Rule, s: Series, dates: seq<int>, o: Occurrence)
    requires Unlimited(cal, rule) && !s.done
    ensures !AddDates(cal, rule, s, dates).done
    ensures o in AddDates(cal, rule, s, dates).all
        <==> o in s.all || (o.date in dates && o.date >= rule.anchor && cal.instant(o.date) == Some(o.at))
    decreases |dates|
  {
    if dates != [] {
      var next := AddDate(cal, rule, s, dates[0]);
      UnlimitedAddsAll(cal, rule, next, dates[1..], o);
      assert o.date in dates <==> o.date == dates[0] || o.date in dates[1..];
    }
  }

  lemma {:induction false} UnlimitedSeriesIsAll(cal: Calendar, rule: Rule, p: nat, o: Occurrence)
    requires Unlimited(cal, rule) && forall k: nat | k < p :: cal.start(k).Some?
    ensures !SeriesUpto(cal, rule, p).done
    ensures o in SeriesUpto(cal, rule, p).all <==> exists q: nat :: q < p && Selects(cal, rule, q, o)
  {
    if p > 0 {
      UnlimitedSeriesIsAll(cal, rule, p - 1, o);
      var dates := Selected(cal.dates(p - 1), rule.setPos);
      UnlimitedAddsAll(cal, rule, SeriesUpto(cal, rule, p - 1), dates, o);
      if o in SeriesUpto(cal, rule, p).all && o !in SeriesUpto(cal, rule, p - 1).all {
        assert Selects(cal, rule, p - 1, o);
      }
      if q: nat :| q < p && Selects(cal, rule, q, o) {
        assert q < p - 1 || q == p - 1;
      }
    }
  }

  /** Without COUNT or UNTIL, an expansion is exactly the selected dates of the
      periods that can be reached, on or after the anchor, whose instants are in the window. */
  lemma {:induction false} AnExpansionIsExactly(cal: Calendar, rule: Rule, w: Window, o: Occurrence)
    requires Orderly(cal) && EndIsLate(cal, w) && rule.understood && Unlimited(cal, rule) && Expanded(cal, rule, w).Ok?
    ensures o in Expanded(cal, rule, w).value <==> InWindow(o, w) && exists q: nat :: Selects(cal, rule, q, o)
  {
    var stop := StopFrom(cal, rule, w, 0).value;
    StopIsFirst(cal, rule, w, 0);
    UnlimitedSeriesIsAll(cal, rule, stop, o);
    if InWindow(o, w) {
      if q: nat :| Selects(cal, rule, q, o) {
        UnlimitedSeriesIsAll(cal, rule, q + 1, o);
        NothingInTheWindowIsMissing(cal, rule, w, q + 1, o);
      }
    }
  }
}
