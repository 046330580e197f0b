/** Fractional sort keys (crates/sunrise-domain/src/sort_order.rs).
    A key is a string of base-26 digits `A`..`Z`, read as a fraction in [0, 1).
    The module proves the claim the encoding exists for, that string order is
    numeric order, and that `Between` and `Spread` are total and dense. */
module SortOrder {
  import opened Wrappers

  const BASE: nat := 26
  const LAST: nat := 25

  datatype SortOrderError = MalformedBound | NotIncreasing

  predicate WellFormed(key: string) {
    forall i | 0 <= i < |key| :: 'A' <= key[i] <= 'Z'
  }

  /** A key this build is willing to write: the spelling of its number is unique. */
  predicate IsValid(key: string) {
    key != "" && WellFormed(key) && key[|key| - 1] != 'A'
  }

  /** Lexicographic order, the comparison the database and every list use. */
  predicate Less(a: string, b: string) {
    if b == "" then false
    else if a == "" then true
    else a[0] < b[0] || (a[0] == b[0] && Less(a[1..], b[1..]))
  }

  function Letter(digit: nat): (c: char)
    requires digit < BASE
  {
    'A' + digit as char
  }

  /** The digit at `i`, or the implicit zero past the end. Bounds are checked to
      be well formed before any digit of theirs counts. */
  function Digit(key: string, i: nat): (d: nat)
    ensures d < BASE
  {
    if i < |key| && 'A' <= key[i] <= 'Z' then key[i] as int - 'A' as int else 0
  }

  function Drop(key: string, i: nat): string {
    if i <= |key| then key[i..] else ""
  }

  /** The number a key spells. */
  ghost function Value(key: string): (v: real)
    ensures 0.0 <= v < 1.0
  {
    if key == "" then 0.0 else (Digit(key, 0) as real + Value(key[1..])) / 26.0
  }

  /** Every padded digit agrees, so the two strings spell one number. */
  predicate SameNumber(a: string, b: string) {
    forall i | 0 <= i < Max(|a|, |b|) :: Digit(a, i) == Digit(b, i)
  }

  // ---- String order is numeric order ----

  lemma {:induction false} ValueUnfolds(key: string)
    ensures Value(key) == (Digit(key, 0) as real + Value(Drop(key, 1))) / 26.0
  {
    if key == "" {
      assert Drop(key, 1) == "";
    }
  }

  lemma {:induction false} DigitsOfTail(key: string, i: nat)
    ensures Digit(Drop(key, 1), i) == Digit(key, i + 1)
  {
  }

  lemma {:induction false} SameNumberIffSameValue(a: string, b: string)
    ensures SameNumber(a, b) <==> Value(a) == Value(b)
    decreases |a| + |b|
  {
    if a != "" || b != "" {
      var a', b' := Drop(a, 1), Drop(b, 1);
      ValueUnfolds(a);
      ValueUnfolds(b);
      SameNumberIffSameValue(a', b');
      if SameNumber(a, b) {
        forall i | 0 <= i < Max(|a'|, |b'|)
          ensures Digit(a', i) == Digit(b', i)
        {
          DigitsOfTail(a, i);
          DigitsOfTail(b, i);
          assert Digit(a, i + 1) == Digit(b, i + 1);
        }
      }
      if Value(a) == Value(b) {
        assert Digit(a, 0) == Digit(b, 0);
        forall i | 0 <= i < Max(|a|, |b|)
          ensures Digit(a, i) == Digit(b, i)
        {
          if i > 0 {
            DigitsOfTail(a, i - 1);
            DigitsOfTail(b, i - 1);
            assert i - 1 < Max(|a'|, |b'|) ==> Digit(a', i - 1) == Digit(b', i - 1);
          }
        }
      }
    }
  }

  /** Numeric order implies string order, for any two spellings. */
  lemma {:induction false} SmallerNumberSortsFirst(a: string, b: string)
    requires WellFormed(a) && WellFormed(b) && Value(a) < Value(b)
    ensures Less(a, b)
    decreases |a| + |b|
  {
    if a != "" && b != "" {
      ValueUnfolds(a);
      ValueUnfolds(b);
      if a[0] == b[0] {
        SmallerNumberSortsFirst(a[1..], b[1..]);
      } else {
        assert Digit(a, 0) <= Digit(b, 0);
      }
    }
  }

  lemma {:induction false} SortsFirstIsNotLarger(a: string, b: string)
    requires WellFormed(a) && WellFormed(b) && Less(a, b)
    ensures Value(a) <= Value(b)
  {
    if a != "" && b != "" {
      ValueUnfolds(a);
      ValueUnfolds(b);
      if a[0] == b[0] {
        SortsFirstIsNotLarger(a[1..], b[1..]);
      }
    }
  }

  lemma {:induction false} LessIsTotal(a: string, b: string)
    ensures Less(a, b) || Less(b, a) || a == b
    ensures !(Less(a, b) && Less(b, a))
    ensures !Less(a, a)
  {
    if a != "" {
      LessIsTotal(a[1..], a[1..]);
    }
    if a != "" && b != "" {
      LessIsTotal(a[1..], b[1..]);
      if a[0] == b[0] && a[1..] == b[1..] {
        assert a == [a[0]] + a[1..] == b;
      }
    }
  }

  lemma {:induction false} LessIsTransitive(a: string, b: string, c: string)
    requires Less(a, b) && Less(b, c)
    ensures Less(a, c)
  {
    if a != "" && b != "" && c != "" && a[0] == b[0] == c[0] {
      LessIsTransitive(a[1..], b[1..], c[1..]);
    }
  }

  /** A valid key is never zero: its last digit is not. */
  lemma {:induction false} ValidIsPositive(key: string)
    requires IsValid(key)
    ensures Value(key) > 0.0
  {
    if |key| > 1 {
      ValidIsPositive(key[1..]);
    }
  }

  /** The trailing-`A` rule makes spellings unique. */
  lemma {:induction false} ValidSpellingIsUnique(a: string, b: string)
    requires IsValid(a) && IsValid(b) && Value(a) == Value(b)
    ensures a == b
  {
    SameHead(a, b);
    if |a| > 1 {
      ValidIsPositive(a[1..]);
    }
    if |b| > 1 {
      ValidIsPositive(b[1..]);
    }
    if |a| > 1 && |b| > 1 {
      ValidSpellingIsUnique(a[1..], b[1..]);
    }
    assert a == [a[0]] + a[1..] && b == [b[0]] + b[1..];
  }

  lemma {:induction false} SameHead(a: string, b: string)
    requires a != "" && b != "" && WellFormed(a) && WellFormed(b) && Value(a) == Value(b)
    ensures a[0] == b[0] && Value(a[1..]) == Value(b[1..])
  {
    ValueUnfolds(a);
    ValueUnfolds(b);
    assert Digit(a, 0) == Digit(b, 0);
  }

  /** The encoding's point: on the keys this build writes, `ORDER BY sort_order`
      is the order of the numbers. */
  lemma {:induction false} StringOrderIsNumericOrder(a: string, b: string)
    requires IsValid(a) && IsValid(b)
    ensures Less(a, b) <==> Value(a) < Value(b)
  {
    if Less(a, b) {
      SortsFirstIsNotLarger(a, b);
      if Value(a) == Value(b) {
        ValidSpellingIsUnique(a, b);
        LessIsTotal(a, b);
      }
    }
    if Value(a) < Value(b) {
      SmallerNumberSortsFirst(a, b);
    }
  }

  // ---- The key between two bounds ----

  /** One more digit in front: what every step of the walk pushes. */
  lemma {:induction false} ValueOfPrefixed(digit: nat, tail: string)
    requires digit < BASE
    ensures Value([Letter(digit)] + tail) == (digit as real + Value(tail)) / 26.0
    ensures IsValid([Letter(digit)] + tail) <==> if tail == "" then digit > 0 else IsValid(tail)
  {
    var k := [Letter(digit)] + tail;
    assert k[1..] == tail;
    assert Digit(k, 0) == digit;
    assert Letter(digit) == 'A' <==> digit == 0;
  }

  /** The continuation that beats `lo` with nothing above it to respect. */
  function AboveTail(lo: string): (k: string)
    ensures |k| <= |lo| + 1
  {
    var a := Digit(lo, 0);
    if a < LAST then [Letter(a + (BASE - a) / 2)] else [Letter(a)] + AboveTail(Drop(lo, 1))
  }

  lemma {:induction false} AboveTailIsAbove(lo: string)
    ensures IsValid(AboveTail(lo)) && Value(lo) < Value(AboveTail(lo))
    decreases |lo|
  {
    ValueUnfolds(lo);
    var a := Digit(lo, 0);
    if a < LAST {
      assert AboveTail(lo) == [Letter(a + (BASE - a) / 2)] + "";
      ValueOfPrefixed(a + (BASE - a) / 2, "");
    } else {
      AboveTailIsAbove(Drop(lo, 1));
      ValueOfPrefixed(a, AboveTail(Drop(lo, 1)));
    }
  }

  /** The digit walk of `between`, for two numbers in increasing order. */
  function Walk(lo: string, hi: string): (k: string)
    requires Value(lo) < Value(hi)
    ensures |k| <= Max(|lo|, |hi|) + 1
    decreases |hi|
  {
    FirstDigits(lo, hi);
    var a, b, l, h := Digit(lo, 0), Digit(hi, 0), Drop(lo, 1), Drop(hi, 1);
    if b - a >= 2 then [Letter(a + (b - a) / 2)]
    else [Letter(a)] + if a == b then Walk(l, h) else AboveTail(l)
  }

  lemma {:induction false} WalkIsInside(lo: string, hi: string)
    requires Value(lo) < Value(hi)
    ensures IsValid(Walk(lo, hi)) && Value(lo) < Value(Walk(lo, hi)) < Value(hi)
    decreases |hi|
  {
    FirstDigits(lo, hi);
    var a, b, l, h := Digit(lo, 0), Digit(hi, 0), Drop(lo, 1), Drop(hi, 1);
    if b - a >= 2 {
      assert Walk(lo, hi) == [Letter(a + (b - a) / 2)] + "";
      ValueOfPrefixed(a + (b - a) / 2, "");
    } else if a == b {
      WalkIsInside(l, h);
      ValueOfPrefixed(a, Walk(l, h));
    } else {
      AboveTailIsAbove(l);
      ValueOfPrefixed(a, AboveTail(l));
    }
  }

  lemma {:induction false} FirstDigits(lo: string, hi: string)
    requires Value(lo) < Value(hi)
    ensures hi != ""
    ensures Digit(lo, 0) <= Digit(hi, 0)
    ensures Digit(lo, 0) == Digit(hi, 0) ==> Value(Drop(lo, 1)) < Value(Drop(hi, 1))
    ensures Value(lo) == (Digit(lo, 0) as real + Value(Drop(lo, 1))) / 26.0
    ensures Value(hi) == (Digit(hi, 0) as real + Value(Drop(hi, 1))) / 26.0
  {
    ValueUnfolds(lo);
    ValueUnfolds(hi);
  }

  function Between(after: Option<string>, before: Option<string>): Result<string, SortOrderError> {
    var lo := after.GetOr("");
    if !WellFormed(lo) then Err(MalformedBound)
    else match before
      case None => Ok(AboveTail(lo))
      case Some(hi) =>
        if !WellFormed(hi) then Err(MalformedBound)
        else if SameNumber(lo, hi) || Less(hi, lo) then Err(NotIncreasing)
        else (IncreasingBounds(lo, hi); Ok(Walk(lo, hi)))
  }

  lemma {:induction false} IncreasingBounds(lo: string, hi: string)
    requires WellFormed(lo) && WellFormed(hi)
    ensures !SameNumber(lo, hi) && !Less(hi, lo) <==> Value(lo) < Value(hi)
  {
    SameNumberIffSameValue(lo, hi);
    if Value(hi) < Value(lo) {
      SmallerNumberSortsFirst(hi, lo);
    }
    if Less(hi, lo) {
      SortsFirstIsNotLarger(hi, lo);
    }
  }

  /** The bounds admit a key: both are keys at all, and the upper is the larger number. */
  ghost predicate Admits(after: Option<string>, before: Option<string>) {
    && WellFormed(after.GetOr(""))
    && (before.Some? ==> WellFormed(before.value) && Value(after.GetOr("")) < Value(before.value))
  }

  /** `key` sorts strictly inside the bounds, as a string and as a number. */
  ghost predicate StrictlyInside(key: string, after: Option<string>, before: Option<string>) {
    && Less(after.GetOr(""), key) && Value(after.GetOr("")) < Value(key)
    && (before.Some? ==> Less(key, before.value) && Value(key) < Value(before.value))
  }

  /** Total and dense: a key exists exactly when the bounds admit one, and it is
      strictly inside them; every refusal is named for what is wrong. */
  lemma {:induction false} BetweenIsDense(after: Option<string>, before: Option<string>)
    ensures Between(after, before).Ok? <==> Admits(after, before)
    ensures Between(after, before).Ok? ==>
              var key := Between(after, before).value;
              && IsValid(key)
              && StrictlyInside(key, after, before)
              && Fits(key, after, before, 1)
    ensures Between(after, before) == Err(MalformedBound) <==>
              !WellFormed(after.GetOr("")) || !WellFormed(before.GetOr(""))
  {
    var lo := after.GetOr("");
    if WellFormed(lo) {
      if before.Some? && WellFormed(before.value) {
        IncreasingBounds(lo, before.value);
      }
      if Between(after, before).Ok? {
        if before.Some? {
          WalkIsInside(lo, before.value);
        } else {
          AboveTailIsAbove(lo);
        }
        var key := Between(after, before).value;
        SmallerNumberSortsFirst(lo, key);
        if before.Some? {
          SmallerNumberSortsFirst(key, before.value);
        }
      }
    }
  }

  /** On valid or absent bounds, the guard a caller can read off the strings decides. */
  lemma {:induction false} ValidBoundsAdmitIffSorted(after: Option<string>, before: Option<string>)
    requires after.Some? ==> IsValid(after.value)
    requires before.Some? ==> IsValid(before.value)
    ensures Admits(after, before) <==>
              (after.Some? && before.Some? ==> Less(after.value, before.value))
  {
    if before.Some? {
      ValidIsPositive(before.value);
      if after.Some? {
        StringOrderIsNumericOrder(after.value, before.value);
      }
    }
  }

  // ---- The loops the source runs ----

  lemma {:induction false} DropStep(key: string, i: nat)
    ensures Digit(Drop(key, i), 0) == Digit(key, i)
    ensures Drop(Drop(key, i), 1) == Drop(key, i + 1)
  {
  }

  /** The loop of `above_tail`: `out` so far, `i` the next digit of `lo`. */
  function ExtendFrom(out: string, lo: string, i: nat): string
    decreases Max(|lo| - i, 0)
  {
    var a := Digit(lo, i);
    if a == LAST then ExtendFrom(out + [Letter(LAST)], lo, i + 1) else out + [Letter(a + (BASE - a) / 2)]
  }

  lemma {:induction false} ExtendFromIsAboveTail(out: string, lo: string, i: nat)
    ensures ExtendFrom(out, lo, i) == out + AboveTail(Drop(lo, i))
    decreases Max(|lo| - i, 0)
  {
    DropStep(lo, i);
    if Digit(lo, i) == LAST {
      ExtendFromIsAboveTail(out + [Letter(LAST)], lo, i + 1);
    }
  }

  method ExtendAbove(prefix: string, lo: string, start: nat) returns (out: string)
    ensures out == prefix + AboveTail(Drop(lo, start))
  {
    ExtendFromIsAboveTail(prefix, lo, start);
    out := prefix;
    var i := start;
    while Digit(lo, i) == LAST
      invariant ExtendFrom(out, lo, i) == ExtendFrom(prefix, lo, start)
      decreases |lo| - i
    {
      out := out + [Letter(LAST)];
      i := i + 1;
    }
    var a := Digit(lo, i);
    out := out + [Letter(a + (BASE - a) / 2)];
  }

  /** The loop of `between`, on two numbers in increasing order. */
  function WalkFrom(out: string, lo: string, hi: string, i: nat): string
    requires Value(Drop(lo, i)) < Value(Drop(hi, i))
    decreases |hi| - i
  {
    DropStep(lo, i);
    DropStep(hi, i);
    FirstDigits(Drop(lo, i), Drop(hi, i));
    var a, b := Digit(lo, i), Digit(hi, i);
    if a == b then WalkFrom(out + [Letter(a)], lo, hi, i + 1)
    else if b - a >= 2 then out + [Letter(a + (b - a) / 2)]
    else out + [Letter(a)] + AboveTail(Drop(lo, i + 1))
  }

  lemma {:induction false} WalkFromIsWalk(out: string, lo: string, hi: string, i: nat)
    requires Value(Drop(lo, i)) < Value(Drop(hi, i))
    ensures WalkFrom(out, lo, hi, i) == out + Walk(Drop(lo, i), Drop(hi, i))
    decreases |hi| - i
  {
    DropStep(lo, i);
    DropStep(hi, i);
    FirstDigits(Drop(lo, i), Drop(hi, i));
    if Digit(lo, i) == Digit(hi, i) {
      WalkFromIsWalk(out + [Letter(Digit(lo, i))], lo, hi, i + 1);
    }
  }

  method WalkDigits(lo: string, hi: string) returns (out: string)
    requires Value(lo) < Value(hi)
    ensures out == Walk(lo, hi)
  {
    assert Drop(lo, 0) == lo && Drop(hi, 0) == hi;
    WalkFromIsWalk("", lo, hi, 0);
    out := "";
    var i := 0;
    while Digit(lo, i) == Digit(hi, i)
      invariant Value(Drop(lo, i)) < Value(Drop(hi, i))
      invariant WalkFrom(out, lo, hi, i) == WalkFrom("", lo, hi, 0)
      decreases |hi| - i
    {
      WalkStep(lo, hi, i);
      out := out + [Letter(Digit(lo, i))];
      i := i + 1;
    }
    out := LeaveWalk(out, lo, hi, i);
  }

  /** The two ways the walk ends once the digits differ. */
  method LeaveWalk(walked: string, lo: string, hi: string, i: nat) returns (out: string)
    requires Value(Drop(lo, i)) < Value(Drop(hi, i)) && Digit(lo, i) != Digit(hi, i)
    ensures out == WalkFrom(walked, lo, hi, i)
  {
    WalkStep(lo, hi, i);
    var a, b := Digit(lo, i), Digit(hi, i);
    if b - a >= 2 {
      out := walked + [Letter(a + (b - a) / 2)];
    } else {
      out := ExtendAbove(walked + [Letter(a)], lo, i + 1);
    }
  }

  lemma {:induction false} WalkStep(lo: string, hi: string, i: nat)
    requires Value(Drop(lo, i)) < Value(Drop(hi, i))
    ensures i < |hi| && Digit(lo, i) <= Digit(hi, i)
    ensures Digit(lo, i) == Digit(hi, i) ==> Value(Drop(lo, i + 1)) < Value(Drop(hi, i + 1))
  {
    DropStep(lo, i);
    DropStep(hi, i);
    FirstDigits(Drop(lo, i), Drop(hi, i));
  }

  method ComputeBetween(after: Option<string>, before: Option<string>)
    returns (r: Result<string, SortOrderError>)
    ensures r == Between(after, before)
  {
    var lo := after.GetOr("");
    if !WellFormed(lo) {
      return Err(MalformedBound);
    }
    if before.None? {
      var key := ExtendAbove("", lo, 0);
      assert Drop(lo, 0) == lo && "" + AboveTail(lo) == AboveTail(lo);
      return Ok(key);
    }
    var hi := before.value;
    if !WellFormed(hi) {
      return Err(MalformedBound);
    }
    if SameNumber(lo, hi) || Less(hi, lo) {
      return Err(NotIncreasing);
    }
    IncreasingBounds(lo, hi);
    var key := WalkDigits(lo, hi);
    return Ok(key);
  }

  // ---- A run of keys in one gap ----

  /** `bisect`: the middle key first, then each half, in order. */
  function Bisect(after: Option<string>, before: Option<string>, n: nat): (r: Result<seq<string>, SortOrderError>)
    ensures r.Ok? ==> |r.value| == n
    decreases n
  {
    if n == 0 then Ok([])
    else match Between(after, before)
      case Err(e) => Err(e)
      case Ok(mid) => Around(Bisect(after, Some(mid), n / 2), mid, Bisect(Some(mid), before, n - n / 2 - 1))
  }

  /** Both halves with the middle key between them, or the first refusal. */
  function Around(left: Result<seq<string>, SortOrderError>, mid: string, right: Result<seq<string>, SortOrderError>)
    : Result<seq<string>, SortOrderError>
  {
    if left.Err? then left
    else if right.Err? then right
    else Ok(left.value + [mid] + right.value)
  }

  function Spread(after: Option<string>, before: Option<string>, n: nat): Result<seq<string>, SortOrderError> {
    if n == 0 then
      match Between(after, before)
      case Err(e) => Err(e)
      case Ok(_) => Ok([])
    else
      Bisect(after, before, n)
  }

  /** Strictly increasing, as strings, through the whole sequence. */
  ghost predicate Ascending(keys: seq<string>) {
    forall i, j | 0 <= i < j < |keys| :: Less(keys[i], keys[j])
  }

  /** Keys of a run may be this much longer than the longer bound: the bit length of `n`. */
  function BitLength(n: nat): nat {
    if n == 0 then 0 else 1 + BitLength(n / 2)
  }

  lemma {:induction false} BitLengthIsMonotone(m: nat, n: nat)
    requires m <= n
    ensures BitLength(m) <= BitLength(n)
  {
    if m > 0 {
      BitLengthIsMonotone(m / 2, n / 2);
    }
  }

  /** `n` keys in order, all inside the bounds, none longer than the longer bound plus `growth`. */
  ghost predicate RunOfKeys(keys: seq<string>, after: Option<string>, before: Option<string>, n: nat, growth: nat) {
    && |keys| == n
    && Ascending(keys)
    && (forall k | k in keys :: IsValid(k) && StrictlyInside(k, after, before) && Fits(k, after, before, growth))
  }

  predicate Fits(key: string, after: Option<string>, before: Option<string>, growth: nat) {
    |key| <= Max(|after.GetOr("")|, |before.GetOr("")|) + growth
  }

  lemma {:induction false} BisectUnfolds(after: Option<string>, before: Option<string>,
                                         n: nat, mid: string, left: seq<string>, right: seq<string>)
    requires n > 0 && Between(after, before) == Ok(mid)
    requires Bisect(after, Some(mid), n / 2) == Ok(left)
    requires Bisect(Some(mid), before, n - n / 2 - 1) == Ok(right)
    ensures Bisect(after, before, n) == Ok(left + [mid] + right)
  {
  }

  lemma {:induction false} BisectFillsTheGap(after: Option<string>, before: Option<string>, n: nat)
    returns (keys: seq<string>)
    requires Admits(after, before)
    ensures Bisect(after, before, n) == Ok(keys) && RunOfKeys(keys, after, before, n, BitLength(n))
    decreases n
  {
    if n == 0 {
      return [];
    }
    BetweenIsDense(after, before);
    var mid := Between(after, before).value;
    var l, r := n / 2, n - n / 2 - 1;
    BitLengthIsMonotone(r, l);
    var left := BisectFillsTheGap(after, Some(mid), l);
    var right := BisectFillsTheGap(Some(mid), before, r);
    BisectUnfolds(after, before, n, mid, left, right);
    JoinRuns(left, mid, right, after, before, l, r, BitLength(l), BitLength(r));
    keys := left + [mid] + right;
  }

  lemma {:induction false} JoinRuns(left: seq<string>, mid: string, right: seq<string>,
                                    after: Option<string>, before: Option<string>,
                                    l: nat, r: nat, growthLeft: nat, growthRight: nat)
    requires IsValid(mid) && StrictlyInside(mid, after, before) && Fits(mid, after, before, 1)
    requires RunOfKeys(left, after, Some(mid), l, growthLeft)
    requires RunOfKeys(right, Some(mid), before, r, growthRight)
    requires growthRight <= growthLeft
    ensures RunOfKeys(left + [mid] + right, after, before, l + r + 1, growthLeft + 1)
  {
    var keys := left + [mid] + right;
    forall k | k in keys
      ensures IsValid(k) && StrictlyInside(k, after, before) && Fits(k, after, before, growthLeft + 1)
    {
      if k in left && before.Some? {
        LessIsTransitive(k, mid, before.value);
      }
      if k in right {
        LessIsTransitive(after.GetOr(""), mid, k);
      }
    }
    forall i, j | 0 <= i < j < |keys|
      ensures Less(keys[i], keys[j])
    {
      if i < |left| {
        assert keys[i] in left;
      }
      if j > |left| {
        assert keys[j] == right[j - |left| - 1] && keys[j] in right;
      }
      if i < |left| < j {
        LessIsTransitive(keys[i], mid, keys[j]);
      } else if i > |left| {
        assert keys[i] == right[i - |left| - 1];
      }
    }
  }

  /** A run of `n` rows dropped into one gap: it gets `n` keys, in order, all
      strictly inside the gap, exactly when the gap admits one. */
  lemma {:induction false} SpreadFillsTheGap(after: Option<string>, before: Option<string>, n: nat)
    ensures Spread(after, before, n).Ok? <==> Admits(after, before)
    ensures Spread(after, before, n).Ok? ==>
              RunOfKeys(Spread(after, before, n).value, after, before, n, BitLength(n))
  {
    BetweenIsDense(after, before);
    if Admits(after, before) {
      var keys := BisectFillsTheGap(after, before, n);
    }
  }

  /** Nothing but the digit zero. */
  predicate AllZero(s: string) {
    forall c | c in s :: c == 'A'
  }

  /** Two strings of digits in ascending order admit nothing between them exactly
      when the second is the first and zeros: then they spell one number. */
  lemma {:induction false} SortedBoundsAdmitNothingIff(a: string, b: string)
    requires WellFormed(a) && WellFormed(b) && Less(a, b)
    ensures Between(Some(a), Some(b)) == Err(NotIncreasing) <==> |a| <= |b| && b[..|a|] == a && AllZero(b[|a|..])
  {
    SmallerSortsFirstOnly(a, b);
    if SameNumber(a, b) {
      SortedSpellingIsPadded(a, b);
      forall c | c in b[|a|..]
        ensures c == 'A'
      {
        var i :| 0 <= i < |b[|a|..]| && b[|a|..][i] == c;
        assert Digit(b, |a| + i) == Digit(a, |a| + i);
      }
    }
    if |a| <= |b| && b[..|a|] == a && AllZero(b[|a|..]) {
      forall i | 0 <= i < Max(|a|, |b|)
        ensures Digit(a, i) == Digit(b, i)
      {
        if i < |a| {
          assert b[..|a|][i] == a[i];
        } else {
          assert b[|a|..][i - |a|] in b[|a|..];
        }
      }
    }
  }

  lemma {:induction false} SmallerSortsFirstOnly(a: string, b: string)
    requires Less(a, b)
    ensures !Less(b, a)
    decreases |a|
  {
    if a != "" && a[0] == b[0] {
      SmallerSortsFirstOnly(a[1..], b[1..]);
    }
  }

  lemma {:induction false} SortedSpellingIsPadded(a: string, b: string)
    requires WellFormed(a) && WellFormed(b) && Less(a, b) && SameNumber(a, b)
    ensures |a| <= |b| && b[..|a|] == a
    decreases |a|
  {
    if a != "" {
      assert Digit(a, 0) == Digit(b, 0);
      assert a[0] == b[0];
      var a', b' := a[1..], b[1..];
      forall i | 0 <= i < Max(|a'|, |b'|)
        ensures Digit(a', i) == Digit(b', i)
      {
        assert Digit(a, i + 1) == Digit(b, i + 1);
      }
      SortedSpellingIsPadded(a', b');
      assert b[..|a|] == [b[0]] + b'[..|a'|] && a == [a[0]] + a';
    }
  }

  /** So between `"AB"` and `"ABA"`, which are in order, there is nothing. */
  lemma {:induction false} SortedSpellingsOfOneNumberAdmitNothing()
    ensures Less("AB", "ABA") && Between(Some("AB"), Some("ABA")) == Err(NotIncreasing)
  {
    assert Less("B", "BA") by {
      assert "B"[1..] == "" && "BA"[1..] == "A";
    }
    assert "AB"[1..] == "B" && "ABA"[1..] == "BA";
    SortedBoundsAdmitNothingIff("AB", "ABA");
    assert "ABA"[..2] == "AB" && "ABA"[2..] == "A";
  }
}
