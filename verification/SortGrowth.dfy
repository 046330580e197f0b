/** How long a run of keys gets (crates/sunrise-domain/src/sort_order.rs:267-311).
    Bisection spends a digit on four halvings, so `n` keys lengthen by a digit for
    every factor of sixteen in `n`. */
module SortGrowth {
  import opened Wrappers
  import opened SortOrder

  /** Digits for so many halvings: one for every four begun. */
  function Quarter(levels: nat): nat {
    (levels + 3) / 4
  }

  /** The key between two bounds, by their digits alone; on bounds in order it is `between`'s. */
  function Pick(lo: string, before: Option<string>): string
    decreases |before.GetOr("")|
  {
    match before
    case None => AboveTail(lo)
    case Some(hi) =>
      var a, b := Digit(lo, 0), Digit(hi, 0);
      if hi == "" then ""
      else if b >= a + 2 then [Letter(a + (b - a) / 2)]
      else [Letter(a)] + Pick(Drop(lo, 1), if a == b then Some(Drop(hi, 1)) else None)
  }

  lemma {:induction false} PickIsWalk(lo: string, hi: string)
    requires Value(lo) < Value(hi)
    ensures Pick(lo, Some(hi)) == Walk(lo, hi)
    decreases |hi|
  {
    FirstDigits(lo, hi);
    if Digit(lo, 0) == Digit(hi, 0) {
      PickIsWalk(Drop(lo, 1), Drop(hi, 1));
    }
  }

  lemma PickIsBetween(after: Option<string>, before: Option<string>)
    requires Admits(after, before)
    ensures Between(after, before) == Ok(Pick(after.GetOr(""), before))
  {
    if before.Some? {
      IncreasingBounds(after.GetOr(""), before.value);
      PickIsWalk(after.GetOr(""), before.value);
    }
  }

  /** The key a path of halvings comes to: `true` for the half above a key, `false` for the one below. */
  function KeyAt(lo: string, before: Option<string>, path: seq<bool>): string
    decreases |path|
  {
    var mid := Pick(lo, before);
    if path == [] then mid
    else if path[0] then KeyAt(mid, before, path[1..])
    else KeyAt(lo, Some(mid), path[1..])
  }

  /** Every key put in the gap by so many halvings is no longer than this. */
  ghost predicate Within(lo: string, before: Option<string>, levels: nat, length: nat) {
    forall path | |path| < levels :: |KeyAt(lo, before, path)| <= length
  }

  lemma Halves(lo: string, before: Option<string>, mid: string, levels: nat, left: nat, right: nat, length: nat)
    requires mid == Pick(lo, before) && |mid| <= length && left <= length && right <= length
    requires Within(lo, Some(mid), levels, left) && Within(mid, before, levels, right)
    ensures Within(lo, before, levels + 1, length)
  {
    forall path | |path| < levels + 1 ensures |KeyAt(lo, before, path)| <= length {
      if path != [] && path[0] {
        assert |KeyAt(mid, before, path[1..])| <= right;
      } else if path != [] {
        assert |KeyAt(lo, Some(mid), path[1..])| <= left;
      }
    }
  }

  // ---- A first digit the whole gap shares ----

  /** Below its first digit the gap is the one above `lo`'s tail, up to `rest`. */
  predicate SharesADigit(lo: string, before: Option<string>, rest: Option<string>) {
    var a := Digit(lo, 0);
    match before
    case None => a == LAST && rest.None?
    case Some(hi) =>
      hi != "" && ((a == Digit(hi, 0) && rest == Some(Drop(hi, 1))) || (Digit(hi, 0) == a + 1 && rest.None?))
  }

  lemma SharedGap(lo: string, before: Option<string>, rest: Option<string>)
    requires SharesADigit(lo, before, rest)
    ensures Pick(lo, before) == [Letter(Digit(lo, 0))] + Pick(Drop(lo, 1), rest)
  {}

  lemma TailOf(digit: nat, tail: string)
    requires digit < BASE
    ensures Digit([Letter(digit)] + tail, 0) == digit && Drop([Letter(digit)] + tail, 1) == tail
  {
    assert ([Letter(digit)] + tail)[1..] == tail;
  }

  lemma {:induction false} SharedDigitStays(lo: string, before: Option<string>, rest: Option<string>, path: seq<bool>)
    requires SharesADigit(lo, before, rest)
    ensures KeyAt(lo, before, path) == [Letter(Digit(lo, 0))] + KeyAt(Drop(lo, 1), rest, path)
    decreases |path|
  {
    SharedGap(lo, before, rest);
    if path != [] {
      var inner, mid := Pick(Drop(lo, 1), rest), Pick(lo, before);
      TailOf(Digit(lo, 0), inner);
      if path[0] {
        SharedDigitStays(mid, before, rest, path[1..]);
      } else {
        SharedDigitStays(lo, Some(mid), Some(inner), path[1..]);
      }
    }
  }

  lemma SharedDigitLengthens(lo: string, before: Option<string>, rest: Option<string>, levels: nat, length: nat)
    requires SharesADigit(lo, before, rest) && Within(Drop(lo, 1), rest, levels, length)
    ensures Within(lo, before, levels, length + 1)
  {
    forall path | |path| < levels ensures |KeyAt(lo, before, path)| <= length + 1 {
      SharedDigitStays(lo, before, rest, path);
    }
  }

  // ---- A gap of whole digits ----

  function Only(a: nat): string
    requires a < BASE
  {
    if a == 0 then "" else [Letter(a)]
  }

  /** The digit `b`, or the end of the alphabet. */
  function Upto(b: nat): Option<string>
    requires 0 < b <= BASE
  {
    if b == BASE then None else Some([Letter(b)])
  }

  lemma OnlyDigit(a: nat)
    requires a < BASE
    ensures Digit(Only(a), 0) == a && Drop(Only(a), 1) == ""
  {}

  lemma DigitGap(a: nat, b: nat)
    requires a < b <= BASE
    ensures b - a >= 2 ==> Pick(Only(a), Upto(b)) == Only(a + (b - a) / 2)
    ensures b - a == 1 ==> SharesADigit(Only(a), Upto(b), None)
  {
    OnlyDigit(a);
    if b < BASE {
      OnlyDigit(b);
    }
  }

  function Power(k: nat): (p: nat)
    ensures p > 0
  {
    if k == 0 then 1 else 2 * Power(k - 1)
  }

  /** What is left of `levels` once the digit has been halved `k` times. */
  function Left(levels: nat, k: nat): nat {
    if levels < k then 0 else levels - k
  }

  /** A gap that can be halved `k` times is spent after as many. */
  lemma {:induction false} DigitsLast(a: nat, b: nat, k: nat, levels: nat)
    requires a < b <= BASE && Power(k) <= b - a
    ensures Within(Only(a), Upto(b), levels, 1 + Quarter(Left(levels, k)))
    decreases levels, 1
  {
    if levels > 0 && b - a >= 2 {
      DigitsHalve(a, b, k, levels);
    } else if levels > 0 {
      assert k == 0 && Left(levels, k) == levels;
      DigitGap(a, b);
      OnlyDigit(a);
      EndlessLast(levels);
      SharedDigitLengthens(Only(a), Upto(b), None, levels, Quarter(levels));
    }
  }

  lemma {:induction false} DigitsHalve(a: nat, b: nat, k: nat, levels: nat)
    requires a < b <= BASE && Power(k) <= b - a && b - a >= 2 && levels > 0
    ensures Within(Only(a), Upto(b), levels, 1 + Quarter(Left(levels, k)))
    decreases levels, 0
  {
    DigitGap(a, b);
    var length := 1 + Quarter(Left(levels, k));
    var m := a + (b - a) / 2;
    var k' := if k == 0 then 0 else k - 1;
    DigitsLast(a, m, k', levels - 1);
    DigitsLast(m, b, k', levels - 1);
    var left := 1 + Quarter(Left(levels - 1, k'));
    Halves(Only(a), Upto(b), Only(m), levels - 1, left, left, length);
  }

  /** The gap above nothing at all: four halvings to the digit. */
  lemma {:induction false} EndlessLast(levels: nat)
    ensures Within("", None, levels, Quarter(levels))
    decreases levels, 0
  {
    if levels > 0 {
      assert Only(0) == "" && Upto(26) == None && Upto(13) == Some(Only(13));
      assert Power(3) == 8;
      DigitGap(0, 26);
      DigitsLast(0, 13, 3, levels - 1);
      DigitsLast(13, 26, 3, levels - 1);
      var length := 1 + Quarter(Left(levels - 1, 3));
      Halves("", None, Only(13), levels - 1, length, length, Quarter(levels));
    }
  }

  // ---- Any gap ----

  /** The bounds are numbers in order. */
  ghost predicate InOrder(lo: string, before: Option<string>) {
    before.Some? ==> Value(lo) < Value(before.value)
  }

  function Longest(lo: string, before: Option<string>): nat {
    Max(|lo|, |before.GetOr("")|)
  }

  lemma PickIsInside(lo: string, before: Option<string>)
    requires InOrder(lo, before)
    ensures InOrder(lo, Some(Pick(lo, before))) && InOrder(Pick(lo, before), before)
  {
    match before
    case None => AboveTailIsAbove(lo);
    case Some(hi) =>
      PickIsWalk(lo, hi);
      WalkIsInside(lo, hi);
  }

  /** What a gap in order comes to: one below a shared digit, or one halved at its first digit. */
  lemma ShareOrHalve(lo: string, before: Option<string>) returns (rest: Option<Option<string>>)
    requires InOrder(lo, before) && (lo != "" || before.Some?)
    ensures Longest(lo, before) >= 1
    ensures match rest
            case Some(tail) =>
              && SharesADigit(lo, before, tail) && InOrder(Drop(lo, 1), tail) && Longest(Drop(lo, 1), tail) < Longest(lo, before)
              && |Drop(lo, 1)| + |tail.GetOr("")| < |lo| + |before.GetOr("")|
            case None => |Pick(lo, before)| == 1
  {
    match before {
      case None => rest := if Digit(lo, 0) == LAST then Some(None) else None;
      case Some(hi) =>
        FirstDigits(lo, hi);
        var a, b := Digit(lo, 0), Digit(hi, 0);
        rest := if a == b then Some(Some(Drop(hi, 1))) else if b == a + 1 then Some(None) else None;
    }
  }

  lemma {:induction false} GapsLast(lo: string, before: Option<string>, levels: nat)
    requires InOrder(lo, before)
    ensures Within(lo, before, levels, Longest(lo, before) + Quarter(levels))
    decreases levels, |lo| + |before.GetOr("")|, 1
  {
    if lo == "" && before.None? {
      EndlessLast(levels);
    } else if levels > 0 {
      var rest := ShareOrHalve(lo, before);
      match rest {
        case Some(tail) =>
          var l := Drop(lo, 1);
          GapsLast(l, tail, levels);
          SharedDigitLengthens(lo, before, tail, levels, Longest(l, tail) + Quarter(levels));
        case None =>
          GapsLastHalved(lo, before, levels);
      }
    }
  }

  lemma {:induction false} GapsLastHalved(lo: string, before: Option<string>, levels: nat)
    requires InOrder(lo, before) && levels > 0 && Longest(lo, before) >= 1 && |Pick(lo, before)| == 1
    ensures Within(lo, before, levels, Longest(lo, before) + Quarter(levels))
    decreases levels, |lo| + |before.GetOr("")|, 0
  {
    var mid := Pick(lo, before);
    PickIsInside(lo, before);
    GapsLast(lo, Some(mid), levels - 1);
    GapsLast(mid, before, levels - 1);
    Halves(lo, before, mid, levels - 1,
           Longest(lo, Some(mid)) + Quarter(levels - 1), Longest(mid, before) + Quarter(levels - 1),
           Longest(lo, before) + Quarter(levels));
  }

  // ---- The keys of a run ----

  /** The key at `i` in a run, by `Pick` alone. */
  function KeyOf(lo: string, before: Option<string>, n: nat, i: nat): string
    requires i < n
    decreases n
  {
    var mid := Pick(lo, before);
    if i < n / 2 then KeyOf(lo, Some(mid), n / 2, i)
    else if i == n / 2 then mid
    else KeyOf(mid, before, n - n / 2 - 1, i - n / 2 - 1)
  }

  lemma KeyIsInItsHalf(after: Option<string>, before: Option<string>, n: nat, i: nat)
    requires Bisect(after, before, n).Ok? && i < n
    ensures var mid, key := Some(Pick(after.GetOr(""), before)), Bisect(after, before, n).value[i];
            && (i < n / 2 ==> Bisect(after, mid, n / 2).Ok? && key == Bisect(after, mid, n / 2).value[i])
            && (i == n / 2 ==> key == mid.value)
            && (i > n / 2 ==> Bisect(mid, before, n - n / 2 - 1).Ok? && key == Bisect(mid, before, n - n / 2 - 1).value[i - n / 2 - 1])
  {
    BetweenIsDense(after, before);
    PickIsBetween(after, before);
  }

  lemma KeyOfHalf(lo: string, before: Option<string>, n: nat, i: nat)
    requires i < n
    ensures var mid := Pick(lo, before);
            && (i < n / 2 ==> KeyOf(lo, before, n, i) == KeyOf(lo, Some(mid), n / 2, i))
            && (i == n / 2 ==> KeyOf(lo, before, n, i) == mid)
            && (i > n / 2 ==> KeyOf(lo, before, n, i) == KeyOf(mid, before, n - n / 2 - 1, i - n / 2 - 1))
  {}

  /** A run's key at `i` and `Pick`'s are both those at `j` in a shorter gap. */
  ghost predicate SameIn(after: Option<string>, before: Option<string>, n: nat, i: nat,
                         a: Option<string>, b: Option<string>, m: nat, j: nat)
    requires Bisect(after, before, n).Ok? && i < n
  {
    && j < m < n && Bisect(a, b, m).Ok? && Bisect(after, before, n).value[i] == Bisect(a, b, m).value[j]
    && KeyOf(after.GetOr(""), before, n, i) == KeyOf(a.GetOr(""), b, m, j)
  }

  lemma InTheHalfBelow(after: Option<string>, before: Option<string>, n: nat, i: nat)
    requires Bisect(after, before, n).Ok? && i < n / 2
    ensures SameIn(after, before, n, i, after, Some(Pick(after.GetOr(""), before)), n / 2, i)
  {
    KeyIsInItsHalf(after, before, n, i);
    KeyOfHalf(after.GetOr(""), before, n, i);
  }

  lemma InTheHalfAbove(after: Option<string>, before: Option<string>, n: nat, i: nat)
    requires Bisect(after, before, n).Ok? && n / 2 < i < n
    ensures SameIn(after, before, n, i, Some(Pick(after.GetOr(""), before)), before, n - n / 2 - 1, i - n / 2 - 1)
  {
    KeyIsInItsHalf(after, before, n, i);
    KeyOfHalf(after.GetOr(""), before, n, i);
  }

  lemma {:induction false} KeysAreThese(after: Option<string>, before: Option<string>, n: nat, i: nat)
    requires Bisect(after, before, n).Ok? && i < n
    ensures Bisect(after, before, n).value[i] == KeyOf(after.GetOr(""), before, n, i)
    decreases n, 2
  {
    if i < n / 2 {
      KeysBelowAreThese(after, before, n, i);
    } else if i > n / 2 {
      KeysAboveAreThese(after, before, n, i);
    } else {
      KeyIsInItsHalf(after, before, n, i);
      KeyOfHalf(after.GetOr(""), before, n, i);
    }
  }

  lemma {:induction false} KeysBelowAreThese(after: Option<string>, before: Option<string>, n: nat, i: nat)
    requires Bisect(after, before, n).Ok? && i < n / 2
    ensures Bisect(after, before, n).value[i] == KeyOf(after.GetOr(""), before, n, i)
    decreases n, 1
  {
    InTheHalfBelow(after, before, n, i);
    KeysAreThese(after, Some(Pick(after.GetOr(""), before)), n / 2, i);
  }

  lemma {:induction false} KeysAboveAreThese(after: Option<string>, before: Option<string>, n: nat, i: nat)
    requires Bisect(after, before, n).Ok? && n / 2 < i < n
    ensures Bisect(after, before, n).value[i] == KeyOf(after.GetOr(""), before, n, i)
    decreases n, 1
  {
    var mid, m, j := Pick(after.GetOr(""), before), n - n / 2 - 1, i - n / 2 - 1;
    assert SameIn(after, before, n, i, Some(mid), before, m, j) by {
      InTheHalfAbove(after, before, n, i);
    }
    KeysAreThese(Some(mid), before, m, j);
  }

  lemma KeyBelow(lo: string, before: Option<string>, path: seq<bool>)
    ensures KeyAt(lo, before, [false] + path) == KeyAt(lo, Some(Pick(lo, before)), path)
    ensures KeyAt(lo, before, [true] + path) == KeyAt(Pick(lo, before), before, path)
  {
    assert ([false] + path)[1..] == path && ([true] + path)[1..] == path;
  }

  lemma HalvesAreShorter(n: nat)
    requires n > 0
    ensures BitLength(n / 2) < BitLength(n) && BitLength(n - n / 2 - 1) < BitLength(n)
  {
    BitLengthIsMonotone(n - n / 2 - 1, n / 2);
  }

  /** Every key of a run is where fewer halvings than its number has bits come to. */
  lemma {:induction false} KeyHasAPath(lo: string, before: Option<string>, n: nat, i: nat) returns (path: seq<bool>)
    requires i < n
    ensures |path| < BitLength(n) && KeyOf(lo, before, n, i) == KeyAt(lo, before, path)
    decreases n
  {
    var mid := Pick(lo, before);
    HalvesAreShorter(n);
    if i < n / 2 {
      var p := KeyHasAPath(lo, Some(mid), n / 2, i);
      path := [false] + p;
      KeyBelow(lo, before, p);
    } else if i == n / 2 {
      path := [];
    } else {
      var p := KeyHasAPath(mid, before, n - n / 2 - 1, i - n / 2 - 1);
      path := [true] + p;
      KeyBelow(lo, before, p);
    }
  }

  predicate AllWithin(keys: seq<string>, length: nat) {
    forall i | 0 <= i < |keys| :: |keys[i]| <= length
  }

  /** A run dropped into any gap lengthens its keys by a digit for every four bits
      of its number, and no more. */
  lemma {:induction false} ARunGrowsByAQuarter(after: Option<string>, before: Option<string>, n: nat)
    requires Spread(after, before, n).Ok?
    ensures AllWithin(Spread(after, before, n).value, Longest(after.GetOr(""), before) + Quarter(BitLength(n)))
  {
    SpreadFillsTheGap(after, before, n);
    var lo := after.GetOr("");
    forall i | 0 <= i < n ensures |Spread(after, before, n).value[i]| <= Longest(lo, before) + Quarter(BitLength(n)) {
      KeysAreThese(after, before, n, i);
      var path := KeyHasAPath(lo, before, n, i);
      GapsLast(lo, before, BitLength(n));
    }
  }

  function Sixteens(d: nat): nat {
    if d == 0 then 1 else 16 * Sixteens(d - 1)
  }

  lemma FourHalvings(n: nat)
    ensures BitLength(n) <= 4 + BitLength(n / 16)
    ensures n < 16 ==> BitLength(n) <= 4
  {
    var a, b, c := n / 2, n / 4, n / 8;
    assert BitLength(n) <= 1 + BitLength(a);
    assert a / 2 == b && BitLength(a) <= 1 + BitLength(b);
    assert b / 2 == c && BitLength(b) <= 1 + BitLength(c);
    assert c / 2 == n / 16 && BitLength(c) <= 1 + BitLength(n / 16);
  }

  lemma {:induction false} FewerThanSixteens(n: nat, d: nat)
    requires n < Sixteens(d)
    ensures Quarter(BitLength(n)) <= d
    decreases d
  {
    if d > 0 {
      FourHalvings(n);
      FewerThanSixteens(n / 16, d - 1);
    }
  }

  /** So fewer than sixteen to the `d` keys lengthen by at most `d` digits. */
  lemma {:induction false} ARunGrowsByItsSixteens(after: Option<string>, before: Option<string>, n: nat, d: nat)
    requires Spread(after, before, n).Ok? && n < Sixteens(d)
    ensures AllWithin(Spread(after, before, n).value, Longest(after.GetOr(""), before) + d)
  {
    ARunGrowsByAQuarter(after, before, n);
    FewerThanSixteens(n, d);
  }

  // ---- Sixteen, not twenty-six ----

  lemma PickAfterB(x: nat)
    requires 0 < x < BASE
    ensures Pick("B", Some(['B'] + [Letter(x)])) == if x >= 2 then ['B'] + [Letter(x / 2)] else "BAN"
  {
    var hi := ['B'] + [Letter(x)];
    assert Letter(1) == 'B' && Letter(0) == 'A' && Letter(13) == 'N';
    TailOf(1, [Letter(x)]);
    assert "B"[1..] == "" && [Letter(x)][1..] == "";
    assert Pick("B", Some(hi)) == ['B'] + Pick("", Some([Letter(x)]));
    assert AboveTail("") == "N";
    assert x == 1 ==> Pick("", Some([Letter(x)])) == ['A'] + AboveTail("");
  }

  /** Sixteen keys between two neighbouring letters need two digits more: the first is `BAN`. */
  lemma {:induction false} SixteenKeysNeedTwoDigits(n: nat)
    requires 16 <= n < 32
    ensures Spread(Some("B"), Some("C"), n).Ok? && |Spread(Some("B"), Some("C"), n).value| == n
    ensures Spread(Some("B"), Some("C"), n).value[0] == "BAN"
    ensures !AllWithin(Spread(Some("B"), Some("C"), n).value, Longest("B", Some("C")) + 1)
  {
    OneDigitValues();
    SpreadFillsTheGap(Some("B"), Some("C"), n);
    KeysAreThese(Some("B"), Some("C"), n, 0);
    PickBetweenBAndC();
    FirstOf("B", Some("C"), n);
    EightAndThirteen(n / 2);
    FirstAfterB(13, n / 2);
  }

  lemma EightAndThirteen(n: nat)
    requires 8 <= n < 16
    ensures BitLength(n) == BitLength(13)
  {
    assert BitLength(n) == 1 + BitLength(n / 2) == 2 + BitLength(n / 2 / 2) == 3 + BitLength(n / 2 / 2 / 2) && n / 2 / 2 / 2 == 1;
    assert BitLength(1) == 1 && BitLength(3) == 2 && BitLength(6) == 3;
  }

  lemma {:induction false} FirstAfterB(x: nat, n: nat)
    requires 0 < x < BASE && n > 0 && BitLength(n) == BitLength(x)
    ensures KeyOf("B", Some(['B'] + [Letter(x)]), n, 0) == "BAN"
    decreases n
  {
    PickAfterB(x);
    FirstOf("B", Some(['B'] + [Letter(x)]), n);
    assert BitLength(n) == 1 + BitLength(n / 2) && BitLength(x) == 1 + BitLength(x / 2);
    if n > 1 {
      FirstAfterB(x / 2, n / 2);
    }
  }

  lemma FirstOf(lo: string, before: Option<string>, n: nat)
    requires n > 0
    ensures KeyOf(lo, before, n, 0) == if n == 1 then Pick(lo, before) else KeyOf(lo, Some(Pick(lo, before)), n / 2, 0)
  {}

  lemma PickBetweenBAndC()
    ensures Pick("B", Some("C")) == ['B'] + [Letter(13)]
  {
    assert "B"[1..] == "" && "C"[1..] == "" && AboveTail("") == [Letter(13)];
  }

  lemma OneDigitValues()
    ensures Admits(Some("B"), Some("C"))
  {
    ValueUnfolds("B");
    ValueUnfolds("C");
    assert Drop("B", 1) == "" && Drop("C", 1) == "" && Digit("B", 0) == 1 && Digit("C", 0) == 2;
  }
}
