/** Splitting, joining and numbers in text, as the Rust standard library does them. */
module Text {
  import opened Wrappers

  /** `str::split` on one character: never empty. */
  function Split(s: string, c: char): (parts: seq<string>)
    ensures parts != []
  {
    if s == "" then [""]
    else
      var rest := Split(s[1..], c);
      if s[0] == c then [""] + rest else [[s[0]] + rest[0]] + rest[1..]
  }

  function Join(parts: seq<string>, c: char): string {
    if parts == [] then ""
    else if |parts| == 1 then parts[0]
    else parts[0] + ([c] + Join(parts[1..], c))
  }

  predicate Without(s: string, c: char) {
    forall i | 0 <= i < |s| :: s[i] != c
  }

  predicate AllWithout(parts: seq<string>, c: char) {
    forall i | 0 <= i < |parts| :: Without(parts[i], c)
  }

  /** No part holds the separator, nor any character the whole did not. */
  lemma {:induction false} SplitParts(s: string, c: char, d: char)
    requires d == c || Without(s, d)
    ensures AllWithout(Split(s, c), d)
  {
    if s != "" {
      SplitParts(s[1..], c, d);
    }
  }

  lemma {:induction false} SplitHead(head: string, c: char, tail: string)
    requires Without(head, c)
    ensures Split(head + ([c] + tail), c) == [head] + Split(tail, c)
    decreases head
  {
    if head == "" {
      assert head + ([c] + tail) == [c] + tail;
      assert ([c] + tail)[1..] == tail;
    } else {
      SplitHead(head[1..], c, tail);
      var s := head + ([c] + tail);
      assert s[1..] == head[1..] + ([c] + tail) && s[0] == head[0];
      assert head == [head[0]] + head[1..];
    }
  }

  lemma {:induction false} SplitWhole(s: string, c: char)
    requires Without(s, c)
    ensures Split(s, c) == [s]
  {
    if s != "" {
      SplitWhole(s[1..], c);
      assert s == [s[0]] + s[1..];
    }
  }

  /** Joined parts are split back where none of them holds the separator. */
  lemma {:induction false} SplitJoin(parts: seq<string>, c: char)
    requires parts != [] && AllWithout(parts, c)
    ensures Split(Join(parts, c), c) == parts
    decreases |parts|
  {
    if |parts| == 1 {
      SplitWhole(parts[0], c);
    } else {
      SplitJoin(parts[1..], c);
      SplitHead(parts[0], c, Join(parts[1..], c));
      assert parts == [parts[0]] + parts[1..];
    }
  }

  lemma {:induction false} JoinWithout(parts: seq<string>, c: char, d: char)
    requires AllWithout(parts, d) && c != d
    ensures Without(Join(parts, c), d)
    decreases |parts|
  {
    if |parts| > 1 {
      JoinWithout(parts[1..], c, d);
    }
  }

  /** `str::split_once`: before and after the first of them, if there is one. */
  function SplitOnce(s: string, c: char): Option<(string, string)> {
    if s == "" then None
    else if s[0] == c then Some(("", s[1..]))
    else match SplitOnce(s[1..], c)
      case None => None
      case Some((before, after)) => Some(([s[0]] + before, after))
  }

  lemma {:induction false} SplitOnceAt(key: string, c: char, value: string)
    requires Without(key, c)
    ensures SplitOnce(key + ([c] + value), c) == Some((key, value))
    decreases key
  {
    if key == "" {
      assert key + ([c] + value) == [c] + value;
      assert ([c] + value)[1..] == value;
    } else {
      SplitOnceAt(key[1..], c, value);
      var s := key + ([c] + value);
      assert s[1..] == key[1..] + ([c] + value) && s[0] == key[0];
      assert key == [key[0]] + key[1..];
    }
  }

  lemma {:induction false} SplitOnceParts(s: string, c: char, d: char)
    requires Without(s, d) && SplitOnce(s, c).Some?
    ensures Without(SplitOnce(s, c).value.0, d) && Without(SplitOnce(s, c).value.1, d)
  {
    if s[0] != c {
      SplitOnceParts(s[1..], c, d);
    }
  }

  // ---- Numbers ----

  predicate IsDigit(c: char) {
    '0' <= c <= '9'
  }

  predicate AllDigits(s: string) {
    forall i | 0 <= i < |s| :: IsDigit(s[i])
  }

  function NatText(n: nat): (s: string)
    ensures s != "" && AllDigits(s)
  {
    if n < 10 then ['0' + n as char] else NatText(n / 10) + ['0' + (n % 10) as char]
  }

  function IntText(n: int): string {
    if n < 0 then "-" + NatText(-n) else NatText(n)
  }

  function NatValue(s: string): nat
    requires AllDigits(s)
  {
    if s == "" then 0 else NatValue(s[..|s| - 1]) * 10 + (s[|s| - 1] as int - '0' as int)
  }

  lemma {:induction false} NatTextIsRead(n: nat)
    ensures NatValue(NatText(n)) == n
  {
    if n < 10 {
      assert NatText(n)[..0] == "";
    } else {
      NatTextIsRead(n / 10);
      assert NatText(n)[..|NatText(n)| - 1] == NatText(n / 10);
    }
  }

  function IntValue(s: string): int {
    if s != "" && s[0] == '-' then (if AllDigits(s[1..]) then 0 - NatValue(s[1..]) else 0)
    else if AllDigits(s) then NatValue(s) else 0
  }

  /** A number written out is the number it says. */
  lemma {:induction false} IntTextReads(n: int)
    ensures IntValue(IntText(n)) == n
  {
    if n < 0 {
      NatTextIsRead(-n);
      assert IntText(n)[1..] == NatText(-n);
    } else {
      NatTextIsRead(n);
      assert IsDigit(NatText(n)[0]);
    }
  }

  const MAX_U32: int := 0xffff_ffff
  const MAX_I32: int := 0x7fff_ffff

  function Digits(s: string, limit: int): Option<nat> {
    if s != "" && AllDigits(s) && NatValue(s) <= limit then Some(NatValue(s)) else None
  }

  /** `str::parse::<u32>`: digits, after a `+` or not. */
  function ReadU32(s: string): (r: Option<nat>)
    ensures r.Some? ==> r.value <= MAX_U32
  {
    Digits(if s != "" && s[0] == '+' then s[1..] else s, MAX_U32)
  }

  /** `str::parse::<i32>`: digits, after a sign or not. */
  function ReadI32(s: string): (r: Option<int>)
    ensures r.Some? ==> -MAX_I32 - 1 <= r.value <= MAX_I32
  {
    if s != "" && s[0] == '-' then
      match Digits(s[1..], MAX_I32 + 1)
      case Some(n) => Some(0 - n)
      case None => None
    else
      match Digits(if s != "" && s[0] == '+' then s[1..] else s, MAX_I32)
      case Some(n) => Some(n)
      case None => None
  }

  lemma {:induction false} U32IsRead(n: nat)
    requires n <= MAX_U32
    ensures ReadU32(NatText(n)) == Some(n)
  {
    NatTextIsRead(n);
    assert IsDigit(NatText(n)[0]);
  }

  lemma {:induction false} I32IsRead(n: int)
    requires -MAX_I32 - 1 <= n <= MAX_I32
    ensures ReadI32(IntText(n)) == Some(n)
  {
    if n < 0 {
      NatTextIsRead(-n);
      assert IntText(n)[1..] == NatText(-n);
    } else {
      NatTextIsRead(n);
      assert IsDigit(NatText(n)[0]);
    }
  }

  /** A number's text holds only a sign and digits. */
  lemma IntTextWithout(n: int, c: char)
    requires !IsDigit(c) && c != '-'
    ensures Without(IntText(n), c)
  {}
}
