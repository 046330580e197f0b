/** Dragging a block on the grid, snapped and kept in its day
    (apps/apple/Sunrise/Calendar/BlockLayout.swift:156-220). */
module BlockDrag {
  import opened Wrappers

  const MINUTE: int := 60000

  /** Division and remainder as the source's integers do them, toward zero. */
  function Quotient(a: int, b: int): int
    requires b > 0
  {
    if a >= 0 then a / b else -((-a) / b)
  }

  function Remainder(a: int, b: int): int
    requires b > 0
  {
    a - Quotient(a, b) * b
  }

  function StepOf(minutes: int): (step: int)
    ensures step >= MINUTE && step % 2 == 0
  {
    Max(1, minutes) * MINUTE
  }

  function Snap(ms: int, minutes: int, dayStart: int): int {
    var step := StepOf(minutes);
    var offset := ms - dayStart;
    dayStart + Quotient(offset, step) * step + (if Remainder(offset, step) >= step / 2 then step else 0)
  }

  datatype Mode = Move | ResizeEnd

  datatype Span = Span(start: int, end: int)

  function Dragged(mode: Mode, span: Span, delta: int, minutes: int, dayStart: int, dayEnd: int): Span {
    var step := StepOf(minutes);
    match mode
    case Move =>
      var length := Max(step, span.end - span.start);
      var latest := Max(dayStart, dayEnd - length);
      var start := Min(Max(Snap(span.start + delta, minutes, dayStart), dayStart), latest);
      Span(start, start + length)
    case ResizeEnd =>
      var lowest := Min(span.start + step, dayEnd);
      Span(span.start, Min(Max(Snap(span.end + delta, minutes, dayStart), lowest), dayEnd))
  }

  function Distance(a: int, b: int): nat {
    if a <= b then b - a else a - b
  }

  /** A boundary of the grid, and no boundary nearer. */
  ghost predicate IsNearest(at: int, ms: int, step: int, dayStart: int) {
    && (exists k: int :: at == dayStart + k * step)
    && forall k: int :: Distance(at, ms) <= Distance(dayStart + k * step, ms)
  }

  lemma {:induction false} AtLeastOneStep(n: nat, step: int)
    requires step > 0 && n >= 1
    ensures n * step >= step
  {
    if n > 1 {
      AtLeastOneStep(n - 1, step);
      assert n * step == (n - 1) * step + step;
    }
  }

  lemma MultiplesAreApart(a: int, k: int, step: int)
    requires step > 0 && a != k
    ensures a < k ==> a * step + step <= k * step
    ensures a > k ==> k * step + step <= a * step
  {
    AtLeastOneStep(if a < k then k - a else a - k, step);
    assert (k - a) * step == k * step - a * step;
    assert (a - k) * step == a * step - k * step;
  }

  lemma {:induction false} NearestIfHalfwayOrLess(q: int, ms: int, step: int, dayStart: int)
    requires step > 0 && 2 * Distance(dayStart + q * step, ms) <= step
    ensures IsNearest(dayStart + q * step, ms, step, dayStart)
  {
    forall k: int
      ensures Distance(dayStart + q * step, ms) <= Distance(dayStart + k * step, ms)
    {
      if k != q {
        MultiplesAreApart(q, k, step);
      }
    }
  }

  lemma QuotientBounds(a: int, b: int)
    requires b > 0
    ensures a >= 0 ==> 0 <= Remainder(a, b) < b
    ensures a < 0 ==> -b < Remainder(a, b) <= 0
    ensures a == Quotient(a, b) * b + Remainder(a, b)
  {
    if a < 0 {
      assert -a == ((-a) / b) * b + (-a) % b;
      NegatedProduct((-a) / b, b);
    } else {
      assert a == (a / b) * b + a % b;
    }
  }

  lemma NegatedProduct(a: int, b: int)
    ensures (-a) * b == -(a * b)
  {}

  /** Snapping is to the nearest boundary exactly when the drag is not more than
      half a step past the last boundary before the day's start side: always from
      midnight on, and above midnight only where rounding toward it is nearest. */
  lemma {:induction false} SnapIsNearestIff(ms: int, minutes: int, dayStart: int)
    ensures var step := StepOf(minutes);
            IsNearest(Snap(ms, minutes, dayStart), ms, step, dayStart)
            <==> ms >= dayStart || 2 * Remainder(ms - dayStart, step) >= -step
  {
    var step, offset := StepOf(minutes), ms - dayStart;
    var q, r := Quotient(offset, step), Remainder(offset, step);
    QuotientBounds(offset, step);
    if r >= step / 2 {
      assert (q + 1) * step == q * step + step;
      NearestIfHalfwayOrLess(q + 1, ms, step, dayStart);
    } else if 2 * r >= -step {
      NearestIfHalfwayOrLess(q, ms, step, dayStart);
    } else {
      assert (q - 1) * step == q * step - step;
      assert Distance(dayStart + (q - 1) * step, ms) < Distance(Snap(ms, minutes, dayStart), ms);
    }
  }

  /** A moved block keeps its length, a step at least, and stays in a day it fits in. */
  lemma MoveKeepsItsLength(span: Span, delta: int, minutes: int, dayStart: int, dayEnd: int)
    requires dayStart <= dayEnd
    ensures var length, moved := Max(StepOf(minutes), span.end - span.start), Dragged(Move, span, delta, minutes, dayStart, dayEnd);
            && moved.end - moved.start == length && moved.start >= dayStart
            && (moved.end <= dayEnd <==> length <= dayEnd - dayStart)
  {}

  /** A resize is meant never to leave less than one step, and does exactly when
      less than one step of the day is left after the block's start. */
  lemma ResizeLeavesAStepIff(span: Span, delta: int, minutes: int, dayStart: int, dayEnd: int)
    ensures var resized := Dragged(ResizeEnd, span, delta, minutes, dayStart, dayEnd);
            && resized.start == span.start && resized.end <= dayEnd
            && (resized.end - resized.start >= StepOf(minutes) <==> span.start + StepOf(minutes) <= dayEnd)
  {}
}
