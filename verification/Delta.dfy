/** Differences of readings of a counter that wraps around. */
module Delta {
  datatype OnNegative = Skip | Reset | Process | Overflow(floor: real, ceil: real)

  function CalcDelta(current: real, prev: real, onNegative: OnNegative): real {
    if onNegative.Overflow? && current < prev
    then (onNegative.ceil - prev) + (current - onNegative.floor)
    else current - prev
  }

  /** The counter shows the true count `x` in [floor, ceil), having wrapped `turns` times. */
  ghost predicate Shows(x: real, turns: int, reading: real, floor: real, ceil: real) {
    floor <= reading < ceil && x == reading + turns as real * (ceil - floor)
  }

  ghost predicate AllShow(xs: seq<real>, turns: seq<int>, readings: seq<real>, floor: real, ceil: real) {
    && |xs| == |turns| == |readings|
    && forall i :: 0 <= i < |xs| ==> Shows(xs[i], turns[i], readings[i], floor, ceil)
  }

  function SumOfDeltas(readings: seq<real>, onNegative: OnNegative): real
    decreases |readings|
  {
    if |readings| < 2 then 0.0
    else CalcDelta(readings[1], readings[0], onNegative) + SumOfDeltas(readings[1..], onNegative)
  }

  lemma TurnsBound(k: int, range: real, d: real)
    requires range > 0.0 && k as real * range == d
    ensures -range < d < range ==> k == 0
    ensures 0.0 < d < 2.0 * range ==> k == 1
    ensures d >= 0.0 ==> k >= 0
    ensures d > 0.0 ==> k >= 1
  {
    if k >= 1 {
      assert (k - 1) as real * range >= 0.0;
    }
    if k <= -1 {
      assert (-1 - k) as real * range >= 0.0;
    }
    if k >= 2 {
      assert (k - 2) as real * range >= 0.0;
    }
  }

  /** One delta lies in [0, range) and is the true advance exactly when the count advanced by less than the range. */
  lemma DeltaIsAdvance(x: real, t: int, r: real, x': real, t': int, r': real, floor: real, ceil: real)
    requires Shows(x, t, r, floor, ceil) && Shows(x', t', r', floor, ceil) && x <= x'
    ensures 0.0 <= CalcDelta(r', r, Overflow(floor, ceil)) < ceil - floor
    ensures CalcDelta(r', r, Overflow(floor, ceil)) == x' - x <==> x' - x < ceil - floor
  {
    var range := ceil - floor;
    var k := t' - t;
    assert k as real * range == (x' - x) - (r' - r) by {
      assert k as real == t' as real - t as real;
      assert k as real * range == t' as real * range - t as real * range;
    }
    TurnsBound(k, range, (x' - x) - (r' - r));
  }

  /** In the other modes, and while the readings do not fall, the deltas sum up to the difference of the ends. */
  lemma {:induction false} PlainDeltasSumUp(readings: seq<real>, onNegative: OnNegative)
    requires readings != []
    requires onNegative.Overflow? ==> forall i :: 0 <= i < |readings| - 1 ==> readings[i] <= readings[i + 1]
    ensures SumOfDeltas(readings, onNegative) == readings[|readings| - 1] - readings[0]
    decreases |readings|
  {
    if |readings| > 1 {
      PlainDeltasSumUp(readings[1..], onNegative);
    }
  }

  /**
   The deltas of any number of readings sum up to the true total advance, if no two readings in a row are a
   whole range apart.
   */
  lemma {:induction false} DeltasSumUp(xs: seq<real>, turns: seq<int>, readings: seq<real>, floor: real, ceil: real)
    requires xs != [] && AllShow(xs, turns, readings, floor, ceil)
    requires forall i :: 0 <= i < |xs| - 1 ==> xs[i] <= xs[i + 1] < xs[i] + (ceil - floor)
    ensures SumOfDeltas(readings, Overflow(floor, ceil)) == xs[|xs| - 1] - xs[0]
    decreases |xs|
  {
    if |xs| > 1 {
      DeltaIsAdvance(xs[0], turns[0], readings[0], xs[1], turns[1], readings[1], floor, ceil);
      DeltasSumUp(xs[1..], turns[1..], readings[1..], floor, ceil);
    }
  }
}
