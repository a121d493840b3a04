/** The line drawing of the display driver: two error accumulators over the distance along the longer axis. */
module Line {

  import opened Arithmetic

  /** The step along an axis: its direction. */
  function Sign(x: int): int {
    if x > 0 then 1 else if x == 0 then 0 else -1
  }

  /** One axis after t rounds: the accumulated error and the steps made, for an axis distance d and a
      total distance n. */
  function Axis(t: nat, d: nat, n: nat): (int, nat) {
    if t == 0 then (0, 0) else
    var (err, s) := Axis(t - 1, d, n);
    if err + d > n then (err + d - n, s + 1) else (err + d, s)
  }

  function Steps(t: nat, d: nat, n: nat): nat {
    Axis(t, d, n).1
  }

  /** The accumulator keeps what the steps have not used up, and never more than one step's worth. */
  lemma {:induction false} AxisInvariant(t: nat, d: nat, n: nat)
    requires d <= n
    ensures var (err, s) := Axis(t, d, n);
            && err == t * d - s * n
            && (if t > 0 && d > 0 then 0 < err <= n else err == s == 0)
  {
    if t > 0 {
      AxisInvariant(t - 1, d, n);
      var (err, s) := Axis(t - 1, d, n);
      assert t * d == (t - 1) * d + d;
      assert (s + 1) * n == s * n + n;
    }
  }

  /** Pixel t has made the number of steps that is the ceiling of t * d / n, less one. */
  lemma StepsAreCeiling(t: nat, d: nat, n: nat)
    requires 0 < t && 0 < d <= n
    ensures var s := Steps(t, d, n); s * n < t * d <= (s + 1) * n
  {
    AxisInvariant(t, d, n);
    var s := Steps(t, d, n);
    assert (s + 1) * n == s * n + n;
  }

  /** A number has one ceiling only. */
  lemma CeilingUnique(x: int, n: nat, s: int, r: int)
    requires n > 0 && s * n < x <= (s + 1) * n && r * n < x <= (r + 1) * n
    ensures s == r
  {
    assert s < r ==> (s + 1) * n <= r * n by { Grows(s + 1, r, n); }
    assert r < s ==> (r + 1) * n <= s * n by { Grows(r + 1, s, n); }
  }

  /** The longer axis moves one step in every round but the first. */
  lemma MajorAxis(t: nat, n: nat)
    requires 0 < t && 0 < n
    ensures Steps(t, n, n) == t - 1
  {
    StepsAreCeiling(t, n, n);
    CeilingUnique(t * n, n, Steps(t, n, n), t - 1);
  }

  /** The last pixel, number n + 1, has made every step of either axis. */
  lemma LastPixel(d: nat, n: nat)
    requires d <= n
    ensures Steps(n + 1, d, n) == d
  {
    AxisInvariant(n + 1, d, n);
    if d > 0 {
      StepsAreCeiling(n + 1, d, n);
      assert (n + 1) * d == d * n + d;
      assert (d + 1) * n == d * n + n;
      CeilingUnique((n + 1) * d, n, Steps(n + 1, d, n), d);
    }
  }

  /** One round moves an axis by one step or not at all. */
  lemma OneStep(t: nat, d: nat, n: nat)
    ensures Steps(t, d, n) <= Steps(t + 1, d, n) <= Steps(t, d, n) + 1
  {
  }

  lemma {:induction false} StepsMonotone(t: nat, u: nat, d: nat, n: nat)
    requires t <= u
    ensures Steps(t, d, n) <= Steps(u, d, n)
  {
    if t < u {
      StepsMonotone(t, u - 1, d, n);
      OneStep(u - 1, d, n);
    }
  }

  /** The axis is never a whole step away from the ideal line, which after t - 1 of n rounds has gone
      (t - 1) * d / n. */
  lemma Deviation(t: nat, d: nat, n: nat)
    requires 0 < t && d <= n && 0 < n
    ensures Abs(Steps(t, d, n) * n - (t - 1) * d) < n
  {
    AxisInvariant(t, d, n);
    assert t * d == (t - 1) * d + d;
  }

  /** The coordinate on one axis, from a towards b, in round t of a line of distance n. */
  function At(a: int, b: int, n: nat, t: nat): int {
    if a < b then a + Steps(t, b - a, n) else if a == b then a else a - Steps(t, a - b, n)
  }

  /** The pixel lcd_draw_line draws in round t. */
  function Pixel(x1: int, y1: int, x2: int, y2: int, t: nat): (int, int) {
    (At(x1, x2, Distance(x1, y1, x2, y2), t), At(y1, y2, Distance(x1, y1, x2, y2), t))
  }

  /** One round on one axis. */
  lemma AtNext(a: int, b: int, n: nat, t: nat)
    ensures At(a, b, n, 0) == a
    ensures var d, err := Abs(b - a), Axis(t, Abs(b - a), n).0;
            && Axis(t + 1, d, n).0 == (if err + d > n then err + d - n else err + d)
            && At(a, b, n, t + 1) == (if err + d > n then At(a, b, n, t) + Sign(b - a) else At(a, b, n, t))
  {
  }

  predicate Between(a: int, x: int, b: int) {
    a <= x <= b || b <= x <= a
  }

  function Distance(x1: int, y1: int, x2: int, y2: int): nat {
    Max(Abs(x2 - x1), Abs(y2 - y1))
  }

  /** The direction and the length of an axis. */
  method Direction(delta: int) returns (inc: int, length: int)
    ensures inc == Sign(delta) && length == Abs(delta)
  {
    length := delta;
    if delta > 0 {
      inc := 1;
    } else if delta == 0 {
      inc := 0;
    } else {
      inc, length := -1, -delta;
    }
  }

  /** The variables of one axis, from a towards b, after t rounds. */
  predicate OnAxis(err: int, pos: int, a: int, b: int, n: nat, t: nat) {
    err == Axis(t, Abs(b - a), n).0 && pos == At(a, b, n, t)
  }

  /** One round of the loop on one axis. */
  method Advance(err: int, pos: int, delta: int, inc: int, distance: nat, ghost a: int, ghost b: int, ghost t: nat)
    returns (err': int, pos': int)
    requires OnAxis(err, pos, a, b, distance, t) && delta == Abs(b - a) && inc == Sign(b - a)
    ensures OnAxis(err', pos', a, b, distance, t + 1)
  {
    AtNext(a, b, distance, t);
    err', pos' := err + delta, pos;
    if err' > distance {
      err', pos' := err' - distance, pos + inc;
    }
  }

  /** The pixels are those of the line, from its first on. */
  ghost predicate Drawn(pixels: seq<(int, int)>, x1: int, y1: int, x2: int, y2: int) {
    forall t :: 0 <= t < |pixels| ==> pixels[t] == Pixel(x1, y1, x2, y2, t)
  }

  lemma DrawnNext(pixels: seq<(int, int)>, x1: int, y1: int, x2: int, y2: int,
                  xerr: int, yerr: int, row: int, col: int)
    requires Drawn(pixels, x1, y1, x2, y2)
    requires OnAxis(xerr, row, x1, x2, Distance(x1, y1, x2, y2), |pixels|)
    requires OnAxis(yerr, col, y1, y2, Distance(x1, y1, x2, y2), |pixels|)
    ensures Drawn(pixels + [(row, col)], x1, y1, x2, y2)
  {
  }

  /** lcd_draw_line for at most so many rounds: the pixels in the order in which they are drawn, and whether the loop
      ended. It ends with the end point, or, when no value of the 16-bit counter t lies beyond its last round, never:
      then it draws on along the line. */
  method DrawLine(x1: int, y1: int, x2: int, y2: int, rounds: nat) returns (pixels: seq<(int, int)>, ended: bool)
    requires 0 <= x1 <= UINT16_MAX && 0 <= y1 <= UINT16_MAX && 0 <= x2 <= UINT16_MAX && 0 <= y2 <= UINT16_MAX
    ensures var n := Distance(x1, y1, x2, y2);
            && (ended <==> CounterSuffices(n) && n + 2 <= rounds)
            && |pixels| == (if ended then n + 2 else rounds)
    ensures Drawn(pixels, x1, y1, x2, y2)
  {
    var xerr, yerr := 0, 0;
    var dx, dy := x2 - x1, y2 - y1;
    var row, col := x1, y1;
    var incx, incy;
    incx, dx := Direction(dx);
    incy, dy := Direction(dy);
    var distance := if dx > dy then dx else dy;
    pixels := [];
    var t, k := 0, 0;
    assert distance == Distance(x1, y1, x2, y2);
    AtNext(x1, x2, distance, 0);
    AtNext(y1, y2, distance, 0);
    while LoopGoesOn(t, distance) && k < rounds
      invariant k <= rounds && |pixels| == k
      invariant Counts(t, k, distance)
      invariant OnAxis(xerr, row, x1, x2, distance, k) && OnAxis(yerr, col, y1, y2, distance, k)
      invariant Drawn(pixels, x1, y1, x2, y2)
    {
      DrawnNext(pixels, x1, y1, x2, y2, xerr, yerr, row, col);
      pixels := pixels + [(row, col)];
      xerr, row := Advance(xerr, row, dx, incx, distance, x1, x2, k);
      yerr, col := Advance(yerr, col, dy, incy, distance, y1, y2, k);
      CountsOn(t, k, distance);
      t := if t == UINT16_MAX then 0 else t + 1;
      k := k + 1;
    }
    LastCount(t, k, distance);
    ended := !LoopGoesOn(t, distance);
  }

  /** The 16-bit counter t after k rounds: it is k as long as it can leave the loop. */
  predicate Counts(t: nat, k: nat, n: nat) {
    t <= UINT16_MAX && (CounterSuffices(n) ==> t == k <= n + 2)
  }

  lemma CountsOn(t: nat, k: nat, n: nat)
    requires Counts(t, k, n) && LoopGoesOn(t, n)
    ensures Counts(if t == UINT16_MAX then 0 else t + 1, k + 1, n)
  {
  }

  lemma LastCount(t: nat, k: nat, n: nat)
    requires Counts(t, k, n)
    ensures !LoopGoesOn(t, n) <==> CounterSuffices(n) && k == n + 2
  {
  }

  /** The condition of the loop. */
  predicate LoopGoesOn(t: nat, distance: nat) {
    t <= distance + 1
  }

  /** Some value of the 16-bit counter ends the loop. */
  predicate CounterSuffices(n: nat) {
    n + 1 < UINT16_MAX
  }

  /** For a distance of 65534 or 65535 no value of the counter is beyond the last round: the loop never ends. */
  lemma LoopEndsExactlyIf(n: nat)
    ensures CounterSuffices(n) <==> exists t | 0 <= t <= UINT16_MAX :: !LoopGoesOn(t, n)
  {
    if CounterSuffices(n) {
      assert !LoopGoesOn(UINT16_MAX, n);
    }
  }

  /** The drawn line runs from one end point to the other, every pixel touching the one before it, and
      stays inside the box the end points span. */
  lemma LineConnects(x1: int, y1: int, x2: int, y2: int, t: nat)
    requires t <= Distance(x1, y1, x2, y2) + 1
    ensures Pixel(x1, y1, x2, y2, 0) == (x1, y1)
    ensures Pixel(x1, y1, x2, y2, Distance(x1, y1, x2, y2) + 1) == (x2, y2)
    ensures var (x, y) := Pixel(x1, y1, x2, y2, t);
            var (u, v) := Pixel(x1, y1, x2, y2, t + 1);
            && Abs(u - x) <= 1 && Abs(v - y) <= 1
            && Between(x1, x, x2) && Between(y1, y, y2)
  {
    var n := Distance(x1, y1, x2, y2);
    AxisLands(x1, x2, n, t);
    AxisLands(y1, y2, n, t);
  }

  lemma AxisLands(a: int, b: int, n: nat, t: nat)
    requires Abs(b - a) <= n && t <= n + 1
    ensures At(a, b, n, 0) == a && At(a, b, n, n + 1) == b
    ensures Between(a, At(a, b, n, t), b)
    ensures Abs(At(a, b, n, t + 1) - At(a, b, n, t)) <= 1
  {
    var d := Abs(b - a);
    LastPixel(d, n);
    OneStep(t, d, n);
    StepsMonotone(t, n + 1, d, n);
  }
}
