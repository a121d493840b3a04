/** The channel scaling of the transmitter and the packing of the scaled channels into the HID report. */
module Normalize {
  import opened Arithmetic

  const INT_MAX := 0x7FFF_FFFF
  const CHANNEL_MAX := 8
  const ROLL := 0
  const THROTTLE := 3

  /** The range of one stick: the calibrated minimum, middle and maximum, or the same of an output. */
  datatype Range = Range(min: nat, mid: nat, max: nat)

  predicate Word(x: int) {
    0 <= x < 0x1_0000
  }

  /** a * b / c of the C code, on operands that are not negative. */
  function MulDiv(a: nat, b: nat, c: nat): nat
    requires c > 0
  {
    a * b / c
  }

  function Clamp(v: nat, in_: Range): nat {
    var w := if v > in_.max then in_.max else v;
    if w < in_.min then in_.min else w
  }

  /** Inputs on which the code divides by zero. */
  predicate DividesByZero(v: nat, in_: Range) {
    Clamp(v, in_) >= in_.mid && in_.max == in_.mid
  }

  /** Ranges whose products fit the 32-bit int the code computes in. The middle of the input may lie anywhere, even
      outside minimum and maximum. */
  predicate Scalable(in_: Range, out: Range) {
    && in_.min <= in_.max < 0x1_0000 && in_.mid < 0x1_0000
    && out.min <= out.mid <= out.max < 0x1_0000
    && (in_.max - in_.mid) * (out.max - out.mid) <= INT_MAX
    && (in_.mid - in_.min) * (out.mid - out.min) <= INT_MAX
  }

  /** What the result should be: linear between minimum and middle, and between middle and maximum. */
  function Scaled(v: nat, in_: Range, out: Range): nat
    requires Scalable(in_, out) && !DividesByZero(v, in_)
  {
    var w := Clamp(v, in_);
    if w >= in_.mid then out.mid + MulDiv(w - in_.mid, out.max - out.mid, in_.max - in_.mid)
    else out.min + MulDiv(w - in_.min, out.mid - out.min, in_.mid - in_.min)
  }

  /** The assignment of an int to the 16-bit result. */
  function Truncate(x: nat): (r: nat)
    ensures Word(r) && (Word(x) ==> r == x)
  {
    x % 0x1_0000
  }

  /** radio_data_normalize; the assignment to value_out truncates to 16 bits. */
  method RadioDataNormalize(v: nat, in_: Range, out: Range) returns (valueOut: nat)
    requires Scalable(in_, out) && !DividesByZero(v, in_)
    ensures valueOut == Scaled(v, in_, out)
  {
    var value := v;
    if value > in_.max {
      value := in_.max;
    }
    if value < in_.min {
      value := in_.min;
    }
    ScaledBounds(v, in_, out);
    ProductsFit(v, in_, out);
    if value >= in_.mid {
      valueOut := Truncate(out.mid + MulDiv(value - in_.mid, out.max - out.mid, in_.max - in_.mid));
    } else {
      valueOut := Truncate(out.min + MulDiv(value - in_.min, out.mid - out.min, in_.mid - in_.min));
    }
  }

  /** The code divides by zero exactly when the middle was calibrated at the maximum and the stick reaches it, which
      it always does when the minimum is there as well. */
  lemma DivisionDefined(v: nat, in_: Range)
    requires in_.min <= in_.max
    ensures DividesByZero(v, in_) <==> in_.mid == in_.max && (in_.max <= v || in_.min == in_.max)
    ensures !DividesByZero(v, in_) && Clamp(v, in_) < in_.mid ==> in_.min < in_.mid
  {
  }

  /** The quotient lies between its neighbouring multiples, */
  lemma Quotient(x: nat, c: nat)
    requires c > 0
    ensures x / c * c <= x < (x / c + 1) * c
  {
    var q := x / c;
    assert x == q * c + x % c;
    assert (q + 1) * c == q * c + c;
  }

  /** and is ordered as they are. */
  lemma QuotientOrdered(x: nat, y: nat, c: nat)
    requires c > 0 && x <= y
    ensures x / c <= y / c
  {
    Quotient(x, c);
    Quotient(y, c);
    var q, r := x / c, y / c;
    assert r < q ==> (r + 1) * c <= q * c by { Grows(r + 1, q, c); }
  }

  lemma QuotientOfMultiple(b: nat, c: nat)
    requires c > 0
    ensures c * b / c == b
  {
    Quotient(c * b, c);
    var q := c * b / c;
    assert c * b == b * c;
    assert q < b ==> (q + 1) * c <= b * c by { Grows(q + 1, b, c); }
    assert b < q ==> (b + 1) * c <= q * c by { Grows(b + 1, q, c); }
    assert (b + 1) * c == b * c + c;
  }

  lemma MulDivMonotone(a: nat, a': nat, b: nat, c: nat)
    requires a <= a' && c > 0
    ensures MulDiv(a, b, c) <= MulDiv(a', b, c)
  {
    Grows(a, a', b);
    QuotientOrdered(a * b, a' * b, c);
  }

  lemma MulDivBounds(a: nat, b: nat, c: nat)
    requires a <= c && c > 0
    ensures MulDiv(a, b, c) <= b
    ensures MulDiv(0, b, c) == 0 && MulDiv(c, b, c) == b
  {
    MulDivMonotone(a, c, b, c);
    QuotientOfMultiple(b, c);
  }

  /** The result stays in the output range, on its side of the output middle, wherever the input middle is; its 16-bit
      truncation changes nothing. */
  lemma ScaledBounds(v: nat, in_: Range, out: Range)
    requires Scalable(in_, out) && !DividesByZero(v, in_)
    ensures out.min <= Scaled(v, in_, out) <= out.max
    ensures Clamp(v, in_) >= in_.mid ==> out.mid <= Scaled(v, in_, out)
    ensures Clamp(v, in_) < in_.mid ==> Scaled(v, in_, out) <= out.mid
  {
    var w := Clamp(v, in_);
    if w >= in_.mid {
      MulDivBounds(w - in_.mid, out.max - out.mid, in_.max - in_.mid);
    } else {
      MulDivBounds(w - in_.min, out.mid - out.min, in_.mid - in_.min);
    }
  }

  /** The products the code forms do not overflow. */
  lemma ProductsFit(v: nat, in_: Range, out: Range)
    requires Scalable(in_, out)
    ensures var w := Clamp(v, in_);
            && (w >= in_.mid ==> (w - in_.mid) * (out.max - out.mid) <= INT_MAX)
            && (w < in_.mid ==> (w - in_.min) * (out.mid - out.min) <= INT_MAX)
  {
    var w := Clamp(v, in_);
    if w >= in_.mid {
      Grows(w - in_.mid, in_.max - in_.mid, out.max - out.mid);
    } else {
      Grows(w - in_.min, in_.mid - in_.min, out.mid - out.min);
    }
  }

  lemma QuotientIsZero(x: nat, c: nat)
    requires c > 0
    ensures x / c == 0 <==> x < c
  {
    var q := x / c;
    ZeroFactor(x, q, c, x % c);
  }

  lemma ZeroFactor(x: nat, q: nat, c: nat, r: nat)
    requires x == q * c + r && r < c
    ensures q == 0 <==> x < c
  {
    if q > 0 {
      Grows(1, q, c);
    }
  }

  /** A proper fraction of b is less than b. */
  lemma MulDivBelow(a: nat, b: nat, c: nat)
    requires a < c && b > 0
    ensures MulDiv(a, b, c) < b
  {
    Quotient(a * b, c);
    var q := MulDiv(a, b, c);
    assert a * b < c * b by {
      Grows(a + 1, c, b);
      assert (a + 1) * b == a * b + b;
    }
    if q >= b {
      Grows(b, q, c);
    }
  }

  /** Where the scaling is exact, for an output whose three values differ: at the maximum unless the middle lies above
      it; at the minimum unless the middle lies at or below it; at the middle unless it lies above the maximum, or so
      far below the minimum that the rest of the division shows. */
  lemma ScaledExact(v: nat, in_: Range, out: Range)
    requires Scalable(in_, out) && !DividesByZero(v, in_) && out.min < out.mid < out.max
    ensures v >= in_.max ==> (Scaled(v, in_, out) == out.max <==> in_.mid <= in_.max)
    ensures v <= in_.min ==> (Scaled(v, in_, out) == out.min <==> in_.min < in_.mid)
    ensures v == in_.mid ==> (Scaled(v, in_, out) == out.mid <==>
              in_.mid <= in_.max && (in_.min - in_.mid) * (out.max - out.mid) < in_.max - in_.mid)
  {
    var w := Clamp(v, in_);
    if w >= in_.mid {
      ScaledAbove(v, in_, out);
      BelowMinimum(in_, out);
    } else {
      MulDivBounds(w - in_.min, out.mid - out.min, in_.mid - in_.min);
      MulDivBelow(w - in_.min, out.mid - out.min, in_.mid - in_.min);
    }
  }

  /** The upper branch: all of it at the maximum, none of it exactly while the product is less than the divisor. */
  lemma ScaledAbove(v: nat, in_: Range, out: Range)
    requires Scalable(in_, out) && !DividesByZero(v, in_) && Clamp(v, in_) >= in_.mid
    ensures v >= in_.max ==> Scaled(v, in_, out) == out.max
    ensures Scaled(v, in_, out) == out.mid <==>
              (Clamp(v, in_) - in_.mid) * (out.max - out.mid) < in_.max - in_.mid
    ensures Scaled(v, in_, out) >= out.mid
  {
    var w := Clamp(v, in_);
    var b, c := out.max - out.mid, in_.max - in_.mid;
    MulDivBounds(w - in_.mid, b, c);
    QuotientIsZero((w - in_.mid) * b, c);
  }

  /** The condition at a middle inside the range. */
  lemma BelowMinimum(in_: Range, out: Range)
    requires out.mid <= out.max && in_.mid < in_.max
    ensures in_.min <= in_.mid ==> (in_.min - in_.mid) * (out.max - out.mid) < in_.max - in_.mid
    ensures (in_.mid - in_.mid) * (out.max - out.mid) == 0
  {
    if in_.min <= in_.mid {
      assert (in_.mid - in_.min) * (out.max - out.mid) >= 0;
      assert (in_.min - in_.mid) * (out.max - out.mid) == -((in_.mid - in_.min) * (out.max - out.mid));
    }
  }

  /** y is the floor of the line from (x0, y0) to (x1, y1) at x. */
  predicate OnLine(x: int, y: int, x0: int, y0: int, x1: int, y1: int) {
    (y - y0) * (x1 - x0) <= (x - x0) * (y1 - y0) < (y - y0 + 1) * (x1 - x0)
  }

  /** The result lies on the line through the calibration points: from the minimum to the middle below the middle, from
      the middle to the maximum above it. */
  lemma ScaledOnLine(v: nat, in_: Range, out: Range)
    requires Scalable(in_, out) && !DividesByZero(v, in_)
    ensures var w, y := Clamp(v, in_), Scaled(v, in_, out);
            if w >= in_.mid then OnLine(w, y, in_.mid, out.mid, in_.max, out.max)
            else OnLine(w, y, in_.min, out.min, in_.mid, out.mid)
    ensures Clamp(v, in_) == if v <= in_.min then in_.min else if v >= in_.max then in_.max else v
  {
    var w := Clamp(v, in_);
    if w >= in_.mid {
      MulDivOnLine(w - in_.mid, out.max - out.mid, in_.max - in_.mid, in_.mid, out.mid);
    } else {
      MulDivOnLine(w - in_.min, out.mid - out.min, in_.mid - in_.min, in_.min, out.min);
    }
  }

  lemma MulDivOnLine(a: nat, b: nat, c: nat, x0: int, y0: int)
    requires c > 0
    ensures OnLine(x0 + a, y0 + MulDiv(a, b, c), x0, y0, x0 + c, y0 + b)
  {
    Quotient(a * b, c);
    var q := MulDiv(a, b, c);
    assert y0 + q - y0 == q && x0 + c - x0 == c && x0 + a - x0 == a && y0 + b - y0 == b;
  }

  /** No other value does. */
  lemma OnLineUnique(x: int, y: int, z: int, x0: int, y0: int, x1: int, y1: int)
    requires x0 < x1 && OnLine(x, y, x0, y0, x1, y1) && OnLine(x, z, x0, y0, x1, y1)
    ensures y == z
  {
    if y < z {
      Grows(y - y0 + 1, z - y0, x1 - x0);
    } else if z < y {
      Grows(z - y0 + 1, y - y0, x1 - x0);
    }
  }

  /** A higher reading never gives a lower channel value. */
  lemma ScaledMonotone(v: nat, v': nat, in_: Range, out: Range)
    requires Scalable(in_, out) && v <= v' && !DividesByZero(v, in_) && !DividesByZero(v', in_)
    ensures Scaled(v, in_, out) <= Scaled(v', in_, out)
  {
    var w, w' := Clamp(v, in_), Clamp(v', in_);
    assert w <= w';
    ScaledBounds(v, in_, out);
    ScaledBounds(v', in_, out);
    if w >= in_.mid {
      MulDivMonotone(w - in_.mid, w' - in_.mid, out.max - out.mid, in_.max - in_.mid);
    } else if w' < in_.mid {
      MulDivMonotone(w - in_.min, w' - in_.min, out.mid - out.min, in_.mid - in_.min);
    }
  }

  // ---- The channel and report loops.

  const STICK := Range(1000, 1500, 2000)
  const HID := Range(0, 1023, 2047)

  /** The conversion of a 16-bit word to the signed channel type, and back to the unsigned parameter. */
  function Signed(x: nat): int
    requires Word(x)
  {
    if x < 0x8000 then x else x - 0x1_0000
  }

  function Unsigned(x: int): nat
    requires -0x8000 <= x < 0x8000
  {
    if x < 0 then x + 0x1_0000 else x
  }

  /** What calibration leaves behind: minimum and maximum in order, and any reading as the middle. */
  predicate Calibrated(c: Range) {
    c.min <= c.max && Word(c.max) && Word(c.mid)
  }

  /** radio_update_range_min_max. */
  function Widen(c: Range, value: nat): Range {
    c.(min := if c.min > value then value else c.min, max := if c.max < value then value else c.max)
  }

  /** A stick as calibration leaves it: swept in the first step, let go in the second, which stores the last reading. */
  function Calibrate(c: Range, sweep: seq<nat>, last: nat): Range
    decreases |sweep|
  {
    if sweep == [] then c.(mid := last) else Calibrate(Widen(c, sweep[0]), sweep[1..], last)
  }

  /** Starting from an ordered range, as the 1500 to 3500 of the source, any readings give a calibrated stick; the
      range covers the sweep, but the middle need not lie in it. */
  lemma {:induction false} CalibrationGives(c: Range, sweep: seq<nat>, last: nat)
    requires Calibrated(c) && Word(last) && forall x <- sweep :: Word(x)
    ensures var r := Calibrate(c, sweep, last);
            && Calibrated(r) && r.mid == last && r.min <= c.min && c.max <= r.max
            && (forall x <- sweep :: r.min <= x <= r.max)
    decreases |sweep|
  {
    if sweep != [] {
      assert sweep[0] in sweep;
      CalibrationGives(Widen(c, sweep[0]), sweep[1..], last);
      assert sweep == [sweep[0]] + sweep[1..];
    }
  }

  /** The second step does not move the ends. */
  lemma {:induction false} EndsSwept(c: Range, sweep: seq<nat>, last: nat, other: nat)
    ensures Calibrate(c, sweep, last).max == Calibrate(c, sweep, other).max
    decreases |sweep|
  {
    if sweep != [] {
      EndsSwept(Widen(c, sweep[0]), sweep[1..], last, other);
    }
  }

  /** So calibration leaves a stick that some reading makes the code divide by zero on exactly when the last reading
      of the second step is the maximum of the sweep, and after every sweep some last reading is. */
  lemma CalibrationDivides(c: Range, sweep: seq<nat>, last: nat)
    requires Calibrated(c) && Word(last) && forall x <- sweep :: Word(x)
    ensures var r := Calibrate(c, sweep, last);
            (exists v :: Word(v) && DividesByZero(v, r)) <==> last == r.max
    ensures var top := Calibrate(c, sweep, last).max;
            Word(top) && DividesByZero(top, Calibrate(c, sweep, top))
  {
    var r := Calibrate(c, sweep, last);
    CalibrationGives(c, sweep, last);
    if last == r.max {
      assert DividesByZero(r.max, r);
    }
    EndsSwept(c, sweep, last, r.max);
    CalibrationGives(c, sweep, r.max);
  }

  /** A stick reading scaled by its calibration. */
  function Stick(v: nat, c: Range): nat
    requires Calibrated(c) && !DividesByZero(v, c)
  {
    Scaled(v, c, STICK)
  }

  /** No stick is at a maximum that is its middle as well. */
  predicate Divisible(raw: seq<nat>, params: seq<Range>)
    requires |raw| == CHANNEL_MAX && |params| == 4
  {
    forall i :: 0 <= i < 4 ==> !DividesByZero(raw[i], params[i])
  }

  /** The value of channel i: the sticks scaled, roll and throttle turned round, the rest as they are. */
  function Channel(i: nat, raw: seq<nat>, params: seq<Range>): int
    requires i < CHANNEL_MAX == |raw| && |params| == 4
    requires (forall x <- raw :: Word(x)) && (forall c <- params :: Calibrated(c)) && Divisible(raw, params)
  {
    assert raw[i] in raw && (i < 4 ==> params[i] in params);
    if i >= 4 then Signed(raw[i])
    else if i == ROLL || i == THROTTLE then 3000 - Stick(raw[i], params[i])
    else Stick(raw[i], params[i])
  }

  /** Sticks lie in the range they are scaled to whichever way round, wherever the middle was calibrated. */
  lemma SticksInRange(i: nat, raw: seq<nat>, params: seq<Range>)
    requires i < 4 && |raw| == CHANNEL_MAX && |params| == 4
    requires (forall x <- raw :: Word(x)) && (forall c <- params :: Calibrated(c)) && Divisible(raw, params)
    ensures 1000 <= Channel(i, raw, params) <= 2000
  {
    assert params[i] in params;
    ScaledBounds(raw[i], params[i], STICK);
  }

  /** Which sticks are turned round: moved up from any reading, roll and throttle go down and pitch and yaw go up; and
      at the end of its travel roll and throttle give 1000 and pitch and yaw 2000, if the middle is below it. */
  lemma SticksTurned(i: nat, raw: seq<nat>, up: seq<nat>, params: seq<Range>)
    requires i < 4 && |raw| == CHANNEL_MAX == |up| && |params| == 4 && raw[i] <= up[i]
    requires (forall x <- raw :: Word(x)) && (forall c <- params :: Calibrated(c)) && Divisible(raw, params)
    requires (forall x <- up :: Word(x)) && Divisible(up, params)
    ensures if i == 0 || i == 3 then Channel(i, up, params) <= Channel(i, raw, params)
            else Channel(i, raw, params) <= Channel(i, up, params)
    ensures raw[i] >= params[i].max > params[i].mid ==>
              Channel(i, raw, params) == if i == 0 || i == 3 then 1000 else 2000
    ensures raw[i] <= params[i].min < params[i].mid ==>
              Channel(i, raw, params) == if i == 0 || i == 3 then 2000 else 1000
  {
    assert params[i] in params;
    ScaledMonotone(raw[i], up[i], params[i], STICK);
    ScaledExact(raw[i], params[i], STICK);
  }

  /** The other channels are passed on, as signed words. */
  lemma OthersPassed(i: nat, raw: seq<nat>, params: seq<Range>)
    requires 4 <= i < CHANNEL_MAX == |raw| && |params| == 4
    requires (forall x <- raw :: Word(x)) && (forall c <- params :: Calibrated(c)) && Divisible(raw, params)
    ensures raw[i] < 0x8000 ==> Channel(i, raw, params) == raw[i]
    ensures -0x8000 <= Channel(i, raw, params) < 0x8000 && Unsigned(Channel(i, raw, params)) == raw[i]
  {
    assert raw[i] in raw;
  }

  /** The loops of the radio thread that fill the channels and the report. */
  method Report(raw: seq<nat>, params: seq<Range>, channels: array<int>, hid: array<nat>)
    requires |raw| == CHANNEL_MAX == channels.Length && |params| == 4 && hid.Length == 19 && channels as object != hid
    requires (forall x <- raw :: Word(x)) && (forall c <- params :: Calibrated(c)) && Divisible(raw, params)
    modifies channels, hid
    ensures forall i :: 0 <= i < CHANNEL_MAX ==> channels[i] == Channel(i, raw, params)
    ensures forall i :: 0 <= i < CHANNEL_MAX ==> -0x8000 <= channels[i] < 0x8000
    ensures forall i :: 0 <= i < CHANNEL_MAX ==> Packs(hid[..], i, Scaled(Unsigned(channels[i]), STICK, HID))
    ensures forall k :: 0 <= k < 3 ==> hid[k] == old(hid[k])
  {
    FillChannels(raw, params, channels);
    Pack(channels, hid);
  }

  /** The two loops that fill the channels. */
  method FillChannels(raw: seq<nat>, params: seq<Range>, channels: array<int>)
    requires |raw| == CHANNEL_MAX == channels.Length && |params| == 4
    requires (forall x <- raw :: Word(x)) && (forall c <- params :: Calibrated(c)) && Divisible(raw, params)
    modifies channels
    ensures forall i :: 0 <= i < CHANNEL_MAX ==> channels[i] == Channel(i, raw, params)
    ensures forall i :: 0 <= i < CHANNEL_MAX ==> -0x8000 <= channels[i] < 0x8000
  {
    ghost var target := seq(CHANNEL_MAX, i requires 0 <= i < CHANNEL_MAX => Channel(i, raw, params));
    FillSticks(raw, params, channels, target);
    FillRest(raw, params, channels, target);
  }

  /** The loop over the sticks. */
  method FillSticks(raw: seq<nat>, params: seq<Range>, channels: array<int>, ghost target: seq<int>)
    requires |raw| == CHANNEL_MAX == channels.Length == |target| && |params| == 4
    requires (forall x <- raw :: Word(x)) && (forall c <- params :: Calibrated(c)) && Divisible(raw, params)
    requires forall i :: 0 <= i < CHANNEL_MAX ==> target[i] == Channel(i, raw, params)
    modifies channels
    ensures forall i :: 0 <= i < 4 ==> channels[i] == target[i] && 1000 <= channels[i] <= 2000
  {
    var i := 0;
    while i < 4
      invariant 0 <= i <= 4
      invariant forall j :: 0 <= j < i ==> channels[j] == target[j] && 1000 <= channels[j] <= 2000
    {
      channels[i] := StickChannel(i, raw, params);
      i := i + 1;
    }
  }

  method StickChannel(i: nat, raw: seq<nat>, params: seq<Range>) returns (c: int)
    requires i < 4 && |raw| == CHANNEL_MAX && |params| == 4
    requires (forall x <- raw :: Word(x)) && (forall c <- params :: Calibrated(c)) && Divisible(raw, params)
    ensures c == Channel(i, raw, params) && 1000 <= c <= 2000
  {
    assert raw[i] in raw && params[i] in params;
    SticksInRange(i, raw, params);
    var v := RadioDataNormalize(raw[i], params[i], STICK);
    assert v == Stick(raw[i], params[i]);
    c := if i == ROLL || i == THROTTLE then 3000 - v else v;
  }

  /** The loop over the other channels. */
  method FillRest(raw: seq<nat>, params: seq<Range>, channels: array<int>, ghost target: seq<int>)
    requires |raw| == CHANNEL_MAX == channels.Length == |target| && |params| == 4
    requires (forall x <- raw :: Word(x)) && (forall c <- params :: Calibrated(c)) && Divisible(raw, params)
    requires forall i :: 4 <= i < CHANNEL_MAX ==> target[i] == Channel(i, raw, params)
    modifies channels
    ensures forall i :: 0 <= i < 4 ==> channels[i] == old(channels[i])
    ensures forall i :: 4 <= i < CHANNEL_MAX ==> channels[i] == target[i] && -0x8000 <= channels[i] < 0x8000
  {
    var i := 4;
    while i < CHANNEL_MAX
      invariant 4 <= i <= CHANNEL_MAX
      invariant forall j :: 0 <= j < 4 ==> channels[j] == old(channels[j])
      invariant forall j :: 4 <= j < i ==> channels[j] == target[j] && -0x8000 <= channels[j] < 0x8000
    {
      assert raw[i] in raw;
      channels[i] := Signed(raw[i]);
      i := i + 1;
    }
  }

  /** Two bytes that carry an 11-bit value. */
  predicate Carries(low: nat, high: nat, value: nat) {
    low < 0x100 && high < 8 && low + 0x100 * high == value
  }

  lemma SplitCarries(value: nat)
    requires value < 0x800
    ensures Carries(value % 0x100, value / 0x100 % 8, value)
  {
  }

  /** The two bytes of channel i in the report carry value: its low byte and its three high bits. */
  predicate Packs(hid: seq<nat>, i: nat, value: nat)
    requires |hid| == 19 && i < CHANNEL_MAX
  {
    Carries(hid[i * 2 + 3], hid[i * 2 + 4], value)
  }

  method Pack(channels: array<int>, hid: array<nat>)
    requires channels.Length == CHANNEL_MAX && hid.Length == 19 && channels as object != hid
    requires forall i :: 0 <= i < CHANNEL_MAX ==> -0x8000 <= channels[i] < 0x8000
    modifies hid
    ensures forall i :: 0 <= i < CHANNEL_MAX ==> Packs(hid[..], i, Scaled(Unsigned(channels[i]), STICK, HID))
    ensures forall k :: 0 <= k < 3 ==> hid[k] == old(hid[k])
  {
    var i := 0;
    while i < CHANNEL_MAX
      invariant 0 <= i <= CHANNEL_MAX
      invariant forall j :: 0 <= j < i ==> Packs(hid[..], j, Scaled(Unsigned(channels[j]), STICK, HID))
      invariant forall k :: 0 <= k < 3 ==> hid[k] == old(hid[k])
    {
      var value := RadioDataNormalize(Unsigned(channels[i]), STICK, HID);
      ScaledBounds(Unsigned(channels[i]), STICK, HID);
      SplitCarries(value);
      hid[i * 2 + 3] := value % 0x100;
      hid[i * 2 + 4] := value / 0x100 % 8;
      i := i + 1;
    }
  }
}
