/** The battery gauge: a search with halving strides over the table of the voltage at each percent of charge. */
module Battery {
  import opened Arithmetic

  /** The table as the search needs it. */
  ghost predicate ChargeTable(table: seq<real>) {
    && |table| == 101
    && (forall i, j :: 0 <= i < j < 101 ==> table[i] < table[j])
    && table[0] == 3.2 && table[100] == 4.2
  }

  /** The stride of a round: half the last move. */
  function Half(index: nat, prev: nat): nat {
    Abs(index - prev) / 2
  }

  /** No further round can leave the table: the strides to come add up to less than the last move. */
  predicate Room(index: nat, prev: nat) {
    Abs(index - prev) <= index && index + Abs(index - prev) <= 100
  }

  function Next(table: seq<real>, volts: real, index: nat, prev: nat): (n: nat)
    requires |table| == 101 && Room(index, prev)
    ensures Room(n, index)
  {
    if volts >= table[index] then index + Half(index, prev) else index - Half(index, prev)
  }

  /** The rounds from index on. */
  function Search(table: seq<real>, volts: real, index: nat, prev: nat): nat
    requires |table| == 101 && Room(index, prev)
    decreases Half(index, prev)
  {
    var n := Next(table, volts, index, prev);
    if n == index then n else Search(table, volts, n, index)
  }

  function Rounds(table: seq<real>, volts: real, index: nat, prev: nat): nat
    requires |table| == 101 && Room(index, prev)
    decreases Half(index, prev)
  {
    var n := Next(table, volts, index, prev);
    if n == index then 1 else 1 + Rounds(table, volts, n, index)
  }

  function Level(table: seq<real>, volts: real): nat
    requires |table| == 101
  {
    if volts >= 4.2 then 100 else if volts <= 3.2 then 0 else Search(table, volts, 50, 0)
  }

  /** battery_get_level. */
  method GetLevel(table: seq<real>, volts: real) returns (index: nat)
    requires |table| == 101
    ensures index == Level(table, volts)
  {
    index := 50;
    var prev: nat, half: nat := 0, 0;
    if volts >= 4.2 {
      return 100;
    }
    if volts <= 3.2 {
      return 0;
    }
    while true
      invariant Room(index, prev)
      invariant Search(table, volts, index, prev) == Search(table, volts, 50, 0)
      decreases Half(index, prev)
    {
      ghost var next := Next(table, volts, index, prev);
      if index >= prev {
        half := (index - prev) / 2;
      } else {
        half := (prev - index) / 2;
      }
      prev := index;
      if volts >= table[index] {
        index := index + half;
      } else {
        index := index - half;
      }
      assert index == next;
      if prev == index {
        break;
      }
    }
  }

  /** f is the true charge: the last percent whose voltage is reached. */
  ghost predicate TrueCharge(table: seq<real>, volts: real, f: int) {
    0 <= f < 100 && |table| == 101 && table[f] <= volts < table[f + 1]
  }

  /** The strides that follow a move, until they are 0. */
  function Strides(move: nat): seq<nat> {
    if move / 2 == 0 then [] else [move / 2] + Strides(move / 2)
  }

  /** The same walk, by the true charge alone. */
  function Walk(f: int, index: int, strides: seq<nat>): int
    decreases |strides|
  {
    if strides == [] then index
    else Walk(f, if index <= f then index + strides[0] else index - strides[0], strides[1..])
  }

  lemma {:induction false} SearchIsWalk(table: seq<real>, volts: real, f: int, index: nat, prev: nat)
    requires ChargeTable(table) && TrueCharge(table, volts, f) && Room(index, prev)
    ensures Search(table, volts, index, prev) == Walk(f, index, Strides(Abs(index - prev)))
    ensures Rounds(table, volts, index, prev) == |Strides(Abs(index - prev))| + 1
    decreases Half(index, prev)
  {
    assert volts >= table[index] <==> index <= f;
    var n := Next(table, volts, index, prev);
    var h := Half(index, prev);
    if h != 0 {
      assert Abs(n - index) == h;
      SearchIsWalk(table, volts, f, n, index);
      var s := Strides(Abs(index - prev));
      assert s[0] == h && s[1..] == Strides(h);
    }
  }

  /** The walk from the middle of the table. */
  function Moves(f: int): int {
    Walk(f, 50, Strides(50))
  }

  /** The search makes exactly six rounds, of strides 25, 12, 6, 3, 1 and 0. */
  lemma SixRounds(table: seq<real>, volts: real, f: int)
    requires ChargeTable(table) && TrueCharge(table, volts, f)
    ensures Rounds(table, volts, 50, 0) == 6
    ensures Search(table, volts, 50, 0) == Moves(f)
  {
    SearchIsWalk(table, volts, f, 50, 0);
    StridesFromMiddle();
  }

  lemma StridesFromMiddle()
    ensures Strides(50) == [25, 12, 6, 3, 1]
  {
    assert Strides(1) == [];
    assert Strides(3) == [1];
    assert Strides(6) == [3, 1];
    assert Strides(12) == [6, 3, 1];
    assert Strides(25) == [12, 6, 3, 1];
  }

  /** Every voltage between the ends of the table has a true charge. */
  lemma {:induction false} ChargeExists(table: seq<real>, volts: real, hi: nat) returns (f: int)
    requires ChargeTable(table) && 3.2 <= volts && 0 < hi <= 100 && volts < table[hi]
    ensures TrueCharge(table, volts, f) && f < hi
  {
    if table[hi - 1] <= volts {
      f := hi - 1;
    } else {
      f := ChargeExists(table, volts, hi - 1);
    }
  }

  /** The five moves, written out. */
  lemma MovesAre(f: int) returns (a: int, b: int, c: int, d: int)
    ensures a == if 50 <= f then 75 else 25
    ensures b == if a <= f then a + 12 else a - 12
    ensures c == if b <= f then b + 6 else b - 6
    ensures d == if c <= f then c + 3 else c - 3
    ensures Moves(f) == if d <= f then d + 1 else d - 1
  {
    a := if 50 <= f then 75 else 25;
    b := if a <= f then a + 12 else a - 12;
    c := if b <= f then b + 6 else b - 6;
    d := if c <= f then c + 3 else c - 3;
    StridesFromMiddle();
    WalkStep(f, 50, 25, [12, 6, 3, 1]);
    WalkStep(f, a, 12, [6, 3, 1]);
    WalkStep(f, b, 6, [3, 1]);
    WalkStep(f, c, 3, [1]);
    WalkStep(f, d, 1, []);
  }

  lemma WalkStep(f: int, index: int, h: nat, rest: seq<nat>)
    ensures Walk(f, index, [h] + rest) == Walk(f, if index <= f then index + h else index - h, rest)
  {
    assert ([h] + rest)[1..] == rest;
  }

  lemma MovesNear(f: int)
    requires 0 <= f < 100
    ensures f - 2 <= Moves(f) <= f + 3
  {
    var a, b, c, d := MovesAre(f);
  }

  lemma MovesMonotone(f: int, g: int)
    requires 0 <= f <= g < 100
    ensures 0 <= Moves(f) <= Moves(g) <= 100
  {
    var a, b, c, d := MovesAre(f);
    var p, q, r, s := MovesAre(g);
  }

  /** The level shown is at most 2 below and 3 above the true charge. */
  lemma LevelNear(table: seq<real>, volts: real, f: int)
    requires ChargeTable(table) && TrueCharge(table, volts, f)
    ensures f - 2 <= Level(table, volts) <= f + 3
  {
    SixRounds(table, volts, f);
    MovesNear(f);
  }

  /** The charges the walk ends on. */
  predicate OnWalk(f: int) {
    (f % 50) % 6 == 3 || (f % 50) % 6 == 5
  }

  lemma MovesExact(f: int)
    requires 0 <= f < 100
    ensures Moves(f) == f <==> OnWalk(f)
  {
    var h, k := MovesSettle(f);
    SixesApart(f, h, k);
  }

  /** Of each half of the table the walk reaches 4, 10, ... 46 in four moves, the one next to f, and then steps
      towards f. */
  lemma MovesSettle(f: int) returns (h: int, k: int)
    requires 0 <= f < 100
    ensures h == (if 50 <= f then 50 else 0) && 0 <= k <= 7
    ensures (f < h + 6 * k + 7 || k == 7) && (h + 6 * k + 1 <= f || k == 0)
    ensures Moves(f) == if h + 6 * k + 4 <= f then h + 6 * k + 5 else h + 6 * k + 3
  {
    var a, b, c, d := MovesAre(f);
    h := if 50 <= f then 50 else 0;
    k := (if a <= f then 4 else 0) + (if b <= f then 2 else 0) + (if c <= f then 1 else 0);
  }

  lemma SixesApart(f: int, h: int, k: int)
    requires 0 <= f < 100 && h == (if 50 <= f then 50 else 0) && 0 <= k <= 7
    requires (f < h + 6 * k + 7 || k == 7) && (h + 6 * k + 1 <= f || k == 0)
    ensures OnWalk(f) <==> f == h + 6 * k + 3 || f == h + 6 * k + 5
  {
    var g := f - h;
    assert f % 50 == g;
    assert g == g / 6 * 6 + g % 6;
  }

  /** The level is the true charge exactly at the empty end, where no search is made, and for the charges on the walk:
      32 of the 100. */
  lemma LevelExact(table: seq<real>, volts: real, f: int)
    requires ChargeTable(table) && TrueCharge(table, volts, f)
    ensures Level(table, volts) == f <==> volts <= 3.2 || OnWalk(f)
  {
    SixRounds(table, volts, f);
    MovesExact(f);
    assert f > 0 ==> table[0] < table[f];
    assert f + 1 < 100 ==> table[f + 1] < table[100];
  }

  /** What the gauge shows, for every voltage: 0 and 100 from the ends of the table on; in between, of 3, 5, 9, 11, ...
      45, 47 in its half of the table, the lower or the higher of the pair around 6 k + 4, k being the sixth of the
      half the charge is in. */
  lemma LevelShown(table: seq<real>, volts: real, f: int)
    requires ChargeTable(table)
    ensures volts <= 3.2 ==> Level(table, volts) == 0
    ensures volts >= 4.2 ==> Level(table, volts) == 100
    ensures TrueCharge(table, volts, f) && 3.2 < volts ==>
              var h := if f < 50 then 0 else 50;
              var k := if f == h then 0 else if f == h + 49 then 7 else (f - h - 1) / 6;
              Level(table, volts) == h + 6 * k + if f < h + 6 * k + 4 then 3 else 5
  {
    if TrueCharge(table, volts, f) && 3.2 < volts {
      assert f + 1 < 100 ==> table[f + 1] < table[100];
      SixRounds(table, volts, f);
      MovesShown(f);
    }
  }

  lemma MovesShown(f: int)
    requires 0 <= f < 100
    ensures var h := if f < 50 then 0 else 50;
            var k := if f == h then 0 else if f == h + 49 then 7 else (f - h - 1) / 6;
            Moves(f) == h + 6 * k + if f < h + 6 * k + 4 then 3 else 5
  {
    var h, k := MovesSettle(f);
    SixthOf(f - h, k);
  }

  lemma SixthOf(g: int, k: int)
    requires 0 <= g < 50 && 0 <= k <= 7 && (g < 6 * k + 7 || k == 7) && (6 * k + 1 <= g || k == 0)
    ensures k == if g == 0 then 0 else if g == 49 then 7 else (g - 1) / 6
  {
  }

  /** Both ends of the bound are reached, whatever the table: at 49 percent the gauge shows 47, and just above empty
      it shows 3. */
  lemma BoundAttained(table: seq<real>, volts: real)
    requires ChargeTable(table)
    ensures TrueCharge(table, volts, 49) ==> Level(table, volts) == 47
    ensures TrueCharge(table, volts, 0) && volts > 3.2 ==> Level(table, volts) == 3
    ensures TrueCharge(table, table[49], 49)
    ensures 3.2 < (table[0] + table[1]) / 2.0 && TrueCharge(table, (table[0] + table[1]) / 2.0, 0)
  {
    var a, b, c, d := MovesAre(49);
    var p, q, r, s := MovesAre(0);
    if TrueCharge(table, volts, 49) {
      SixRounds(table, volts, 49);
    }
    if TrueCharge(table, volts, 0) {
      SixRounds(table, volts, 0);
    }
  }

  /** More voltage never shows less charge. */
  lemma LevelMonotone(table: seq<real>, low: real, high: real)
    requires ChargeTable(table) && low <= high
    ensures 0 <= Level(table, low) <= Level(table, high) <= 100
  {
    if 3.2 < low < 4.2 {
      var f := ChargeExists(table, low, 100);
      SixRounds(table, low, f);
      MovesMonotone(f, f);
    }
    if 3.2 < high < 4.2 {
      var g := ChargeExists(table, high, 100);
      SixRounds(table, high, g);
      MovesMonotone(g, g);
      if 3.2 < low {
        var f := ChargeExists(table, low, 100);
        SixRounds(table, low, f);
        SixRounds(table, high, g);
        TrueMonotone(table, low, high, f, g);
        MovesMonotone(f, g);
      }
    }
  }

  lemma TrueMonotone(table: seq<real>, low: real, high: real, f: int, g: int)
    requires ChargeTable(table) && low <= high && TrueCharge(table, low, f) && TrueCharge(table, high, g)
    ensures f <= g
  {
  }
}
