/** The push-button driver: debouncing, and the gestures it reports. */
module Button {

  const DEBOUNCE_TICKS := 2
  const SHORT_TICKS := 15
  const LONG_TICKS := 75

  datatype Event =
    | NONE_PRESS | PRESS_DOWN | PRESS_UP | PRESS_REPEAT | SINGLE_CLICK | DOUBLE_CLICK | LONG_START | LONG_HOLD

  /** The debounced level: unknown until the first two samples. */
  datatype Level = Unknown | Down | Up

  /** button_t: ticks has 16 bits, repeat 4, state and debounce 3. */
  datatype State = State(ticks: nat, repeat: nat, event: Event, state: nat, debounce: nat, level: Level)

  /** The increment of a bit field whose largest value is max. */
  function Inc(x: nat, max: nat): nat {
    if x < max then x + 1 else 0
  }

  function Sampled(pressed: bool): Level {
    if pressed then Down else Up
  }

  /** The first half of button_handler: the tick counter and the debouncing. */
  function Debounce(b: State, pressed: bool): State {
    var c := if b.state > 0 then b.(ticks := Inc(b.ticks, 0xFFFF)) else b;
    if Sampled(pressed) == c.level then c.(debounce := 0)
    else if Inc(c.debounce, 7) >= DEBOUNCE_TICKS then c.(level := Sampled(pressed), debounce := 0)
    else c.(debounce := Inc(c.debounce, 7))
  }

  /** The second half: the gesture machine and the callbacks it makes, in order. */
  function Gesture(b: State): (State, seq<Event>) {
    match b.state
    case 0 =>
      if b.level == Down then (b.(event := PRESS_DOWN, ticks := 0, repeat := 1, state := 1), [PRESS_DOWN])
      else (b.(event := NONE_PRESS), [])
    case 1 =>
      if b.level != Down then (b.(event := PRESS_UP, ticks := 0, state := 2), [PRESS_UP])
      else if b.ticks > LONG_TICKS then (b.(event := LONG_START, state := 5), [LONG_START])
      else (b, [])
    case 2 =>
      if b.level == Down then
        (b.(event := PRESS_DOWN, repeat := Inc(b.repeat, 15), ticks := 0, state := 3), [PRESS_DOWN])
      else if b.ticks > SHORT_TICKS then
        if b.repeat == 1 then (b.(event := SINGLE_CLICK, state := 0), [SINGLE_CLICK])
        else if b.repeat == 2 then (b.(event := PRESS_REPEAT, state := 0), [DOUBLE_CLICK, PRESS_REPEAT])
        else if b.repeat > 1 then (b.(event := PRESS_REPEAT, state := 0), [PRESS_REPEAT])
        else (b.(state := 0), [])
      else (b, [])
    case 3 =>
      if b.level != Down then
        if b.ticks < SHORT_TICKS then (b.(event := PRESS_UP, ticks := 0, state := 2), [PRESS_UP])
        else if b.repeat == 2 then (b.(event := PRESS_REPEAT, state := 0), [PRESS_UP, DOUBLE_CLICK, PRESS_REPEAT])
        else if b.repeat > 1 then (b.(event := PRESS_REPEAT, state := 0), [PRESS_UP, PRESS_REPEAT])
        else (b.(event := PRESS_UP, state := 0), [PRESS_UP])
      else (b, [])
    case 5 =>
      if b.level == Down then (b.(event := LONG_HOLD), [LONG_HOLD])
      else (b.(event := PRESS_UP, state := 0), [PRESS_UP])
    case _ => (b, [])
  }

  function Handle(b: State, pressed: bool): (State, seq<Event>) {
    Gesture(Debounce(b, pressed))
  }

  /** button_t in place; a callback for every event is attached. */
  class Button {
    var ticks: nat
    var repeat: nat
    var event: Event
    var state: nat
    var debounce: nat
    var level: Level

    ghost function View(): State
      reads this
    {
      State(ticks, repeat, event, state, debounce, level)
    }

    /** The debounce count is below its limit, the state is one of the machine's, and is one of the held ones
        exactly while the level is Down, which is known except in state 0. */
    ghost predicate Valid()
      reads this
    {
      Sane(View()) && (Held(View()) <==> level == Down) && (state != 0 ==> level != Unknown)
    }

    constructor ()
      ensures View() == Init() && Valid()
    {
      ticks, repeat, event, state, debounce, level := 0, 0, NONE_PRESS, 0, 0, Unknown;
    }

    /** button_handler; pressed says whether the sample has the bit of this button set. */
    method Handler(pressed: bool) returns (calls: seq<Event>)
      modifies this
      ensures (View(), calls) == Handle(old(View()), pressed)
      ensures old(Valid()) ==> Valid()
    {
      if state > 0 {
        ticks := Inc(ticks, 0xFFFF);
      }
      if Sampled(pressed) != level {
        debounce := Inc(debounce, 7);
        if debounce >= DEBOUNCE_TICKS {
          level, debounce := Sampled(pressed), 0;
        }
      } else {
        debounce := 0;
      }
      calls := Machine();
    }

    /** The switch of button_handler. */
    method Machine() returns (calls: seq<Event>)
      modifies this
      ensures (View(), calls) == Gesture(old(View()))
    {
      calls := [];
      match state
      case 0 =>
        if level == Down {
          event, calls := PRESS_DOWN, [PRESS_DOWN];
          ticks, repeat, state := 0, 1, 1;
        } else {
          event := NONE_PRESS;
        }
      case 1 =>
        if level != Down {
          event, calls := PRESS_UP, [PRESS_UP];
          ticks, state := 0, 2;
        } else if ticks > LONG_TICKS {
          event, calls := LONG_START, [LONG_START];
          state := 5;
        }
      case 2 =>
        if level == Down {
          event, calls := PRESS_DOWN, [PRESS_DOWN];
          repeat := Inc(repeat, 15);
          ticks, state := 0, 3;
        } else if ticks > SHORT_TICKS {
          if repeat == 1 {
            event, calls := SINGLE_CLICK, [SINGLE_CLICK];
          } else if repeat == 2 {
            event, calls := DOUBLE_CLICK, [DOUBLE_CLICK];
          }
          if repeat > 1 {
            event, calls := PRESS_REPEAT, calls + [PRESS_REPEAT];
            assert calls == if repeat == 2 then [DOUBLE_CLICK, PRESS_REPEAT] else [PRESS_REPEAT];
          }
          state := 0;
        }
      case 3 =>
        if level != Down {
          event, calls := PRESS_UP, [PRESS_UP];
          if ticks < SHORT_TICKS {
            ticks, state := 0, 2;
          } else {
            state := 0;
            if repeat > 1 {
              if repeat == 2 {
                event, calls := DOUBLE_CLICK, calls + [DOUBLE_CLICK];
              }
              event, calls := PRESS_REPEAT, calls + [PRESS_REPEAT];
              assert calls == if repeat == 2 then [PRESS_UP, DOUBLE_CLICK, PRESS_REPEAT] else [PRESS_UP, PRESS_REPEAT];
            }
          }
        }
      case 5 =>
        if level == Down {
          event, calls := LONG_HOLD, [LONG_HOLD];
        } else {
          event, calls := PRESS_UP, [PRESS_UP];
          state := 0;
        }
      case _ =>
    }
  }

  function Init(): State {
    State(0, 0, NONE_PRESS, 0, 0, Unknown)
  }

  // ---- Runs over any samples.

  /** The button after the samples, and all callbacks made. */
  function Run(b: State, samples: seq<bool>): (State, seq<Event>)
    decreases |samples|
  {
    if samples == [] then (b, []) else
    var (q, calls) := Run(b, samples[..|samples| - 1]);
    var (r, more) := Handle(q, samples[|samples| - 1]);
    (r, calls + more)
  }

  ghost predicate Sane(b: State) {
    b.debounce < DEBOUNCE_TICKS && b.state in {0, 1, 2, 3, 5}
  }

  lemma {:induction false} RunSane(b: State, samples: seq<bool>)
    requires Sane(b)
    ensures Sane(Run(b, samples).0)
    decreases |samples|
  {
    if samples != [] {
      RunSane(b, samples[..|samples| - 1]);
    }
  }

  /** The value of the last two equal samples in a row, or level when there are none. */
  function LastPair(level: Level, samples: seq<bool>): Level
    decreases |samples|
  {
    var n := |samples|;
    if n < 2 then level
    else if samples[n - 1] == samples[n - 2] then Sampled(samples[n - 1])
    else LastPair(level, samples[..n - 1])
  }

  /** Debouncing, over any samples: a settled level follows the last two samples in a row that agree, so
      a lone differing sample never changes it. */
  lemma {:induction false} LevelIsLastPair(b: State, samples: seq<bool>)
    requires b.level != Unknown && b.debounce == 0
    ensures var r := Run(b, samples).0;
            && r.level == LastPair(b.level, samples) != Unknown
            && (r.debounce == 0 || r.debounce == 1)
            && (r.debounce == 1 <==> samples != [] && Sampled(samples[|samples| - 1]) != r.level)
    decreases |samples|
  {
    var n := |samples|;
    if n > 0 {
      LevelIsLastPair(b, samples[..n - 1]);
      var q := Run(b, samples[..n - 1]).0;
      DebounceOnce(q, samples[n - 1]);
      assert n > 1 ==> samples[..n - 1][n - 2] == samples[n - 2];
    }
  }

  /** One sample against a settled level: a first differing one is only noted, a second one is believed. */
  lemma DebounceOnce(b: State, pressed: bool)
    requires b.level != Unknown && b.debounce <= 1
    ensures Sampled(pressed) == b.level ==> Handle(b, pressed).0.level == b.level && Handle(b, pressed).0.debounce == 0
    ensures Sampled(pressed) != b.level ==> var r := Handle(b, pressed).0;
            && r.level == (if b.debounce == 1 then Sampled(pressed) else b.level)
            && r.debounce == (if r.level == Sampled(pressed) then 0 else 1)
  {
    GestureFrame(Debounce(b, pressed));
  }

  lemma GestureFrame(b: State)
    ensures Gesture(b).0.level == b.level && Gesture(b).0.debounce == b.debounce
  {
  }

  /** A level that is still unknown takes the value of the second sample, whatever the first was. */
  lemma SecondSampleSettles(first: bool, second: bool)
    ensures Run(Init(), [first, second]).0.level == Sampled(second)
    ensures Run(Init(), [first, second]).0.debounce == 0
  {
    assert [first, second][..1] == [first] && [first][..0] == [];
    assert Run(Init(), [first]).0 == Handle(Init(), first).0;
  }

  /** The presses and releases in the callbacks alternate, the first being a press unless held is true. */
  predicate Alternates(calls: seq<Event>, held: bool) {
    calls == [] ||
    match calls[0]
    case PRESS_DOWN => !held && Alternates(calls[1..], true)
    case PRESS_UP => held && Alternates(calls[1..], false)
    case _ => Alternates(calls[1..], held)
  }

  /** Whether the button is held when the callbacks have been made. */
  function HeldAfter(calls: seq<Event>, held: bool): bool {
    if calls == [] then held
    else HeldAfter(calls[1..], if calls[0] == PRESS_DOWN then true else if calls[0] == PRESS_UP then false else held)
  }

  lemma {:induction false} AlternatesConcat(a: seq<Event>, b: seq<Event>, held: bool)
    requires Alternates(a, held) && Alternates(b, HeldAfter(a, held))
    ensures Alternates(a + b, held) && HeldAfter(a + b, held) == HeldAfter(b, HeldAfter(a, held))
    decreases |a|
  {
    if a == [] {
      assert a + b == b;
    } else {
      assert (a + b)[0] == a[0] && (a + b)[1..] == a[1..] + b;
      AlternatesConcat(a[1..], b, if a[0] == PRESS_DOWN then true else if a[0] == PRESS_UP then false else held);
    }
  }

  predicate Held(b: State) {
    b.state == 1 || b.state == 3 || b.state == 5
  }

  /** Every press is followed by its release before the next, over any samples. */
  lemma {:induction false} PressesAlternate(b: State, samples: seq<bool>)
    requires Sane(b)
    ensures var (r, calls) := Run(b, samples); Alternates(calls, Held(b)) && HeldAfter(calls, Held(b)) == Held(r)
    decreases |samples|
  {
    if samples != [] {
      var before := samples[..|samples| - 1];
      PressesAlternate(b, before);
      RunSane(b, before);
      var (q, calls) := Run(b, before);
      var (r, more) := Handle(q, samples[|samples| - 1]);
      StepAlternates(Debounce(q, samples[|samples| - 1]));
      AlternatesConcat(calls, more, Held(b));
    }
  }

  lemma StepAlternates(b: State)
    requires b.state in {0, 1, 2, 3, 5}
    ensures var (r, calls) := Gesture(b); Alternates(calls, Held(b)) && HeldAfter(calls, Held(b)) == Held(r)
  {
    var calls := Gesture(b).1;
    if |calls| == 1 {
      AlternatesHead(calls[0], []);
      assert calls == [calls[0]] + [];
    } else if |calls| == 2 {
      AlternatesHead(calls[1], []);
      AlternatesHead(calls[0], [calls[1]]);
      assert calls == [calls[0]] + [calls[1]] && [calls[1]] == [calls[1]] + [];
    } else if |calls| == 3 {
      AlternatesHead(calls[2], []);
      AlternatesHead(calls[1], [calls[2]]);
      AlternatesHead(calls[0], [calls[1], calls[2]]);
      assert calls == [calls[0]] + [calls[1], calls[2]] && [calls[1], calls[2]] == [calls[1]] + [calls[2]];
      assert [calls[2]] == [calls[2]] + [];
    }
  }

  lemma AlternatesHead(e: Event, calls: seq<Event>)
    ensures forall held :: Alternates([e] + calls, held) <==>
              (e == PRESS_DOWN ==> !held) && (e == PRESS_UP ==> held)
              && Alternates(calls, if e == PRESS_DOWN then true else if e == PRESS_UP then false else held)
    ensures forall held :: HeldAfter([e] + calls, held)
              == HeldAfter(calls, if e == PRESS_DOWN then true else if e == PRESS_UP then false else held)
  {
    assert ([e] + calls)[1..] == calls;
  }

  // ---- Gestures: from leaving state 0 to coming back to it.

  /** How often each callback was made. */
  datatype Tally = Tally(downs: nat, single: nat, double: nat, long: nat, repeats: nat)

  function Plus(c: Tally, e: Event): Tally {
    match e
    case PRESS_DOWN => c.(downs := c.downs + 1)
    case SINGLE_CLICK => c.(single := c.single + 1)
    case DOUBLE_CLICK => c.(double := c.double + 1)
    case LONG_START => c.(long := c.long + 1)
    case PRESS_REPEAT => c.(repeats := c.repeats + 1)
    case _ => c
  }

  /** The tally c continued over the calls. */
  function Tallied(c: Tally, calls: seq<Event>): Tally
    decreases |calls|
  {
    if calls == [] then c else Tallied(Plus(c, calls[0]), calls[1..])
  }

  function Counts(calls: seq<Event>): Tally {
    Tallied(Tally(0, 0, 0, 0, 0), calls)
  }

  lemma {:induction false} TalliedConcat(c: Tally, a: seq<Event>, b: seq<Event>)
    ensures Tallied(c, a + b) == Tallied(Tallied(c, a), b)
    decreases |a|
  {
    if a == [] {
      assert a + b == b;
    } else {
      assert (a + b)[0] == a[0] && (a + b)[1..] == a[1..] + b;
      TalliedConcat(Plus(c, a[0]), a[1..], b);
    }
  }

  /** The callbacks of one step, of which there are at most three. */
  lemma TalliedShort(c: Tally, calls: seq<Event>)
    requires |calls| <= 3
    ensures Tallied(c, calls) ==
            if |calls| == 0 then c
            else if |calls| == 1 then Plus(c, calls[0])
            else if |calls| == 2 then Plus(Plus(c, calls[0]), calls[1])
            else Plus(Plus(Plus(c, calls[0]), calls[1]), calls[2])
    decreases |calls|
  {
    if |calls| > 0 {
      TalliedShort(Plus(c, calls[0]), calls[1..]);
    }
  }

  /** What the 4-bit count makes of n presses. */
  function Kept(n: nat): nat {
    if n == 0 then 0 else Inc(Kept(n - 1), 15)
  }

  lemma {:induction false} KeptIsModulo(n: nat)
    ensures Kept(n) == n % 16
  {
    if n > 0 {
      KeptIsModulo(n - 1);
      NextModulo(n - 1);
    }
  }

  lemma NextModulo(n: nat)
    ensures (n + 1) % 16 == if n % 16 < 15 then n % 16 + 1 else 0
  {
    assert n == n / 16 * 16 + n % 16;
  }

  /** The samples that take the button from state 0 through other states, and only at the end back to 0. */
  ghost predicate Excursion(b: State, samples: seq<bool>) {
    && Sane(b) && b.state == 0 && |samples| > 0
    && (forall k :: 0 < k < |samples| ==> Run(b, samples[..k]).0.state != 0)
    && Run(b, samples).0.state == 0
  }

  /** What has been called during an excursion that is in state s with repeat r. */
  ghost predicate Underway(s: nat, r: nat, c: Tally) {
    match s
    case 1 => c == Tally(1, 0, 0, 0, 0) && r == Kept(1)
    case 2 => c == Tally(c.downs, 0, 0, 0, 0) && c.downs >= 1 && r == Kept(c.downs)
    case 3 => c == Tally(c.downs, 0, 0, 0, 0) && c.downs >= 2 && r == Kept(c.downs)
    case 5 => c == Tally(1, 0, 0, 1, 0)
    case _ => false
  }

  /** What an excursion reports, by the state it ended from: 5 after a long press, 2 when no further press followed
      a release in time, 3 when a repeated press was released late. */
  ghost predicate Reported(last: nat, c: Tally) {
    var r := Kept(c.downs);
    match last
    case 5 => c == Tally(1, 0, 0, 1, 0)
    case 2 => c.downs >= 1 && c == Tally(c.downs, if r == 1 then 1 else 0,
        if r == 2 then 1 else 0, 0, if r > 1 then 1 else 0)
    case 3 => c.downs >= 2 && c == Tally(c.downs, 0, if r == 2 then 1 else 0, 0, if r > 1 then 1 else 0)
    case _ => false
  }

  lemma StepTally(b: State, c: Tally)
    requires Underway(b.state, b.repeat, c)
    ensures var (q, calls) := Gesture(b);
            var d := Tallied(c, calls);
            if q.state == 0 then Reported(b.state, d) else Underway(q.state, q.repeat, d)
  {
    TalliedShort(c, Gesture(b).1);
    match b.state
    case 1 => FirstHeldTally(b, c);
    case 2 => ReleasedTally(b, c);
    case 3 => HeldAgainTally(b, c);
    case 5 => LongHeldTally(b, c);
  }

  lemma FirstHeldTally(b: State, c: Tally)
    requires b.state == 1 && Underway(1, b.repeat, c)
    ensures var (q, calls) := Gesture(b);
            |calls| <= 1 && Underway(q.state, q.repeat, if calls == [] then c else Plus(c, calls[0]))
  {
  }

  lemma ReleasedTally(b: State, c: Tally)
    requires b.state == 2 && Underway(2, b.repeat, c)
    ensures var (q, calls) := Gesture(b);
            var d := if calls == [] then c else if |calls| == 1 then Plus(c, calls[0])
                     else Plus(Plus(c, calls[0]), calls[1]);
            |calls| <= 2 && if q.state == 0 then Reported(2, d) else Underway(q.state, q.repeat, d)
  {
  }

  lemma HeldAgainTally(b: State, c: Tally)
    requires b.state == 3 && Underway(3, b.repeat, c)
    ensures var (q, calls) := Gesture(b);
            var d := if calls == [] then c else if |calls| == 1 then Plus(c, calls[0])
                     else if |calls| == 2 then Plus(Plus(c, calls[0]), calls[1])
                     else Plus(Plus(Plus(c, calls[0]), calls[1]), calls[2]);
            |calls| <= 3 && if q.state == 0 then Reported(3, d) else Underway(q.state, q.repeat, d)
  {
  }

  lemma LongHeldTally(b: State, c: Tally)
    requires b.state == 5 && Underway(5, b.repeat, c)
    ensures var (q, calls) := Gesture(b);
            var d := Plus(c, calls[0]);
            |calls| == 1 && if q.state == 0 then Reported(5, d) else Underway(q.state, q.repeat, d)
  {
  }

  lemma {:induction false} ExcursionUnderway(b: State, samples: seq<bool>, k: nat)
    requires Excursion(b, samples) && 0 < k < |samples|
    ensures Underway(Run(b, samples[..k]).0.state, Run(b, samples[..k]).0.repeat, Counts(Run(b, samples[..k]).1))
  {
    var (q, calls) := Run(b, samples[..k - 1]);
    assert samples[..k][..k - 1] == samples[..k - 1];
    var d := Debounce(q, samples[k - 1]);
    if k > 1 {
      ExcursionUnderway(b, samples, k - 1);
      StepTally(d, Counts(calls));
      TalliedConcat(Tally(0, 0, 0, 0, 0), calls, Gesture(d).1);
    } else {
      assert samples[..0] == [];
      Leaves(d);
      assert [] + Gesture(d).1 == Gesture(d).1;
    }
  }

  /** The first step of an excursion. */
  lemma Leaves(b: State)
    requires b.state == 0 && Gesture(b).0.state != 0
    ensures Underway(Gesture(b).0.state, Gesture(b).0.repeat, Counts(Gesture(b).1))
  {
    TalliedShort(Tally(0, 0, 0, 0, 0), Gesture(b).1);
    assert Kept(1) == 1;
  }

  /** What an excursion of more than one sample reports, for any number of presses. */
  lemma ExcursionReports(b: State, samples: seq<bool>)
    requires Excursion(b, samples) && |samples| > 1
    ensures Reported(Run(b, samples[..|samples| - 1]).0.state, Counts(Run(b, samples).1))
  {
    var n := |samples|;
    ExcursionUnderway(b, samples, n - 1);
    var (q, calls) := Run(b, samples[..n - 1]);
    var d := Debounce(q, samples[n - 1]);
    StepTally(d, Counts(calls));
    TalliedConcat(Tally(0, 0, 0, 0, 0), calls, Gesture(d).1);
  }

  // ---- The same, by the samples alone.

  /** The debounced level at the end of the samples of an excursion, which begin with the level going Down. */
  function LevelOf(samples: seq<bool>): Level {
    LastPair(Down, samples)
  }

  /** How often the level went Down. */
  function Presses(samples: seq<bool>): nat
    decreases |samples|
  {
    if |samples| < 2 then |samples|
    else
      var before := samples[..|samples| - 1];
      Presses(before) + if LevelOf(samples) == Down && LevelOf(before) != Down then 1 else 0
  }

  /** The last sample is the one that releases the button. */
  predicate EndsWithRelease(samples: seq<bool>)
    requires samples != []
  {
    LevelOf(samples[..|samples| - 1]) == Down
  }

  /** Inside an excursion the button is held exactly while the level is Down, and every rise of the level is a
      PRESS_DOWN. */
  lemma {:induction false} LevelInside(b: State, samples: seq<bool>, k: nat)
    requires Excursion(b, samples) && 0 < k < |samples|
    ensures var (q, calls) := Run(b, samples[..k]);
            && Sane(q) && q.level == LevelOf(samples[..k]) != Unknown
            && (q.debounce == 1 <==> Sampled(samples[k - 1]) != q.level)
            && (Held(q) <==> q.level == Down)
            && Counts(calls).downs == Presses(samples[..k])
  {
    var a := samples[..k - 1];
    var (q, calls) := Run(b, a);
    assert samples[..k][..k - 1] == a;
    RunSane(b, a);
    RunSane(b, samples[..k]);
    assert Run(b, samples[..k]).0.state != 0;
    if k == 1 {
      assert a == [];
      FirstSample(b, samples[0]);
      assert [] + Handle(b, samples[0]).1 == Handle(b, samples[0]).1;
    } else {
      LevelInside(b, samples, k - 1);
      LevelStep(q, samples[k - 1], Counts(calls));
      TalliedConcat(Tally(0, 0, 0, 0, 0), calls, Handle(q, samples[k - 1]).1);
      assert k > 2 ==> a[..k - 2][k - 3] == a[k - 3];
      assert samples[..k][k - 2] == samples[k - 2];
    }
  }

  lemma FirstSample(b: State, pressed: bool)
    requires Sane(b) && b.state == 0 && Handle(b, pressed).0.state != 0
    ensures var (q, calls) := Handle(b, pressed);
            && q.level == Down && q.state == 1 && (q.debounce == 1 <==> !pressed)
            && Counts(calls).downs == 1
  {
    TalliedShort(Tally(0, 0, 0, 0, 0), Handle(b, pressed).1);
  }

  /** One more sample: the level takes it over when the sample before was the same. */
  lemma LevelStep(b: State, pressed: bool, c: Tally)
    requires Sane(b) && b.state != 0 && b.level != Unknown && (Held(b) <==> b.level == Down)
    ensures var (q, calls) := Handle(b, pressed);
            && q.level == (if b.debounce == 1 then Sampled(pressed) else b.level)
            && (q.debounce == 1 <==> Sampled(pressed) != q.level)
            && (Held(q) <==> q.level == Down)
            && Tallied(c, calls).downs == c.downs + if q.level == Down && b.level != Down then 1 else 0
  {
    TalliedShort(c, Handle(b, pressed).1);
  }

  /** The gesture told for p presses, the last of them released late or not: a long press for one press released
      late, a single click for p = 1 modulo 16 released in time, a repeat for p > 1 modulo 16, which is also a double
      click for p = 2 modulo 16. */
  predicate Told(c: Tally, p: nat, late: bool) {
    ToldBy(c, p, p % 16, late)
  }

  /** The same with m for p modulo 16. */
  predicate ToldBy(c: Tally, p: nat, m: nat, late: bool) {
    && c.downs == p > 0
    && c.long == (if p == 1 && late then 1 else 0)
    && c.single == (if m == 1 && !late then 1 else 0)
    && c.repeats == (if m > 1 then 1 else 0)
    && c.double == (if m == 2 then 1 else 0)
  }

  /** What an excursion reports, by its samples alone, for any number of presses. */
  lemma GestureTold(b: State, samples: seq<bool>)
    requires Excursion(b, samples) && |samples| > 1
    ensures Told(Counts(Run(b, samples).1), Presses(samples), EndsWithRelease(samples))
  {
    var c := Counts(Run(b, samples).1);
    ExcursionReports(b, samples);
    ExcursionPresses(b, samples);
    KeptIsModulo(c.downs);
    Reports(Run(b, samples[..|samples| - 1]).0, c, Kept(c.downs));
  }

  function Gestures(c: Tally): nat {
    c.single + c.long + c.repeats
  }

  /** The 4-bit count of p presses wrapped to 0, or to 1 with the last press released late. */
  predicate Wrapped(p: nat, late: bool) {
    p % 16 == 0 || (p % 16 == 1 && p > 1 && late)
  }

  /** One gesture is told exactly if the count did not wrap, which below 16 presses it does not, and none if it did; a
      double click below 16 presses is one for two of them. */
  predicate OneTold(c: Tally, p: nat, late: bool) {
    && Gestures(c) <= 1
    && (Gestures(c) == 1 <==> !Wrapped(p, late))
    && (p < 16 ==> Gestures(c) == 1 && (c.double == 1 <==> p == 2))
  }

  /** Exactly one gesture is reported, unless the count of the presses wrapped: then none is. */
  lemma OneGesture(b: State, samples: seq<bool>)
    requires Excursion(b, samples) && |samples| > 1
    ensures OneTold(Counts(Run(b, samples).1), Presses(samples), EndsWithRelease(samples))
  {
    GestureTold(b, samples);
    ToldOnce(Counts(Run(b, samples).1), Presses(samples), EndsWithRelease(samples));
  }

  lemma ToldOnce(c: Tally, p: nat, late: bool)
    requires Told(c, p, late)
    ensures OneTold(c, p, late)
  {
    ToldByOnce(c, p, p % 16, late);
  }

  lemma ToldByOnce(c: Tally, p: nat, m: nat, late: bool)
    requires ToldBy(c, p, m, late) && (p < 16 ==> m == p)
    ensures Gestures(c) <= 1
    ensures Gestures(c) == 1 <==> !(m == 0 || (m == 1 && p > 1 && late))
    ensures p < 16 ==> Gestures(c) == 1 && (c.double == 1 <==> p == 2)
  {
  }

  lemma ExcursionPresses(b: State, samples: seq<bool>)
    requires Excursion(b, samples) && |samples| > 1
    ensures Counts(Run(b, samples).1).downs == Presses(samples)
    ensures Held(Run(b, samples[..|samples| - 1]).0) <==> EndsWithRelease(samples)
  {
    var n := |samples|;
    var (q, calls) := Run(b, samples[..n - 1]);
    LevelInside(b, samples, n - 1);
    LevelStep(q, samples[n - 1], Counts(calls));
    TalliedConcat(Tally(0, 0, 0, 0, 0), calls, Handle(q, samples[n - 1]).1);
    assert samples[..n - 1][n - 2] == samples[n - 2];
  }

  lemma Reports(b: State, c: Tally, m: nat)
    requires Reported(b.state, c) && Kept(c.downs) == m && (c.downs == 1 ==> m == 1)
    ensures ToldBy(c, c.downs, m, Held(b))
  {
  }

  // ---- Bursts of clicks: that the exceptions are met.

  /** n quick clicks, each held for two samples and released for two, the very first sample of which has been made. */
  function Clicks(n: nat): seq<bool> {
    if n <= 1 then [true, false, false] else Clicks(n - 1) + [true, true, false, false]
  }

  function Quiet(n: nat): seq<bool> {
    seq(n, _ => false)
  }

  /** From b the samples lead to q, through no state 0, with the given number of presses. */
  ghost predicate Leads(b: State, samples: seq<bool>, q: State, downs: nat) {
    && (forall k :: 0 < k <= |samples| ==> Run(b, samples[..k]).0.state != 0)
    && Run(b, samples).0 == q
    && Counts(Run(b, samples).1).downs == downs
  }

  lemma {:induction false} RunConcat(b: State, x: seq<bool>, y: seq<bool>)
    ensures Run(b, x + y).0 == Run(Run(b, x).0, y).0
    ensures Run(b, x + y).1 == Run(b, x).1 + Run(Run(b, x).0, y).1
    decreases |y|
  {
    if y == [] {
      assert x + y == x;
      assert Run(b, x).1 + [] == Run(b, x).1;
    } else {
      var z, e := y[..|y| - 1], y[|y| - 1];
      assert y == z + [e];
      RunConcat(b, x, z);
      RunStep(b, x + z, e);
      RunStep(Run(b, x).0, z, e);
      assert x + y == x + z + [e];
      Associates(Run(b, x).1, Run(Run(b, x).0, z).1, Handle(Run(b, x + z).0, e).1);
    }
  }

  lemma RunStep(b: State, x: seq<bool>, e: bool)
    ensures Run(b, x + [e]).0 == Handle(Run(b, x).0, e).0
    ensures Run(b, x + [e]).1 == Run(b, x).1 + Handle(Run(b, x).0, e).1
  {
    assert (x + [e])[..|x + [e]| - 1] == x;
  }

  lemma Associates(x: seq<Event>, y: seq<Event>, z: seq<Event>)
    ensures x + y + z == x + (y + z)
  {
  }

  lemma {:induction false} DownsAdd(c: Tally, d: Tally, calls: seq<Event>)
    ensures Tallied(c, calls).downs - c.downs == Tallied(d, calls).downs - d.downs
    decreases |calls|
  {
    if calls != [] {
      DownsAdd(Plus(c, calls[0]), Plus(d, calls[0]), calls[1..]);
    }
  }

  lemma LeadsOn(b: State, x: seq<bool>, q: State, m: nat, y: seq<bool>, r: State, n: nat)
    requires Leads(b, x, q, m) && Leads(q, y, r, n)
    ensures Leads(b, x + y, r, m + n)
  {
    RunConcat(b, x, y);
    TalliedConcat(Tally(0, 0, 0, 0, 0), Run(b, x).1, Run(q, y).1);
    DownsAdd(Tally(0, 0, 0, 0, 0), Counts(Run(b, x).1), Run(q, y).1);
    forall k | 0 < k <= |x + y| ensures Run(b, (x + y)[..k]).0.state != 0 {
      if k <= |x| {
        assert (x + y)[..k] == x[..k];
      } else {
        assert (x + y)[..k] == x + y[..k - |x|];
        RunConcat(b, x, y[..k - |x|]);
      }
    }
  }

  lemma LeadsOne(b: State, pressed: bool)
    ensures var (q, calls) := Handle(b, pressed); q.state != 0 ==> Leads(b, [pressed], q, Counts(calls).downs)
  {
    var q, calls := Handle(b, pressed).0, Handle(b, pressed).1;
    assert [pressed][..0] == [] && [pressed][..1] == [pressed];
    assert [] + calls == calls;
    assert Run(b, [pressed]) == (q, calls);
  }

  /** Two samples against the level, the first only noted. */
  lemma LeadsTwo(b: State, pressed: bool)
    requires b.state != 0 && b.debounce == 0 && b.level != Unknown && b.level != Sampled(pressed)
    requires b.ticks == 0 && b.state in {1, 2, 3} && (Held(b) <==> b.level == Down)
    ensures var c := b.(ticks := 1, debounce := 1);
            var (q, calls) := Handle(c, pressed);
            q.state != 0 ==> Leads(b, [pressed, pressed], q, Counts(calls).downs)
  {
    var c := b.(ticks := 1, debounce := 1);
    assert Handle(b, pressed) == (c, []);
    LeadsOne(b, pressed);
    LeadsOne(c, pressed);
    if Handle(c, pressed).0.state != 0 {
      LeadsOn(b, [pressed], c, 0, [pressed], Handle(c, pressed).0, Counts(Handle(c, pressed).1).downs);
      assert [pressed] + [pressed] == [pressed, pressed];
    }
  }

  /** The button right after a release, with repeat r. */
  function Resting(r: nat): State {
    State(0, r, PRESS_UP, 2, 0, Up)
  }

  /** And right after a press that was not the first. */
  function Repeating(r: nat): State {
    State(0, r, PRESS_DOWN, 3, 0, Down)
  }

  lemma ClickLeads(r: nat)
    ensures Leads(Resting(r), [true, true], Repeating(Inc(r, 15)), 1)
    ensures Leads(Repeating(r), [false, false], Resting(r), 0)
    ensures Leads(Resting(r), [true, true, false, false], Resting(Inc(r, 15)), 1)
  {
    LeadsTwo(Resting(r), true);
    LeadsTwo(Repeating(r), false);
    LeadsTwo(Repeating(Inc(r, 15)), false);
    TalliedShort(Tally(0, 0, 0, 0, 0), [PRESS_DOWN]);
    TalliedShort(Tally(0, 0, 0, 0, 0), [PRESS_UP]);
    LeadsOn(Resting(r), [true, true], Repeating(Inc(r, 15)), 1, [false, false], Resting(Inc(r, 15)), 0);
    assert [true, true] + [false, false] == [true, true, false, false];
  }

  /** A new button that has noted its first pressed sample. */
  function Noted(): State {
    Init().(debounce := 1)
  }

  lemma {:induction false} ClicksLead(n: nat)
    requires n > 0
    ensures Leads(Noted(), Clicks(n), Resting(Kept(n)), n)
  {
    if n == 1 {
      FirstClickLeads();
    } else {
      ClicksLead(n - 1);
      ClickLeads(Kept(n - 1));
      LeadsOn(Noted(), Clicks(n - 1), Resting(Kept(n - 1)), n - 1,
              [true, true, false, false], Resting(Inc(Kept(n - 1), 15)), 1);
    }
  }

  lemma FirstClickLeads()
    ensures Leads(Noted(), [true, false, false], Resting(Kept(1)), 1)
  {
    FirstPressLeads();
    FirstReleaseLeads();
    LeadsOn(Noted(), [true], Pressing(), 1, [false, false], Resting(1), 0);
    assert [true] + [false, false] == [true, false, false];
    assert Kept(1) == 1;
  }

  /** The button right after its first press. */
  function Pressing(): State {
    State(0, 1, PRESS_DOWN, 1, 0, Down)
  }

  lemma FirstPressLeads()
    ensures Leads(Noted(), [true], Pressing(), 1)
  {
    assert Handle(Noted(), true) == (Pressing(), [PRESS_DOWN]);
    LeadsOne(Noted(), true);
    TalliedShort(Tally(0, 0, 0, 0, 0), [PRESS_DOWN]);
  }

  lemma FirstReleaseLeads()
    ensures Leads(Pressing(), [false, false], Resting(1), 0)
  {
    assert Handle(Pressing().(ticks := 1, debounce := 1), false) == (Resting(1), [PRESS_UP]);
    LeadsTwo(Pressing(), false);
    TalliedShort(Tally(0, 0, 0, 0, 0), [PRESS_UP]);
  }

  lemma {:induction false} QuietLeads(r: nat, k: nat)
    requires k <= SHORT_TICKS
    ensures Leads(Resting(r), Quiet(k), Resting(r).(ticks := k), 0)
  {
    if k > 0 {
      QuietLeads(r, k - 1);
      var q := Resting(r).(ticks := k - 1);
      assert Handle(q, false) == (Resting(r).(ticks := k), []);
      LeadsOne(q, false);
      LeadsOn(Resting(r), Quiet(k - 1), q, 0, [false], Resting(r).(ticks := k), 0);
      assert Quiet(k - 1) + [false] == Quiet(k);
    }
  }

  /** Samples that lead from state 0 to a state from which one more goes back to 0 are an excursion. */
  lemma LeadsExcursion(b: State, x: seq<bool>, q: State, downs: nat, pressed: bool)
    requires Sane(b) && b.state == 0 && |x| > 0 && Leads(b, x, q, downs)
    requires Handle(q, pressed).0.state == 0
    ensures Excursion(b, x + [pressed])
    ensures (x + [pressed])[..|x|] == x
  {
    var y := x + [pressed];
    assert y[..|y| - 1] == x;
    forall k | 0 < k < |y| ensures Run(b, y[..k]).0.state != 0 {
      assert y[..k] == x[..k];
    }
  }

  /** n quick clicks, then quiet until a last sample. */
  function Burst(n: nat): seq<bool>
    requires n > 0
  {
    BurstBody(n) + [false]
  }

  function BurstBody(n: nat): seq<bool>
    requires n > 0
  {
    Clicks(n) + Quiet(SHORT_TICKS)
  }

  /** From a new button x leads to q with n presses, and one more released sample ends the excursion. */
  ghost predicate AtEnd(x: seq<bool>, q: State, n: nat) {
    && x != [] && Leads(Noted(), x, q, n)
    && Handle(q, false).0.state == 0 && Counts(Handle(q, false).1).downs == 0
  }

  /** Every number of presses is made by some samples: n quick clicks on a new button are an excursion of n presses,
      of which nothing is reported when n is a multiple of 16. */
  lemma BurstTold(n: nat)
    requires n > 0
    ensures Run(Init(), [true]).0 == Noted()
    ensures Excursion(Noted(), Burst(n)) && Presses(Burst(n)) == n && !EndsWithRelease(Burst(n))
    ensures n % 16 == 0 ==> Gestures(Counts(Run(Noted(), Burst(n)).1)) == 0
  {
    NotedFirst();
    var q := BurstLeads(n);
    EndTold(BurstBody(n), q, n);
  }

  lemma EndTold(x: seq<bool>, q: State, n: nat)
    requires AtEnd(x, q, n)
    ensures Excursion(Noted(), x + [false]) && Presses(x + [false]) == n
    ensures EndsWithRelease(x + [false]) <==> Held(q)
    ensures n % 16 == 0 || (n % 16 == 1 && n > 1 && Held(q)) ==>
              Gestures(Counts(Run(Noted(), x + [false]).1)) == 0
  {
    LeadsExcursion(Noted(), x, q, n, false);
    LastPresses(x, q, n);
    OneGesture(Noted(), x + [false]);
  }

  lemma BurstLeads(n: nat) returns (q: State)
    requires n > 0
    ensures AtEnd(BurstBody(n), q, n) && !Held(q)
  {
    var r := Kept(n);
    q := Resting(r).(ticks := SHORT_TICKS);
    ClicksLead(n);
    QuietLeads(r, SHORT_TICKS);
    LeadsOn(Noted(), Clicks(n), Resting(r), n, Quiet(SHORT_TICKS), q, 0);
    LastQuiet(r);
  }

  lemma LastQuiet(r: nat)
    ensures var (q, calls) := Handle(Resting(r).(ticks := SHORT_TICKS), false);
            q.state == 0 && Counts(calls).downs == 0
  {
    TalliedShort(Tally(0, 0, 0, 0, 0), Handle(Resting(r).(ticks := SHORT_TICKS), false).1);
  }

  /** n quick clicks, then one that is held too long to be quick. */
  function LateBurst(n: nat): seq<bool>
    requires n > 0
  {
    LateBody(n) + [false]
  }

  function LateBody(n: nat): seq<bool>
    requires n > 0
  {
    Clicks(n) + Hold()
  }

  function Hold(): seq<bool> {
    [true, true] + Pressed(SHORT_TICKS) + [false]
  }

  function Pressed(n: nat): seq<bool> {
    seq(n, _ => true)
  }

  /** With the last of the presses released late, nothing is reported when there are 17 of them, or 33, ... */
  lemma LateBurstTold(n: nat)
    requires n > 0
    ensures Excursion(Noted(), LateBurst(n)) && Presses(LateBurst(n)) == n + 1 && EndsWithRelease(LateBurst(n))
    ensures n % 16 == 0 ==> Gestures(Counts(Run(Noted(), LateBurst(n)).1)) == 0
  {
    var q := LateBurstLeads(n);
    EndTold(LateBody(n), q, n + 1);
    NextOfMultiple(n);
  }

  lemma NextOfMultiple(n: nat)
    ensures n % 16 == 0 ==> (n + 1) % 16 == 1
  {
  }

  lemma LateBurstLeads(n: nat) returns (q: State)
    requires n > 0
    ensures AtEnd(LateBody(n), q, n + 1) && Held(q)
  {
    var r := Kept(n);
    q := HeldLate(Inc(r, 15));
    ClicksLead(n);
    HoldLeads(r);
    LeadsOn(Noted(), Clicks(n), Resting(r), n, Hold(), q, 1);
    LateRelease(Inc(r, 15));
  }

  /** The button held too long, with the first released sample noted. */
  function HeldLate(r: nat): State {
    State(SHORT_TICKS + 1, r, PRESS_DOWN, 3, 1, Down)
  }

  lemma HoldLeads(r: nat)
    ensures Leads(Resting(r), Hold(), HeldLate(Inc(r, 15)), 1)
  {
    var p, q := Repeating(Inc(r, 15)), Repeating(Inc(r, 15)).(ticks := SHORT_TICKS);
    ClickLeads(r);
    PressedLeads(Inc(r, 15), SHORT_TICKS);
    LeadsOn(Resting(r), [true, true], p, 1, Pressed(SHORT_TICKS), q, 0);
    assert Handle(q, false) == (HeldLate(Inc(r, 15)), []);
    LeadsOne(q, false);
    LeadsOn(Resting(r), [true, true] + Pressed(SHORT_TICKS), q, 1, [false], HeldLate(Inc(r, 15)), 0);
  }

  lemma {:induction false} PressedLeads(r: nat, k: nat)
    requires k <= SHORT_TICKS
    ensures Leads(Repeating(r), Pressed(k), Repeating(r).(ticks := k), 0)
  {
    if k > 0 {
      PressedLeads(r, k - 1);
      var q := Repeating(r).(ticks := k - 1);
      assert Handle(q, true) == (Repeating(r).(ticks := k), []);
      LeadsOne(q, true);
      LeadsOn(Repeating(r), Pressed(k - 1), q, 0, [true], Repeating(r).(ticks := k), 0);
      assert Pressed(k - 1) + [true] == Pressed(k);
    }
  }

  lemma LateRelease(r: nat)
    ensures var (q, calls) := Handle(HeldLate(r), false); q.state == 0 && Counts(calls).downs == 0
  {
    TalliedShort(Tally(0, 0, 0, 0, 0), Handle(HeldLate(r), false).1);
  }

  lemma LastPresses(x: seq<bool>, q: State, n: nat)
    requires Excursion(Noted(), x + [false]) && (x + [false])[..|x|] == x && |x| > 0
    requires Leads(Noted(), x, q, n) && Counts(Handle(q, false).1).downs == 0
    ensures Presses(x + [false]) == n && (EndsWithRelease(x + [false]) <==> Held(q))
  {
    var calls, more := Run(Noted(), x).1, Handle(q, false).1;
    ExcursionPresses(Noted(), x + [false]);
    assert Run(Noted(), x + [false]).1 == calls + more;
    TalliedConcat(Tally(0, 0, 0, 0, 0), calls, more);
    DownsAdd(Tally(0, 0, 0, 0, 0), Counts(calls), more);
  }

  lemma NotedFirst()
    ensures Run(Init(), [true]).0 == Noted()
  {
    assert [true][..0] == [];
    assert Handle(Init(), true).0 == Noted();
  }

  // ---- When each call comes.

  /** The level is l from b on, at every sample. */
  predicate Stays(b: State, samples: seq<bool>, l: Level)
    decreases |samples|
  {
    Run(b, samples).0.level == l && (samples == [] || Stays(b, samples[..|samples| - 1], l))
  }

  lemma StaysBefore(b: State, samples: seq<bool>, l: Level)
    requires Stays(b, samples, l) && samples != []
    ensures Stays(b, samples[..|samples| - 1], l)
    ensures Debounce(Run(b, samples[..|samples| - 1]).0, samples[|samples| - 1]).level == l
  {
    var before := samples[..|samples| - 1];
    GestureFrame(Debounce(Run(b, before).0, samples[|samples| - 1]));
  }

  function Holds(n: nat): seq<Event> {
    if n == 0 then [] else Holds(n - 1) + [LONG_HOLD]
  }

  /** A first press held for n samples, with the calls made: nothing for 75 samples, LONG_START at sample 76, LONG_HOLD
      at every one after it. */
  predicate HeldFor(r: State, calls: seq<Event>, n: nat) {
    if n <= LONG_TICKS then r.state == 1 && r.ticks == n && calls == []
    else r.state == 5 && calls == [LONG_START] + Holds(n - LONG_TICKS - 1)
  }

  lemma {:induction false} HeldTimeline(b: State, samples: seq<bool>)
    requires b.state == 1 && b.ticks == 0 && Stays(b, samples, Down)
    ensures HeldFor(Run(b, samples).0, Run(b, samples).1, |samples|)
    decreases |samples|
  {
    if samples != [] {
      var before, last := samples[..|samples| - 1], samples[|samples| - 1];
      StaysBefore(b, samples, Down);
      HeldTimeline(b, before);
      HeldNext(Run(b, before).0, Run(b, before).1, |before|, last);
    }
  }

  lemma HeldNext(b: State, calls: seq<Event>, n: nat, pressed: bool)
    requires HeldFor(b, calls, n) && Debounce(b, pressed).level == Down
    ensures HeldFor(Handle(b, pressed).0, calls + Handle(b, pressed).1, n + 1)
  {
    if n <= LONG_TICKS {
      assert [] + Handle(b, pressed).1 == Handle(b, pressed).1;
      assert [LONG_START] + Holds(0) == [LONG_START];
    } else {
      assert [LONG_START] + Holds(n - LONG_TICKS - 1) + [LONG_HOLD] == [LONG_START] + Holds(n - LONG_TICKS);
    }
  }

  /** What a release that is not followed by a press reports, when it does. */
  function ToldFor(repeat: nat): seq<Event> {
    if repeat == 0 then [] else if repeat == 1 then [SINGLE_CLICK]
    else if repeat == 2 then [DOUBLE_CLICK, PRESS_REPEAT] else [PRESS_REPEAT]
  }

  /** A release not followed by a press: nothing for 15 samples, the gesture at sample 16, nothing after it. */
  lemma {:induction false} ReleasedTimeline(b: State, samples: seq<bool>)
    requires b.state == 2 && b.ticks == 0 && Stays(b, samples, Up)
    ensures var n, (r, calls) := |samples|, Run(b, samples);
            && calls == (if n <= SHORT_TICKS then [] else ToldFor(b.repeat))
            && (if n <= SHORT_TICKS then r.state == 2 && r.ticks == n && r.repeat == b.repeat else r.state == 0)
    decreases |samples|
  {
    if samples != [] {
      StaysBefore(b, samples, Up);
      ReleasedTimeline(b, samples[..|samples| - 1]);
    }
  }

  /** A repeated press held: nothing, while the 16-bit tick counter runs, and wraps. */
  lemma {:induction false} RepeatHeld(b: State, samples: seq<bool>)
    requires b.state == 3 && b.ticks == 0 && Stays(b, samples, Down)
    ensures var (r, calls) := Run(b, samples);
            calls == [] && r.state == 3 && r.ticks == |samples| % 0x1_0000 && r.repeat == b.repeat
    decreases |samples|
  {
    if samples != [] {
      StaysBefore(b, samples, Down);
      RepeatHeld(b, samples[..|samples| - 1]);
      TicksWrap(|samples| - 1);
    }
  }

  lemma TicksWrap(n: nat)
    ensures (n + 1) % 0x1_0000 == Inc(n % 0x1_0000, 0xFFFF)
  {
    assert n == n / 0x1_0000 * 0x1_0000 + n % 0x1_0000;
  }

  /** Its release at sample n is in time, so that presses may follow, exactly if n is less than 15 modulo 65536; else
      it ends the excursion with its gesture. A press held for 65536 samples is quick again. */
  lemma RepeatReleased(b: State, samples: seq<bool>, last: bool)
    requires b.state == 3 && b.ticks == 0 && Stays(b, samples, Down)
    requires Run(b, samples + [last]).0.level == Up
    ensures var n, (r, calls) := |samples| + 1, Run(b, samples + [last]);
            if n % 0x1_0000 < SHORT_TICKS then r.state == 2 && r.ticks == 0 && calls == [PRESS_UP]
            else r.state == 0 && calls == [PRESS_UP] + if b.repeat > 1 then ToldFor(b.repeat) else []
  {
    RepeatHeld(b, samples);
    RunStep(b, samples, last);
    TicksWrap(|samples|);
    GestureFrame(Debounce(Run(b, samples).0, last));
  }

  /** Whenever the level changes during an excursion, or starts one, the time is counted from there; a press is counted
      when it comes, the first as 1. */
  lemma TimeStarts(b: State, pressed: bool)
    requires Sane(b) && (Held(b) <==> b.level == Down) && (b.state != 0 ==> b.level != Unknown)
    ensures var r := Handle(b, pressed).0;
            && (r.level != b.level && r.state in {1, 2, 3} ==> r.ticks == 0)
            && (r.level == Down != b.level ==>
                  && r.repeat == (if b.state == 0 then 1 else Inc(b.repeat, 15))
                  && r.state == if b.state == 0 then 1 else 3)
            && (r.level != Down ==> r.repeat == b.repeat)
            && (r.level != Down && b.state == 1 ==> r.state == 2)
            && (r.level != Down && b.state == 5 ==> r.state == 0)
  {
  }

  /** What get_button_event finds: the last call made in the step, or what it found before; or nothing, while the button
      is up and no excursion is under way. */
  lemma EventIsLastCall(b: State, pressed: bool)
    requires Sane(b)
    ensures var (r, calls) := Handle(b, pressed);
            r.event == if calls != [] then calls[|calls| - 1]
                       else if b.state == 0 then NONE_PRESS else b.event
  {
  }
}
