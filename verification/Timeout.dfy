/** How the blocking calls of the mailbox and the message queue account for the time they have slept, on a
    32-bit tick counter that wraps around. */
module Timeout {
  import opened Kernel

  const TWO_31 := 0x8000_0000
  const TWO_32 := 0x1_0000_0000

  /** tick_delta: the unsigned difference of two tick readings. */
  function TickDelta(start: int, now: int): int {
    (now - start) % TWO_32
  }

  /** timeout -= tick_delta, where timeout is a signed and tick_delta an unsigned 32-bit number. */
  function Subtract32(timeout: int, delta: int): int {
    var u := (timeout - delta) % TWO_32;
    if u < TWO_31 then u else u - TWO_32
  }

  /** The timeout a resumed thread waits with, if it has to wait again. */
  function Remaining(timeout: int, start: int, now: int): int {
    if timeout > 0 then
      var left := Subtract32(timeout, TickDelta(start, now));
      if left < 0 then 0 else left
    else timeout
  }

  function Clipped(x: int): int {
    if x < 0 then 0 else x
  }

  /** The tick reading after e more ticks. */
  function TickAfter(start: int, e: nat): int {
    (start + e) % TWO_32
  }

  /** The difference of the readings is the time slept, although the counter may have wrapped. */
  lemma TickDeltaIsElapsed(start: int, e: nat)
    requires 0 <= start < TWO_32 && e < TWO_32
    ensures TickDelta(start, TickAfter(start, e)) == e
  {
    var now := TickAfter(start, e);
    if start + e < TWO_32 {
      assert now == start + e;
    } else {
      assert now == start + e - TWO_32;
      assert TickDelta(start, now) == (e - TWO_32) % TWO_32;
    }
  }

  /** The recomputed timeout is what is left of it exactly when the thread did not oversleep its timeout by more
      than 2^31 ticks; past that, the difference wraps and the thread would wait on. */
  lemma RemainingIsRest(timeout: int, start: int, e: nat)
    requires 0 < timeout < TWO_31 && 0 <= start < TWO_32 && e < TWO_32
    ensures Remaining(timeout, start, TickAfter(start, e)) == Clipped(timeout - e) <==> e <= timeout + TWO_31
  {
    TickDeltaIsElapsed(start, e);
    if e <= timeout {
      assert (timeout - e) % TWO_32 == timeout - e;
    } else {
      assert (timeout - e) % TWO_32 == timeout - e + TWO_32;
    }
  }

  /** One suspension of a retry loop, as the rest of the system determines it: the error the thread is resumed
      with, the tick reading it fell asleep at, the ticks it slept, and whether it then finds the
      resource available. */
  datatype Sleep = Sleep(error: Err, start: int, ticks: nat, available: bool)

  /** How a retry loop ends: still asleep, with the resource, given up for lack of time, or with the
      error it was resumed with; after how many suspensions; and with what timeout. */
  datatype End = Asleep | Got | GaveUp | Failed(err: Err)
  datatype Result = Result(end: End, used: nat, left: int)

  function Loop(available: bool, timeout: int, sleeps: seq<Sleep>): Result
    decreases |sleeps|
  {
    if available then Result(Got, 0, timeout)
    else if timeout == 0 then Result(GaveUp, 0, 0)
    else if sleeps == [] then Result(Asleep, 0, timeout)
    else
      var s := sleeps[0];
      if s.error != EOK then Result(Failed(s.error), 1, timeout)
      else
        var r := Loop(s.available, Remaining(timeout, s.start, TickAfter(s.start, s.ticks)), sleeps[1..]);
        r.(used := r.used + 1)
  }

  /** The loop that rt_mb_send_wait, rt_mb_recv, rt_mq_send_wait and rt_mq_recv share. */
  method Retry(available: bool, timeout: int, sleeps: seq<Sleep>) returns (r: Result)
    ensures r == Loop(available, timeout, sleeps)
  {
    var free, left, used := available, timeout, 0;
    while !free
      invariant used <= |sleeps|
      invariant var rest := Loop(free, left, sleeps[used..]);
                rest.(used := used + rest.used) == Loop(available, timeout, sleeps)
      decreases |sleeps| - used, !free
    {
      if left == 0 {
        return Result(GaveUp, used, 0);
      }
      if used == |sleeps| {
        return Result(Asleep, used, left);
      }
      var s := sleeps[used];
      assert sleeps[used..][1..] == sleeps[used + 1..];
      used := used + 1;
      if s.error != EOK {
        return Result(Failed(s.error), used, left);
      }
      if left > 0 {
        var delta := TickDelta(s.start, TickAfter(s.start, s.ticks));
        left := Subtract32(left, delta);
        if left < 0 {
          left := 0;
        }
      }
      free := s.available;
    }
    return Result(Got, used, left);
  }

  /** The ticks slept in the first n suspensions. */
  function Slept(sleeps: seq<Sleep>, n: nat): nat
    requires n <= |sleeps|
  {
    if n == 0 then 0 else Slept(sleeps, n - 1) + sleeps[n - 1].ticks
  }

  ghost predicate Ticks(s: Sleep) {
    0 <= s.start < TWO_32 && s.ticks < TWO_31
  }

  lemma {:induction false} SleptShift(sleeps: seq<Sleep>, n: nat)
    requires 0 < n <= |sleeps|
    ensures Slept(sleeps, n) == sleeps[0].ticks + Slept(sleeps[1..], n - 1)
  {
    if n > 1 {
      SleptShift(sleeps, n - 1);
    }
  }

  /** Suspension j did not end the call: no error, no resource, time left. */
  ghost predicate SleepsOn(timeout: int, sleeps: seq<Sleep>, j: nat)
    requires j < |sleeps|
  {
    sleeps[j].error == EOK && !sleeps[j].available && Slept(sleeps, j + 1) < timeout
  }

  /** What the end r of a call says about the suspensions up to it. */
  ghost predicate EndsRight(available: bool, timeout: int, sleeps: seq<Sleep>, r: Result)
    requires r.used <= |sleeps|
  {
    var last := r.used - 1;
    match r.end
    case Got => (if r.used == 0 then available else sleeps[last].error == EOK && sleeps[last].available)
                && r.left == Clipped(timeout - Slept(sleeps, r.used))
    case GaveUp => r.used > 0 && sleeps[last].error == EOK && !sleeps[last].available
                   && timeout <= Slept(sleeps, r.used) && r.left == 0
    case Failed(e) => r.used > 0 && sleeps[last].error == e != EOK
    case Asleep => r.used == |sleeps| && (if r.used == 0 then !available else SleepsOn(timeout, sleeps, last))
                   && r.left == timeout - Slept(sleeps, r.used)
  }

  /** A call with a timeout, over any number of suspensions of fewer than 2^31 ticks each, the counter wrapping in
      any of them: it keeps sleeping exactly while nothing woke it with an error, the resource was
      not there and its time, less all it has slept, was not up; it ends for the first of these
      that happens, and the timeout it ends with is that difference. */
  lemma {:induction false} TimeIsKept(available: bool, timeout: int, sleeps: seq<Sleep>)
    requires 0 < timeout < TWO_31
    requires forall s <- sleeps :: Ticks(s)
    ensures var r := Loop(available, timeout, sleeps);
            && r.used <= |sleeps|
            && (forall j :: 0 <= j < r.used - 1 ==> SleepsOn(timeout, sleeps, j))
            && EndsRight(available, timeout, sleeps, r)
    decreases |sleeps|
  {
    if !available && sleeps != [] && sleeps[0].error == EOK {
      var s, rest := sleeps[0], sleeps[1..];
      assert s in sleeps;
      var left := Remaining(timeout, s.start, TickAfter(s.start, s.ticks));
      RemainingIsRest(timeout, s.start, s.ticks);
      var q := Loop(s.available, left, rest);
      assert Slept(sleeps, 1) == s.ticks by { SleptShift(sleeps, 1); }
      if left > 0 {
        TimeIsKept(s.available, left, rest);
        FirstSleep(timeout, left, sleeps, q);
      } else {
        assert q.used == 0;
      }
    }
  }

  /** From the suspensions behind the first to all of them. */
  lemma FirstSleep(timeout: int, left: int, sleeps: seq<Sleep>, q: Result)
    requires sleeps != [] && sleeps[0].error == EOK && 0 < left == timeout - sleeps[0].ticks
    requires q.used <= |sleeps| - 1 && EndsRight(sleeps[0].available, left, sleeps[1..], q)
    requires forall j :: 0 <= j < q.used - 1 ==> SleepsOn(left, sleeps[1..], j)
    requires q.used > 0 ==> !sleeps[0].available
    ensures forall j :: 0 <= j < q.used ==> SleepsOn(timeout, sleeps, j)
    ensures EndsRight(false, timeout, sleeps, q.(used := q.used + 1))
  {
    var rest := sleeps[1..];
    SleptShift(sleeps, q.used + 1);
    forall j | 0 <= j < q.used ensures SleepsOn(timeout, sleeps, j) {
      SleptShift(sleeps, j + 1);
      if j > 0 {
        assert SleepsOn(left, rest, j - 1) && rest[j - 1] == sleeps[j];
      }
    }
  }

  /** A call that waits forever never gives up for lack of time. */
  lemma {:induction false} ForeverNeverGivesUp(available: bool, timeout: int, sleeps: seq<Sleep>)
    requires timeout < 0
    ensures !Loop(available, timeout, sleeps).end.GaveUp?
    decreases |sleeps|
  {
    if !available && sleeps != [] && sleeps[0].error == EOK {
      ForeverNeverGivesUp(sleeps[0].available, timeout, sleeps[1..]);
    }
  }

  /** Suspension j left the thread with nothing to stop for. */
  predicate NothingYet(sleeps: seq<Sleep>, j: nat)
    requires j < |sleeps|
  {
    sleeps[j].error == EOK && !sleeps[j].available
  }

  /** It sleeps on until the first resume with an error, which it returns, or the first that finds the resource, which
      it takes, however long that is; and waits forever still. */
  lemma {:induction false} ForeverEndsRight(available: bool, timeout: int, sleeps: seq<Sleep>)
    requires timeout < 0
    ensures var r := Loop(available, timeout, sleeps);
            && r.used <= |sleeps| && r.left == timeout
            && (forall j :: 0 <= j < r.used - 1 ==> NothingYet(sleeps, j))
            && (available ==> r.end == Got && r.used == 0)
            && (!available && r.used > 0 ==>
                  var last := sleeps[r.used - 1];
                  if last.error != EOK then r.end == Failed(last.error)
                  else if last.available then r.end == Got
                  else r.end == Asleep && r.used == |sleeps|)
            && (!available && r.used == 0 ==> r.end == Asleep && sleeps == [])
    decreases |sleeps|
  {
    if !available && sleeps != [] && sleeps[0].error == EOK {
      ForeverEndsRight(sleeps[0].available, timeout, sleeps[1..]);
      var r := Loop(available, timeout, sleeps);
      forall j | 0 <= j < r.used - 1 ensures NothingYet(sleeps, j) {
        if j > 0 {
          assert NothingYet(sleeps[1..], j - 1);
        }
      }
    }
  }

  /** And one that does not wait tries once. */
  lemma NeverWaits(available: bool, sleeps: seq<Sleep>)
    ensures Loop(available, 0, sleeps) == Result(if available then Got else GaveUp, 0, 0)
  {
  }
}
