/** The event flag set: waiting for all or any of a set of bits, delivery in list order, and no lost wake-up. */
module Event {
  import opened Kernel
  import opened WaitList
  import opened IpcObject

  /** RT_EVENT_FLAG_AND, RT_EVENT_FLAG_OR and RT_EVENT_FLAG_CLEAR. AND is looked at first. */
  datatype Opts = Opts(all: bool, any: bool, clear: bool)

  /** A flag word, as the set of the positions of its one bits: | is +, & is *, and & ~ is -. */
  type Bits = set<nat>

  /** wanted and info are the threads' event_set and event_info fields. */
  datatype State = State(parent: Ipc, bits: Bits, wanted: Tid -> Bits, info: Tid -> Opts)

  predicate WellFormed(o: Opts) {
    o.all || o.any
  }

  /** The condition a thread waits for. */
  predicate Satisfied(o: Opts, wanted: Bits, bits: Bits) {
    if o.all then wanted * bits == wanted else o.any && wanted * bits != {}
  }

  /** What the scan of rt_event_send does with a waiter whose condition holds. */
  function Wake(s: State, t: Tid): State {
    var got := if s.info(t).all then s.wanted(t) else s.wanted(t) * s.bits;
    s.(wanted := if s.info(t).all then s.wanted else With(s.wanted, t, got),
       bits := if s.info(t).clear then s.bits - got else s.bits,
       parent := ResumeThread(s.parent, t))
  }

  /** The scan over the waiters q still ahead of it; it gives up at a waiter without AND or OR. */
  function Scan(s: State, q: seq<Tid>): (State, Outcome)
    decreases |q|
  {
    if q == [] then (s, Returned(EOK))
    else if !WellFormed(s.info(q[0])) then (s, Returned(EINVAL))
    else if Satisfied(s.info(q[0]), s.wanted(q[0]), s.bits) then Scan(Wake(s, q[0]), q[1..])
    else Scan(s, q[1..])
  }

  function Send(s: State, bits: Bits): (State, Outcome) {
    if bits == {} then (s, Returned(ERROR))
    else Scan(s.(bits := s.bits + bits), s.parent.waiters)
  }

  /** rt_event_recv up to the point where the caller returns or is suspended, with the value it
      stores through recved. */
  function Recv(s: State, t: Tid, wanted: Bits, o: Opts, timeout: int): (State, Outcome, Bits) {
    if wanted == {} then (s, Returned(ERROR), {})
    else
      var c := SetError(s.parent, t, EOK);
      if Satisfied(o, wanted, s.bits) then
        (State(c, if o.clear then s.bits - wanted else s.bits,
               With(s.wanted, t, wanted * s.bits), With(s.info, t, o)), Returned(EOK), wanted * s.bits)
      else if timeout == 0 then
        (s.(parent := SetError(c, t, ETIMEOUT)), Returned(ETIMEOUT), {})
      else (State(Suspend(c, t), s.bits, With(s.wanted, t, wanted), With(s.info, t, o)), Running, {})
  }

  /** The rest of a blocked rt_event_recv. */
  function RecvReturn(s: State, t: Tid): (State, Outcome, Bits) {
    (s.(parent := Leave(s.parent, t)), Returned(s.parent.error(t)),
     if s.parent.error(t) == EOK then s.wanted(t) else {})
  }

  /** rt_event_control with RT_IPC_CMD_RESET. */
  function Reset(s: State): State {
    s.(parent := ResumeAll(s.parent), bits := {})
  }

  /** struct rt_event and its calls, each method one section with interrupts disabled. w is the event with the books of
      the machine below, whose actions the sections are; proper says that every receive so far asked for AND or OR. */
  class Event {
    var parent: Ipc
    var bits: Bits
    var wanted: Tid -> Bits
    var info: Tid -> Opts
    ghost var w: World
    ghost var proper: bool

    ghost function View(): State
      reads this
    {
      State(parent, bits, wanted, info)
    }

    /** The wait list is in order whatever was asked for; the rest of the invariant, that nobody oversleeps and every
        delivery is what was asked for, holds as long as every receive was proper. */
    ghost predicate Valid()
      reads this
    {
      w.s == View() && IpcObject.Valid(parent) && (proper ==> Inv(w))
    }

    constructor (flag: Flag, error: Tid -> Err, prio: Tid -> nat, wanted: Tid -> Bits, info: Tid -> Opts)
      ensures View() == State(Ipc(flag, [], {}, error, prio), {}, wanted, info)
      ensures Valid() && proper && Unused(w)
    {
      w := World(State(Ipc(flag, [], {}, error, prio), {}, wanted, info), (_: Tid) => {}, (_: Tid) => {});
      proper := true;
      parent := Ipc(flag, [], {}, error, prio);
      bits := {};
      this.wanted, this.info := wanted, info;
    }

    method Put(newBits: Bits) returns (o: Outcome)
      requires Valid()
      modifies this
      ensures (View(), o) == Send(old(View()), newBits)
      ensures Valid() && w == Apply(old(w), SendStep(newBits)) && proper == old(proper)
    {
      if proper {
        ApplyInv(w, SendStep(newBits));
      }
      w := Apply(w, SendStep(newBits));
      o := PutSection(newBits);
    }

    /** The section on the fields. */
    method PutSection(newBits: Bits) returns (o: Outcome)
      requires IpcObject.Valid(parent)
      modifies this`bits, this`parent, this`wanted
      ensures (View(), o) == Send(old(View()), newBits) && IpcObject.Valid(parent)
    {
      if newBits == {} {
        return Returned(ERROR);
      }
      bits := bits + newBits;
      var n := 0;
      while n < |parent.waiters|
        invariant n <= |parent.waiters| && IpcObject.Valid(parent)
        invariant Scan(View(), parent.waiters[n..]) == Send(old(View()), newBits)
        decreases |parent.waiters| - n
      {
        var t := parent.waiters[n];
        if !info(t).all && !info(t).any {
          return Returned(EINVAL);
        }
        if Matches(t) {
          // The node behind t is the next one whether or not t leaves the list.
          UnlinkAt(parent, n);
          ResumeThreadValid(parent, t);
          WakeUp(t);
        } else {
          n := n + 1;
        }
      }
      return Returned(EOK);
    }

    /** The test of the scan. */
    predicate Matches(t: Tid)
      reads this
    {
      if info(t).all then wanted(t) * bits == wanted(t) else wanted(t) * bits != {}
    }

    /** The branch of the scan taken when the condition holds. */
    method WakeUp(t: Tid)
      modifies this`bits, this`parent, this`wanted
      ensures View() == Wake(old(View()), t)
    {
      var got := wanted(t);
      if !info(t).all {
        got := got * bits;
        wanted := With(wanted, t, got);
      }
      if info(t).clear {
        bits := bits - got;
      }
      parent := ResumeThread(parent, t);
    }

    method Get(t: Tid, want: Bits, opts: Opts, timeout: int) returns (o: Outcome, recved: Bits)
      requires Valid() && Idle(parent, t)
      modifies this
      ensures (View(), o, recved) == Recv(old(View()), t, want, opts, timeout)
      ensures Valid() && w == Apply(old(w), RecvStep(t, want, opts, timeout))
      ensures proper == (old(proper) && WellFormed(opts))
    {
      proper := proper && WellFormed(opts);
      if proper {
        ApplyInv(w, RecvStep(t, want, opts, timeout));
      }
      w := Apply(w, RecvStep(t, want, opts, timeout));
      o, recved := GetSection(t, want, opts, timeout);
    }

    /** The section on the fields. */
    method GetSection(t: Tid, want: Bits, opts: Opts, timeout: int) returns (o: Outcome, recved: Bits)
      requires IpcObject.Valid(parent) && Idle(parent, t)
      modifies this`bits, this`parent, this`wanted, this`info
      ensures (View(), o, recved) == Recv(old(View()), t, want, opts, timeout) && IpcObject.Valid(parent)
    {
      recved := {};
      if want == {} {
        return Returned(ERROR), recved;
      }
      parent := SetError(parent, t, EOK);
      var status := false;
      if opts.all {
        status := want * bits == want;
      } else if opts.any {
        status := want * bits != {};
      }
      if status {
        recved := want * bits;
        wanted := With(wanted, t, recved);
        info := With(info, t, opts);
        if opts.clear {
          bits := bits - want;
        }
        return Returned(EOK), recved;
      } else if timeout == 0 {
        parent := SetError(parent, t, ETIMEOUT);
        return Returned(ETIMEOUT), recved;
      }
      wanted := With(wanted, t, want);
      info := With(info, t, opts);
      SuspendValid(parent, t);
      parent := Suspend(parent, t);
      return Running, recved;
    }

    method GetLeave(t: Tid) returns (o: Outcome, recved: Bits)
      requires Valid() && t in parent.ready
      modifies this
      ensures (View(), o, recved) == RecvReturn(old(View()), t)
      ensures Valid() && w == Apply(old(w), ReturnStep(t)) && proper == old(proper)
    {
      if proper {
        ApplyInv(w, ReturnStep(t));
      }
      w := Apply(w, ReturnStep(t));
      parent := Leave(parent, t);
      if parent.error(t) != EOK {
        return Returned(parent.error(t)), {};
      }
      return Returned(EOK), wanted(t);
    }

    /** The timer of a suspended thread expires. */
    method TimeOut(t: Tid)
      requires Valid() && t in parent.waiters
      modifies this
      ensures Valid() && w == Apply(old(w), TimeoutStep(t)) && proper == old(proper)
    {
      if proper {
        ApplyInv(w, TimeoutStep(t));
      }
      ResumeThreadValid(parent, t);
      w := Apply(w, TimeoutStep(t));
      parent := Expire(parent, t);
    }

    method Control()
      requires Valid()
      modifies this
      ensures View() == Reset(old(View()))
      ensures Valid() && w == Apply(old(w), ResetStep) && proper == old(proper)
    {
      if proper {
        ApplyInv(w, ResetStep);
      }
      ResumeAllEffect(parent);
      w := Apply(w, ResetStep);
      parent := ResumeAllLoop(parent);
      bits := {};
    }
  }

  lemma UnlinkAt(c: Ipc, n: nat)
    requires Valid(c) && n < |c.waiters|
    ensures var r := ResumeThread(c, c.waiters[n]).waiters;
            |r| == |c.waiters| - 1 && r[n..] == c.waiters[n + 1..]
  {
    var q := c.waiters;
    assert q == q[..n] + [q[n]] + q[n + 1..];
    WithoutAt(q[..n], q[n], q[n + 1..]);
  }

  // ---- Delivery: what a receiver gets does not depend on whether it had to block.

  /** The reference: what a wait for wanted gets out of the flags, and the flags it leaves. */
  function Deliver(o: Opts, wanted: Bits, bits: Bits): Option<(Bits, Bits)> {
    if Satisfied(o, wanted, bits) then
      Some((wanted * bits, if o.clear then bits - wanted * bits else bits))
    else None
  }

  /** A satisfied wait gets something, and everything it asked for when it asked for all. */
  lemma DeliverMeets(o: Opts, wanted: Bits, bits: Bits)
    requires Deliver(o, wanted, bits).Some? && wanted != {}
    ensures var got := Deliver(o, wanted, bits).value.0;
            && got != {} && got <= wanted && got <= bits
            && (o.all ==> got == wanted)
  {
  }

  /** The immediate path of rt_event_recv is the reference on the current flags. */
  lemma ImmediateDelivers(s: State, t: Tid, wanted: Bits, o: Opts, timeout: int)
    requires wanted != {}
    ensures var (s', out, recved) := Recv(s, t, wanted, o, timeout);
            match Deliver(o, wanted, s.bits)
            case Some(d) =>
              out == Returned(EOK) && recved == d.0 && s'.bits == d.1 && s'.parent.waiters == s.parent.waiters
            case None => out != Returned(EOK) && s'.bits == s.bits && (out == Running <==> timeout != 0)
  {
    assert s.bits - wanted == s.bits - wanted * s.bits;
  }

  /** The flags the scan that ended in r found when it came to the waiter at position i of q: those it
      started with, less what each resumed CLEAR waiter before i took. */
  ghost function FoundAt(s: State, r: State, q: seq<Tid>, i: nat): Bits
    requires i <= |q|
  {
    if i == 0 then s.bits else
    var found := FoundAt(s, r, q, i - 1);
    if q[i - 1] !in r.parent.waiters && s.info(q[i - 1]).clear then found - r.wanted(q[i - 1]) else found
  }

  /** The scan ends with -RT_EINVAL exactly when it meets a waiter without AND or OR. */
  lemma {:induction false} ScanReturns(s: State, q: seq<Tid>)
    ensures Scan(s, q).1 == Returned(if forall t <- q :: WellFormed(s.info(t)) then EOK else EINVAL)
    decreases |q|
  {
    if q != [] && WellFormed(s.info(q[0])) {
      assert forall t :: t in q <==> t == q[0] || t in q[1..];
      ScanReturns(Visited(s, q[0]), q[1..]);
    }
  }

  /** The scan touches nobody behind it and nobody in front of it. */
  lemma {:induction false} ScanFrame(s: State, q: seq<Tid>)
    requires Valid(s.parent) && Distinct(q) && (forall t <- q :: t in s.parent.waiters)
    ensures var r := Scan(s, q).0;
            && Valid(r.parent)
            && r.info == s.info && r.bits <= s.bits
            && r.parent.error == s.parent.error && r.parent.flag == s.parent.flag && r.parent.prio == s.parent.prio
            && (forall t :: t in r.parent.waiters ==> t in s.parent.waiters)
            && (forall t :: t in s.parent.waiters && t !in q ==> t in r.parent.waiters)
            && (forall t ::
              t in r.parent.ready <==> t in s.parent.ready || (t in s.parent.waiters && t !in r.parent.waiters))
            && (forall t :: t !in q || t in r.parent.waiters ==> r.wanted(t) == s.wanted(t))
    decreases |q|
  {
    if q != [] && WellFormed(s.info(q[0])) {
      assert q == [q[0]] + q[1..];
      assert q[0] !in q[1..];
      if Satisfied(s.info(q[0]), s.wanted(q[0]), s.bits) {
        ResumeThreadValid(s.parent, q[0]);
      }
      ScanFrame(Visited(s, q[0]), q[1..]);
    }
  }

  /** In the scan of q from s that ended in r, the waiter at position i got what the reference gives on the
      flags it found, and left the flags the reference leaves; or it still waits. */
  ghost predicate ServedAt(s: State, r: State, q: seq<Tid>, i: nat)
    requires i < |q|
  {
    match Deliver(s.info(q[i]), s.wanted(q[i]), FoundAt(s, r, q, i))
    case Some(d) =>
      && q[i] in r.parent.ready && q[i] !in r.parent.waiters
      && r.wanted(q[i]) == d.0 && FoundAt(s, r, q, i + 1) == d.1
    case None => q[i] in r.parent.waiters && FoundAt(s, r, q, i + 1) == FoundAt(s, r, q, i)
  }

  /** The scan is the reference applied to the waiters one by one, from the first to the last, each on
      the flags its predecessors left: exactly the satisfied ones are resumed, each with its delivery
      in event_set, and what a CLEAR waiter took nobody behind it sees. */
  lemma {:induction false} ScanDelivers(s: State, q: seq<Tid>, i: nat)
    requires Valid(s.parent) && Distinct(q) && (forall t <- q :: t in s.parent.waiters && WellFormed(s.info(t)))
    requires i <= |q|
    ensures i == |q| ==> FoundAt(s, Scan(s, q).0, q, i) == Scan(s, q).0.bits
    ensures i < |q| ==> ServedAt(s, Scan(s, q).0, q, i)
    decreases |q|
  {
    if q != [] {
      assert q == [q[0]] + q[1..];
      ScanHead(s, q);
      if i > 0 {
        var s', r := Visited(s, q[0]), Scan(s, q).0;
        ScanDelivers(s', q[1..], i - 1);
        LaterServed(s, s', r, q, i);
      }
    }
  }

  /** What holds of the rest of the scan holds of the whole. */
  lemma LaterServed(s: State, s': State, r: State, q: seq<Tid>, i: nat)
    requires 0 < i <= |q| && s.info == s'.info && (forall t <- q[1..] :: s.wanted(t) == s'.wanted(t))
    requires FoundAt(s, r, q, 1) == s'.bits
    requires i == |q| ==> FoundAt(s', r, q[1..], i - 1) == r.bits
    requires i < |q| ==> ServedAt(s', r, q[1..], i - 1)
    ensures i == |q| ==> FoundAt(s, r, q, i) == r.bits
    ensures i < |q| ==> ServedAt(s, r, q, i)
  {
    FoundShift(s, s', r, q, i);
    if i < |q| {
      FoundShift(s, s', r, q, i + 1);
      ServedShift(s, s', r, q, i);
    }
  }

  lemma ServedShift(s: State, s': State, r: State, q: seq<Tid>, i: nat)
    requires 0 < i < |q| && s.info == s'.info && (forall t <- q[1..] :: s.wanted(t) == s'.wanted(t))
    requires FoundAt(s, r, q, i) == FoundAt(s', r, q[1..], i - 1)
    requires FoundAt(s, r, q, i + 1) == FoundAt(s', r, q[1..], i)
    requires ServedAt(s', r, q[1..], i - 1)
    ensures ServedAt(s, r, q, i)
  {
    assert q[1..][i - 1] == q[i] && q[i] in q[1..];
  }

  /** The event after the scan passed thread t. */
  function Visited(s: State, t: Tid): State {
    if Satisfied(s.info(t), s.wanted(t), s.bits) then Wake(s, t) else s
  }

  /** The first round of the scan. */
  lemma ScanHead(s: State, q: seq<Tid>)
    requires Valid(s.parent) && Distinct(q) && (forall t <- q :: t in s.parent.waiters && WellFormed(s.info(t)))
    requires q != []
    ensures var r := Scan(s, q).0;
            var s' := Visited(s, q[0]);
            && Valid(s'.parent) && s'.info == s.info
            && (forall t <- q[1..] :: t in s'.parent.waiters && s'.wanted(t) == s.wanted(t))
            && r == Scan(s', q[1..]).0
            && FoundAt(s, r, q, 1) == s'.bits
            && ServedAt(s, r, q, 0)
  {
    assert q == [q[0]] + q[1..];
    assert q[0] !in q[1..];
    var s' := Visited(s, q[0]);
    if s' != s {
      ResumeThreadValid(s.parent, q[0]);
    }
    ScanFrame(s', q[1..]);
    assert FoundAt(s, Scan(s, q).0, q, 0) == s.bits;
  }

  lemma {:induction false} FoundShift(s: State, s': State, r: State, q: seq<Tid>, i: nat)
    requires 0 < i <= |q| && s.info == s'.info
    requires FoundAt(s, r, q, 1) == s'.bits
    ensures FoundAt(s, r, q, i) == FoundAt(s', r, q[1..], i - 1)
  {
    if i > 1 {
      FoundShift(s, s', r, q, i - 1);
    }
  }

  // ---- Runs: any number of threads, every interleaving of the sections.

  datatype Action =
    | RecvStep(t: Tid, want: Bits, opts: Opts, timeout: int)
    | ReturnStep(t: Tid)
    | SendStep(bits: Bits)
    | TimeoutStep(t: Tid)
    | ResetStep

  /** The event with its books: what each thread asked for in its latest call, and what the send
      that resumed it delivered. */
  datatype World = World(s: State, asked: Tid -> Bits, given: Tid -> Bits)

  /** A thread starts a call only outside a call, with whatever options. */
  predicate Enabled(s: State, a: Action) {
    match a
    case RecvStep(t, _, _, _) => Idle(s.parent, t)
    case ReturnStep(t) => t in s.parent.ready
    case SendStep(_) => true
    case TimeoutStep(t) => t in s.parent.waiters
    case ResetStep => true
  }

  ghost function Apply(w: World, a: Action): World {
    if !Enabled(w.s, a) then w else
    match a
    case RecvStep(t, want, o, timeout) => w.(s := Recv(w.s, t, want, o, timeout).0, asked := With(w.asked, t, want))
    case ReturnStep(t) => w.(s := RecvReturn(w.s, t).0)
    case SendStep(bits) =>
      var r := Send(w.s, bits).0;
      World(r, w.asked, (t: Tid) =>
        if t in w.s.parent.waiters && t !in r.parent.waiters then r.wanted(t) else w.given(t))
    case TimeoutStep(t) => w.(s := w.s.(parent := Expire(w.s.parent, t)))
    case ResetStep => w.(s := Reset(w.s))
  }

  /** Every receive asks for AND or OR, or has exactly the options extra. */
  predicate Asks(acts: seq<Action>, extra: Option<Opts>) {
    forall a <- acts :: a.RecvStep? ==> WellFormed(a.opts) || extra == Some(a.opts)
  }

  /** An event nobody uses yet, whatever its flags, its queueing and the priorities of the threads. */
  predicate Unused(w: World) {
    w.s.parent.waiters == [] && w.s.parent.ready == {}
  }

  /** No thread sleeps on a condition the flags meet. */
  ghost predicate NobodyOverslept(s: State) {
    forall t <- s.parent.waiters :: !Satisfied(s.info(t), s.wanted(t), s.bits)
  }

  ghost predicate Inv(w: World) {
    var s, c := w.s, w.s.parent;
    && Valid(c)
    && NobodyOverslept(s)
    && (forall t <- c.waiters :: WellFormed(s.info(t)) && s.wanted(t) == w.asked(t) != {})
    && (forall t <- c.ready :: c.error(t) == EOK ==>
          && s.wanted(t) == w.given(t) && w.given(t) != {} && w.given(t) <= w.asked(t)
          && (s.info(t).all ==> w.given(t) == w.asked(t)))
  }

  /** Fewer flags satisfy fewer conditions. */
  lemma Monotone(o: Opts, wanted: Bits, small: Bits, big: Bits)
    requires small <= big && Satisfied(o, wanted, small)
    ensures Satisfied(o, wanted, big)
  {
    if !o.all {
      var b :| b in wanted * small;
      assert b in wanted * big;
    }
  }

  /** The receives that return at once. */
  lemma RecvNowInv(w: World, t: Tid, want: Bits, o: Opts, timeout: int)
    requires Inv(w) && Idle(w.s.parent, t)
    requires want == {} || Satisfied(o, want, w.s.bits) || timeout == 0
    ensures Inv(Apply(w, RecvStep(t, want, o, timeout)))
  {
    var s := w.s;
    var s' := Recv(s, t, want, o, timeout).0;
    forall x | x in s.parent.waiters ensures !Satisfied(s.info(x), s.wanted(x), s'.bits) {
      if Satisfied(s.info(x), s.wanted(x), s'.bits) {
        Monotone(s.info(x), s.wanted(x), s'.bits, s.bits);
      }
    }
  }

  lemma RecvBlocksInv(w: World, t: Tid, want: Bits, o: Opts, timeout: int)
    requires Inv(w) && Idle(w.s.parent, t) && WellFormed(o)
    requires want != {} && !Satisfied(o, want, w.s.bits) && timeout != 0
    ensures Inv(Apply(w, RecvStep(t, want, o, timeout)))
  {
    SuspendValid(SetError(w.s.parent, t, EOK), t);
  }

  /** Whoever the scan leaves behind was not satisfied when it was looked at, nor is at the end. */
  lemma SendLeavesNobody(s: State, bits: Bits, t: Tid)
    requires Valid(s.parent) && (forall x <- s.parent.waiters :: WellFormed(s.info(x)))
    requires bits != {} && t in Send(s, bits).0.parent.waiters
    ensures var r := Send(s, bits).0; t in s.parent.waiters && !Satisfied(r.info(t), r.wanted(t), r.bits)
  {
    var s1, q := s.(bits := s.bits + bits), s.parent.waiters;
    var r := Send(s, bits).0;
    ScanFrame(s1, q);
    var i :| 0 <= i < |q| && q[i] == t;
    ScanDelivers(s1, q, i);
    FoundShrinks(s1, r, q, i, |q|);
    ScanDelivers(s1, q, |q|);
    if Satisfied(r.info(t), r.wanted(t), r.bits) {
      Monotone(r.info(t), r.wanted(t), r.bits, FoundAt(s1, r, q, i));
    }
  }

  lemma {:induction false} FoundShrinks(s: State, r: State, q: seq<Tid>, i: nat, j: nat)
    requires i <= j <= |q|
    ensures FoundAt(s, r, q, j) <= FoundAt(s, r, q, i)
  {
    if i < j {
      FoundShrinks(s, r, q, i, j - 1);
    }
  }

  /** Whoever the scan resumes carries a non-empty delivery. */
  lemma SendGives(s: State, bits: Bits, t: Tid)
    requires Valid(s.parent) && (forall x <- s.parent.waiters :: WellFormed(s.info(x)) && s.wanted(x) != {})
    requires bits != {} && t in s.parent.waiters && t !in Send(s, bits).0.parent.waiters
    ensures var r := Send(s, bits).0;
            && t in r.parent.ready && r.parent.error(t) == EOK && r.info(t) == s.info(t)
            && r.wanted(t) != {} && r.wanted(t) <= s.wanted(t)
            && (r.info(t).all ==> r.wanted(t) == s.wanted(t))
  {
    var s1, q := s.(bits := s.bits + bits), s.parent.waiters;
    ScanFrame(s1, q);
    var i :| 0 <= i < |q| && q[i] == t;
    ScanDelivers(s1, q, i);
    DeliverMeets(s.info(t), s.wanted(t), FoundAt(s1, Send(s, bits).0, q, i));
  }

  lemma SendInv(w: World, bits: Bits)
    requires Inv(w)
    ensures Inv(Apply(w, SendStep(bits)))
  {
    var s := w.s;
    if bits != {} {
      var r := Send(s, bits).0;
      ScanFrame(s.(bits := s.bits + bits), s.parent.waiters);
      forall t | t in r.parent.waiters ensures !Satisfied(r.info(t), r.wanted(t), r.bits) {
        SendLeavesNobody(s, bits, t);
      }
      forall t | t in s.parent.waiters && t !in r.parent.waiters
        ensures r.wanted(t) != {} && r.wanted(t) <= s.wanted(t) && (r.info(t).all ==> r.wanted(t) == s.wanted(t))
      {
        SendGives(s, bits, t);
      }
    }
  }

  lemma ApplyInv(w: World, a: Action)
    requires Inv(w) && (a.RecvStep? ==> WellFormed(a.opts))
    ensures Inv(Apply(w, a))
  {
    if Enabled(w.s, a) {
      match a
      case RecvStep(t, want, o, timeout) =>
        if want == {} || Satisfied(o, want, w.s.bits) || timeout == 0 {
          RecvNowInv(w, t, want, o, timeout);
        } else {
          RecvBlocksInv(w, t, want, o, timeout);
        }
      case ReturnStep(t) =>
      case SendStep(bits) => SendInv(w, bits);
      case TimeoutStep(t) => ResumeThreadValid(w.s.parent, t);
      case ResetStep => ResumeAllEffect(w.s.parent);
    }
  }

  ghost function Run(w: World, acts: seq<Action>): World
    decreases |acts|
  {
    if acts == [] then w else Run(Apply(w, acts[0]), acts[1..])
  }

  lemma {:induction false} RunInv(w: World, acts: seq<Action>)
    requires Inv(w) && Asks(acts, None)
    ensures Inv(Run(w, acts))
    decreases |acts|
  {
    if acts != [] {
      ApplyInv(w, acts[0]);
      RunInv(Apply(w, acts[0]), acts[1..]);
    }
  }

  /** No lost wake-up: from an event nobody uses yet, no run in which every receive asks for AND or OR leaves a
      thread suspended on a condition that the flags meet. */
  lemma NoLostWakeUp(w: World, acts: seq<Action>)
    requires Unused(w) && Asks(acts, None)
    ensures NobodyOverslept(Run(w, acts).s)
  {
    RunInv(w, acts);
  }

  /** A blocked receive that returns RT_EOK stores what the send that resumed it delivered, untouched by
      whatever ran in between: a non-empty part of what was asked for, all of it under AND. */
  lemma BlockedReceive(w: World, acts: seq<Action>, t: Tid)
    requires Unused(w) && Asks(acts, None)
    requires t in Run(w, acts).s.parent.ready
    ensures var r := Run(w, acts);
            var (_, out, recved) := RecvReturn(r.s, t);
            out == Returned(EOK) ==>
              && recved == r.given(t) && recved != {} && recved <= r.asked(t)
              && (r.s.info(t).all ==> recved == r.asked(t))
  {
    RunInv(w, acts);
  }

  // ---- What the demand for AND or OR is for.

  const OR := Opts(false, true, false)

  /** Thread t waits with options that ask for neither, u behind it for flag b; then b is sent. */
  function Hiding(t: Tid, u: Tid, o: Opts, b: nat): seq<Action> {
    [ResetStep, RecvStep(t, {b}, o, -1), RecvStep(u, {b}, OR, -1), SendStep({b})]
  }

  /** A waiter with neither AND nor OR ends the scan with -RT_EINVAL, and a thread queued behind it sleeps on although
      its condition is met. */
  lemma MalformedWaiterHidesOthers(w: World, t: Tid, u: Tid, o: Opts, b: nat)
    requires Unused(w) && !WellFormed(o) && t != u
    requires w.s.parent.flag.PRIO? ==> w.s.parent.prio(t) <= w.s.parent.prio(u)
    ensures var s := Run(w, Hiding(t, u, o, b)[..3]).s;
            NobodyOverslept(s) && s.parent.waiters == [t, u] && Send(s, {b}).1 == Returned(EINVAL)
    ensures var s := Run(w, Hiding(t, u, o, b)).s;
            u in s.parent.waiters && Satisfied(s.info(u), s.wanted(u), s.bits) && !NobodyOverslept(s)
  {
    var w2 := BothQueue(w, t, u, o, b);
    ScanStops(w2.s, t, u, b);
    RunThree(w, ResetStep, RecvStep(t, {b}, o, -1), RecvStep(u, {b}, OR, -1), SendStep({b}));
  }

  lemma BothQueue(w: World, t: Tid, u: Tid, o: Opts, b: nat) returns (w2: World)
    requires Unused(w) && !WellFormed(o) && t != u
    requires w.s.parent.flag.PRIO? ==> w.s.parent.prio(t) <= w.s.parent.prio(u)
    ensures w2 == Apply(Apply(Apply(w, ResetStep), RecvStep(t, {b}, o, -1)), RecvStep(u, {b}, OR, -1))
    ensures w2.s.parent.waiters == [t, u] && w2.s.bits == {}
    ensures w2.s.info(t) == o && w2.s.info(u) == OR && w2.s.wanted(u) == {b}
  {
    var w1 := FirstQueues(w, t, o, b);
    w2 := Apply(w1, RecvStep(u, {b}, OR, -1));
    RecvQueues(w1, u, OR, b, [t]);
    assert [t] + [u] == [t, u];
  }

  lemma FirstQueues(w: World, t: Tid, o: Opts, b: nat) returns (w1: World)
    requires Unused(w) && !WellFormed(o)
    ensures w1 == Apply(Apply(w, ResetStep), RecvStep(t, {b}, o, -1))
    ensures w1.s.parent.waiters == [t] && w1.s.parent.ready == {} && w1.s.bits == {} && w1.s.info(t) == o
    ensures w1.s.parent.flag == w.s.parent.flag && w1.s.parent.prio == w.s.parent.prio
  {
    var w0 := Apply(w, ResetStep);
    assert w0 == w.(s := w.s.(bits := {}));
    w1 := Apply(w0, RecvStep(t, {b}, o, -1));
    RecvQueues(w0, t, o, b, []);
    assert [] + [t] == [t];
  }

  /** A receive that finds no flag queues behind those that are not less urgent. */
  lemma RecvQueues(w: World, t: Tid, o: Opts, b: nat, q: seq<Tid>)
    requires w.s.parent.waiters == q && |q| <= 1 && w.s.parent.ready == {} && w.s.bits == {} && t !in q
    requires w.s.parent.flag.PRIO? ==> forall x <- q :: w.s.parent.prio(x) <= w.s.parent.prio(t)
    requires !WellFormed(o) || o == OR
    ensures var s := Apply(w, RecvStep(t, {b}, o, -1)).s;
            && s.parent.waiters == q + [t] && s.parent.ready == {} && s.bits == {}
            && s.parent.flag == w.s.parent.flag && s.parent.prio == w.s.parent.prio
            && s.wanted(t) == {b} && s.info(t) == o
            && (forall x <- q :: s.wanted(x) == w.s.wanted(x) && s.info(x) == w.s.info(x))
  {
    var c := w.s.parent;
    assert {b} * {} == {};
    assert !Satisfied(o, {b}, {});
    var k := EnqueueSplits(c.flag, q, c.prio, t);
    assert k == |q|;
    assert q[..k] == q && q[k..] == [] && q + [t] + [] == q + [t];
  }

  /** The scan gives up at t and does not reach u. */
  lemma ScanStops(s: State, t: Tid, u: Tid, b: nat)
    requires s.parent.waiters == [t, u] && s.bits == {} && !WellFormed(s.info(t)) && s.info(u) == OR
    requires s.wanted(u) == {b}
    ensures NobodyOverslept(s) && Send(s, {b}) == (s.(bits := {b}), Returned(EINVAL))
    ensures u in s.parent.waiters && Satisfied(OR, {b}, {b})
  {
    assert {b} * {b} == {b} && {b} * {} == {};
    assert {} + {b} == {b};
    assert [t, u][1] == u;
  }

  lemma RunThree(w: World, a: Action, b: Action, c: Action, d: Action)
    ensures var w2 := Apply(Apply(Apply(w, a), b), c);
            Run(w, [a, b, c, d][..3]) == w2 && Run(w, [a, b, c, d]) == Apply(w2, d)
  {
    var w0 := Apply(w, a);
    var w1 := Apply(w0, b);
    var w2 := Apply(w1, c);
    assert [a, b, c, d][..3] == [a, b, c];
    assert [a, b, c, d][1..] == [b, c, d] && [b, c, d][1..] == [c, d] && [c, d][1..] == [d] && [d][1..] == [];
    assert [a, b, c][1..] == [b, c] && [b, c][1..] == [c] && [c][1..] == [];
    assert Run(w, [a, b, c, d]) == Run(w0, [b, c, d]) == Run(w1, [c, d]) == Run(w2, [d]) == Apply(w2, d);
    assert Run(w, [a, b, c]) == Run(w0, [b, c]) == Run(w1, [c]) == w2;
  }

  /** Options are safe to pass, in every run from an event nobody uses yet whose other receives ask for AND or OR,
      exactly when they ask for AND or OR themselves. */
  lemma SafeOptions(w: World, o: Opts)
    requires Unused(w)
    ensures WellFormed(o) <==> forall acts :: Asks(acts, Some(o)) ==> NobodyOverslept(Run(w, acts).s)
  {
    if WellFormed(o) {
      forall acts | Asks(acts, Some(o)) ensures NobodyOverslept(Run(w, acts).s) {
        NoLostWakeUp(w, acts);
      }
    } else {
      var (t, u) := if w.s.parent.prio(1) <= w.s.parent.prio(2) then (1, 2) else (2, 1);
      UnsafeOptions(w, t, u, o);
    }
  }

  lemma UnsafeOptions(w: World, t: Tid, u: Tid, o: Opts)
    requires Unused(w) && !WellFormed(o) && t != u && w.s.parent.prio(t) <= w.s.parent.prio(u)
    ensures exists acts :: Asks(acts, Some(o)) && !NobodyOverslept(Run(w, acts).s)
  {
    MalformedWaiterHidesOthers(w, t, u, o, 0);
    HidingAsks(t, u, o, 0);
  }

  lemma HidingAsks(t: Tid, u: Tid, o: Opts, b: nat)
    ensures Asks(Hiding(t, u, o, b), Some(o))
  {
    forall a | a in Hiding(t, u, o, b) && a.RecvStep? ensures WellFormed(a.opts) || Some(o) == Some(a.opts) {
      var i :| 0 <= i < 4 && Hiding(t, u, o, b)[i] == a;
      assert i == 1 || i == 2;
    }
  }

  // ---- What each call does, by what its caller can see.

  /** The condition of a wait: all of the flags under AND, even if OR is asked for too, one of them under OR. */
  lemma SatisfiedMeans(o: Opts, wanted: Bits, bits: Bits)
    ensures o.all ==> (Satisfied(o, wanted, bits) <==> forall b <- wanted :: b in bits)
    ensures !o.all && o.any ==> (Satisfied(o, wanted, bits) <==> exists b :: b in wanted && b in bits)
    ensures !WellFormed(o) ==> !Satisfied(o, wanted, bits)
  {
    assert wanted * bits == wanted <==> wanted <= bits;
    if b :| b in wanted && b in bits {
      assert b in wanted * bits;
    }
    if wanted * bits != {} {
      var b :| b in wanted * bits;
    }
  }

  /** A delivery is what is set of what was asked for, and a CLEAR delivery takes exactly that. */
  lemma DeliveryMeans(o: Opts, wanted: Bits, bits: Bits)
    ensures Deliver(o, wanted, bits).Some? <==> Satisfied(o, wanted, bits)
    ensures Satisfied(o, wanted, bits) ==>
              var (got, left) := Deliver(o, wanted, bits).value;
              forall b ::
                (b in got <==> b in wanted && b in bits) && (b in left <==> b in bits && !(o.clear && b in got))
  {
  }

  /** Thread t is one that the step from s to r resumed, and its CLEAR delivery carried flag b away. */
  ghost predicate Carries(s: State, r: State, t: Tid, b: nat) {
    t in s.parent.waiters && t !in r.parent.waiters && s.info(t).clear && b in r.wanted(t)
  }

  ghost predicate CarriedBy(s: State, r: State, q: seq<Tid>, b: nat) {
    exists t :: t in q && Carries(s, r, t, b)
  }

  /** Behind a scan exactly those flags are gone that the threads it resumed carried away. */
  lemma {:induction false} ScanFlags(s: State, q: seq<Tid>, b: nat)
    requires Valid(s.parent) && Distinct(q) && (forall t <- q :: t in s.parent.waiters)
    ensures var r := Scan(s, q).0; b in r.bits <==> b in s.bits && !CarriedBy(s, r, q, b)
    decreases |q|
  {
    var r := Scan(s, q).0;
    if q == [] || !WellFormed(s.info(q[0])) {
      assert r == s;
    } else {
      var s', rest := Visited(s, q[0]), q[1..];
      assert q == [q[0]] + rest;
      assert q[0] !in rest;
      VisitedFrame(s, q[0]);
      ScanFlags(s', rest, b);
      ScanFrame(s', rest);
      CarriedFirst(s, s', r, q, b);
    }
  }

  lemma VisitedFrame(s: State, t: Tid)
    requires Valid(s.parent) && t in s.parent.waiters
    ensures var s' := Visited(s, t);
            && Valid(s'.parent) && s'.info == s.info
            && (forall x :: x != t ==>
                  (x in s'.parent.waiters <==> x in s.parent.waiters) && s'.wanted(x) == s.wanted(x))
            && (t in s'.parent.waiters ==> s' == s)
            && (t !in s'.parent.waiters ==> forall b ::
                  b in s'.bits <==> b in s.bits && !(s.info(t).clear && b in s'.wanted(t)))
  {
    ResumeThreadValid(s.parent, t);
  }

  lemma CarriedFirst(s: State, s': State, r: State, q: seq<Tid>, b: nat)
    requires q != [] && q[0] !in q[1..] && s'.info == s.info
    requires forall t <- q :: t in s.parent.waiters
    requires forall x <- q[1..] :: x in s'.parent.waiters
    requires q[0] in r.parent.waiters <==> q[0] in s'.parent.waiters
    requires q[0] !in s'.parent.waiters ==> r.wanted(q[0]) == s'.wanted(q[0])
    ensures CarriedBy(s, r, q, b) <==>
              CarriedBy(s', r, q[1..], b)
              || (q[0] !in s'.parent.waiters && s.info(q[0]).clear && b in s'.wanted(q[0]))
  {
    assert forall t :: t in q <==> t == q[0] || t in q[1..];
    if CarriedBy(s, r, q, b) {
      var t :| t in q && Carries(s, r, t, b);
      if t != q[0] {
        assert Carries(s', r, t, b);
      }
    }
    if CarriedBy(s', r, q[1..], b) {
      var t :| t in q[1..] && Carries(s', r, t, b);
      assert Carries(s, r, t, b);
    }
    if q[0] !in s'.parent.waiters && s.info(q[0]).clear && b in s'.wanted(q[0]) {
      assert Carries(s, r, q[0], b);
    }
  }

  /** A send without flags is refused and changes nothing; any other returns RT_EOK, unless a waiter asked for neither
      AND nor OR. */
  lemma SendOutcome(s: State, bits: Bits)
    ensures Send(s, bits).1 == Returned(if bits == {} then ERROR
              else if forall t <- s.parent.waiters :: WellFormed(s.info(t)) then EOK else EINVAL)
    ensures bits == {} ==> Send(s, bits).0 == s
  {
    ScanReturns(s.(bits := s.bits + bits), s.parent.waiters);
  }

  /** After a send the flags are the old and the new ones, less what the resumed CLEAR waiters were given: all of them
      when nobody waits, in which case nothing else changes. */
  lemma SendFlags(s: State, bits: Bits, b: nat)
    requires Valid(s.parent)
    ensures var r := Send(s, bits).0;
            && (b in r.bits <==> (b in s.bits || b in bits) && !CarriedBy(s, r, s.parent.waiters, b))
            && (s.parent.waiters == [] ==> r.bits == s.bits + bits && r == s.(bits := r.bits))
  {
    var r := Send(s, bits).0;
    if bits != {} {
      var s1 := s.(bits := s.bits + bits);
      ScanFlags(s1, s.parent.waiters, b);
      assert forall t :: Carries(s1, r, t, b) <==> Carries(s, r, t, b);
    } else {
      assert s.bits + bits == s.bits;
    }
  }

  /** A receive: refused without flags to wait for, satisfied at once exactly if its condition is met, and otherwise
      refused when it does not wait and put on the list when it does, with what it asked for. */
  lemma RecvOutcome(s: State, t: Tid, wanted: Bits, o: Opts, timeout: int)
    requires Valid(s.parent) && Idle(s.parent, t)
    ensures var (r, out, recved) := Recv(s, t, wanted, o, timeout);
            && out == (if wanted == {} then Returned(ERROR) else if Satisfied(o, wanted, s.bits) then Returned(EOK)
                       else if timeout == 0 then Returned(ETIMEOUT) else Running)
            && (out == Returned(EOK) ==> RecvGot(s, r, t, wanted, o, recved))
            && (out == Returned(ERROR) ==> r == s && recved == {})
            && (out == Returned(ETIMEOUT) ==> r == s.(parent := r.parent) && Told(s.parent, r.parent, t, ETIMEOUT))
            && (out == Running ==> RecvSleeps(s, r, t, wanted, o))
  {
    if wanted != {} && !Satisfied(o, wanted, s.bits) && timeout != 0 {
      RecvJoins(s, t, wanted, o);
    } else if wanted != {} && Satisfied(o, wanted, s.bits) {
      RecvGets(s, t, wanted, o, timeout);
    }
  }

  /** What is set of the flags is delivered, and taken away under CLEAR; nobody else's request is touched. */
  ghost predicate RecvGot(s: State, r: State, t: Tid, wanted: Bits, o: Opts, recved: Bits) {
    && Told(s.parent, r.parent, t, EOK)
    && recved == r.wanted(t) == wanted * s.bits && r.info(t) == o
    && (forall b :: b in r.bits <==> b in s.bits && !(o.clear && b in wanted))
    && OthersAskSame(s, r, t)
  }

  /** Thread t is on the list, with what it asked for. */
  ghost predicate RecvSleeps(s: State, r: State, t: Tid, wanted: Bits, o: Opts) {
    && Joined(s.parent, r.parent, t) && r.bits == s.bits
    && r.wanted(t) == wanted && r.info(t) == o && OthersAskSame(s, r, t)
  }

  ghost predicate OthersAskSame(s: State, r: State, t: Tid) {
    forall x: Tid :: x != t ==> r.wanted(x) == s.wanted(x) && r.info(x) == s.info(x)
  }

  lemma RecvGets(s: State, t: Tid, wanted: Bits, o: Opts, timeout: int)
    requires wanted != {} && Satisfied(o, wanted, s.bits)
    ensures var (r, _, recved) := Recv(s, t, wanted, o, timeout); RecvGot(s, r, t, wanted, o, recved)
  {
  }

  lemma RecvJoins(s: State, t: Tid, wanted: Bits, o: Opts)
    requires Valid(s.parent) && Idle(s.parent, t)
    ensures RecvSleeps(s, State(Suspend(SetError(s.parent, t, EOK), t), s.bits,
                                With(s.wanted, t, wanted), With(s.info, t, o)), t, wanted, o)
  {
    var c := SetError(s.parent, t, EOK);
    SuspendJoins(c, t);
    var k :| JoinedAt(c, Suspend(c, t), t, k);
    assert JoinedAt(s.parent, Suspend(c, t), t, k);
  }

  lemma ReturnOutcome(s: State, t: Tid)
    requires t in s.parent.ready
    ensures var (r, out, recved) := RecvReturn(s, t);
            && out == Returned(s.parent.error(t))
            && recved == (if out == Returned(EOK) then s.wanted(t) else {})
            && r == s.(parent := r.parent) && RanOn(s.parent, r.parent, t)
  {
  }

  lemma ResetOutcome(s: State)
    requires Valid(s.parent)
    ensures var r := Reset(s); r == s.(parent := r.parent, bits := {}) && AllWoken(s.parent, r.parent)
  {
    ResumeAllWakes(s.parent);
  }

  // ---- Flags over runs, whatever the options.

  /** This step takes flag b away: a CLEAR delivery of it, at once or to a thread a send resumed, or a reset. */
  ghost predicate Clears(w: World, a: Action, b: nat) {
    match a
    case RecvStep(t, want, o, _) =>
      Idle(w.s.parent, t) && want != {} && Satisfied(o, want, w.s.bits) && o.clear && b in want && b in w.s.bits
    case SendStep(bits) => CarriedBy(w.s, Send(w.s, bits).0, w.s.parent.waiters, b)
    case ResetStep => true
    case _ => false
  }

  /** A flag is set after a step exactly if it was set or is sent in it, and the step does not take it away. */
  lemma FlagStep(w: World, a: Action, b: nat)
    requires Valid(w.s.parent)
    ensures b in Apply(w, a).s.bits <==> (b in w.s.bits || (a.SendStep? && b in a.bits)) && !Clears(w, a, b)
    ensures Valid(Apply(w, a).s.parent)
  {
    StepValid(w, a);
    if a.SendStep? {
      SendFlags(w.s, a.bits, b);
    } else if a.RecvStep? && Idle(w.s.parent, a.t) {
      RecvOutcome(w.s, a.t, a.want, a.opts, a.timeout);
    }
  }

  lemma StepValid(w: World, a: Action)
    requires Valid(w.s.parent)
    ensures Valid(Apply(w, a).s.parent)
  {
    var c := w.s.parent;
    if Enabled(w.s, a) {
      match a
      case RecvStep(t, _, _, _) => SuspendValid(SetError(c, t, EOK), t);
      case ReturnStep(t) =>
      case SendStep(bits) => ScanFrame(w.s.(bits := w.s.bits + bits), c.waiters);
      case TimeoutStep(t) => ResumeThreadValid(c, t);
      case ResetStep => ResumeAllEffect(c);
    }
  }

  /** No step of the run takes flag b away. */
  ghost predicate Untaken(w: World, acts: seq<Action>, b: nat)
    decreases |acts|
  {
    acts == [] || (!Clears(w, acts[0], b) && Untaken(Apply(w, acts[0]), acts[1..], b))
  }

  lemma {:induction false} FlagStays(w: World, acts: seq<Action>, b: nat)
    requires Valid(w.s.parent) && b in w.s.bits && Untaken(w, acts, b)
    ensures b in Run(w, acts).s.bits && Valid(Run(w, acts).s.parent)
    decreases |acts|
  {
    if acts != [] {
      FlagStep(w, acts[0], b);
      FlagStays(Apply(w, acts[0]), acts[1..], b);
    }
  }

  /** A flag sent is there to be received: after it was sent, and until a CLEAR delivery of it or a reset, over every
      run, a receive for it returns it at once, whatever its timeout. */
  lemma SentIsReceived(w: World, bits: Bits, acts: seq<Action>, b: nat, t: Tid, o: Opts, timeout: int)
    requires Valid(w.s.parent) && b in bits && WellFormed(o)
    requires Untaken(w, [SendStep(bits)] + acts, b)
    ensures var r := Run(Apply(w, SendStep(bits)), acts).s;
            Idle(r.parent, t) ==> Recv(r, t, {b}, o, timeout).1 == Returned(EOK) && Recv(r, t, {b}, o, timeout).2 == {b}
  {
    assert ([SendStep(bits)] + acts)[1..] == acts;
    FlagStep(w, SendStep(bits), b);
    FlagStays(Apply(w, SendStep(bits)), acts, b);
    var r := Run(Apply(w, SendStep(bits)), acts).s;
    assert {b} * r.bits == {b};
  }

  /** A receive whose time is up returns -RT_ETIMEOUT, whatever any thread does before it runs on. */
  lemma TimedOutRecv(w: World, acts: seq<Action>, t: Tid)
    requires Valid(w.s.parent) && t in w.s.parent.waiters && ReturnStep(t) !in acts
    ensures var r := Run(Apply(w, TimeoutStep(t)), acts).s;
            t in r.parent.ready && RecvReturn(r, t).1 == Returned(ETIMEOUT)
  {
    StepValid(w, TimeoutStep(t));
    ExpireTimesOut(w.s.parent, t);
    StaysReady(Apply(w, TimeoutStep(t)), acts, t);
  }

  /** Nobody but the thread itself touches what a resumed thread is to return. */
  lemma {:induction false} StaysReady(w: World, acts: seq<Action>, t: Tid)
    requires Valid(w.s.parent) && t in w.s.parent.ready && ReturnStep(t) !in acts
    ensures var r := Run(w, acts).s;
            t in r.parent.ready && r.parent.error(t) == w.s.parent.error(t) && r.wanted(t) == w.s.wanted(t)
    decreases |acts|
  {
    if acts != [] {
      StepValid(w, acts[0]);
      StepStaysReady(w, acts[0], t);
      StaysReady(Apply(w, acts[0]), acts[1..], t);
    }
  }

  lemma StepStaysReady(w: World, a: Action, t: Tid)
    requires Valid(w.s.parent) && t in w.s.parent.ready && a != ReturnStep(t)
    ensures var r := Apply(w, a).s;
            t in r.parent.ready && r.parent.error(t) == w.s.parent.error(t) && r.wanted(t) == w.s.wanted(t)
  {
    if a.SendStep? {
      ScanFrame(w.s.(bits := w.s.bits + a.bits), w.s.parent.waiters);
    } else if a.ResetStep? {
      ResumeAllEffect(w.s.parent);
    }
  }
}
