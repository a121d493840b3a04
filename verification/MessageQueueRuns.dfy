/** What every run of the message queue promises: the nodes are conserved, messages are delivered as from
    a double-ended queue, byte for byte, and no sleeping thread is forgotten. */
module MessageQueueRuns {
  import opened Kernel
  import opened IpcObject
  import opened MessageQueue
  import opened MessageQueueInv

  /** The free list rt_mq_init builds: the nodes are pushed in address order. */
  function Down(n: nat): (r: seq<nat>)
    ensures |r| == n && forall i :: 0 <= i < n ==> r[i] == n - 1 - i
  {
    if n == 0 then [] else [n - 1] + Down(n - 1)
  }

  function Init(max: nat, msgSize: nat, data: seq<seq<Byte>>, receivers: Ipc, senders: Ipc,
                load: nat -> seq<Byte>): Mq {
    Mq(max, msgSize, Down(max), [], 0, data, receivers, senders, map[], (_: nat) => Free, load)
  }

  ghost predicate Fresh(s: Mq) {
    && s == Init(s.max, s.msgSize, s.data, s.receivers, s.senders, s.load).(place := s.place)
    && (forall n | 0 <= n < s.max :: s.place(n) == Free)
    && s.max <= ENTRY_MAX && |s.data| == s.max && (forall n | 0 <= n < s.max :: |s.data[n]| == s.msgSize)
    && (s.receivers.waiters == [] == s.senders.waiters) && (s.receivers.ready == {} == s.senders.ready)
  }

  lemma FreshInv(s: Mq)
    requires Fresh(s)
    ensures Inv(s)
  {
    forall n | 0 <= n < s.max ensures InPlace(s, n) {
      assert s.free[s.max - 1 - n] == n;
    }
  }

  ghost function Run(s: Mq, acts: seq<Action>): Mq
    requires Inv(s)
    decreases |acts|
  {
    if acts == [] then s else ApplyInv(s, acts[0]); Run(Apply(s, acts[0]).0, acts[1..])
  }

  lemma {:induction false} RunInv(s: Mq, acts: seq<Action>)
    requires Inv(s)
    ensures Inv(Run(s, acts)) && Run(s, acts).max == s.max
    decreases |acts|
  {
    if acts != [] {
      ApplyInv(s, acts[0]);
      ApplySameSize(s, acts[0]);
      RunInv(Apply(s, acts[0]).0, acts[1..]);
    }
  }

  lemma ApplySameSize(s: Mq, a: Action)
    requires Inv(s)
    ensures Apply(s, a).0.max == s.max && Apply(s, a).0.msgSize == s.msgSize
  {
    if a.ResetStep? {
      ResetEffect(s);
    }
  }

  /** A reset empties the queue onto the free list and wakes everybody; bytes, calls and books stay. */
  lemma ResetEffect(s: Mq)
    requires Inv(s)
    ensures var r := Reset(s);
            && r == s.(queue := [], entry := 0, free := r.free, place := r.place, receivers := ResumeAll(s.receivers),
                       senders := ResumeAll(s.senders))
            && r.receivers.waiters == [] == r.senders.waiters
  {
    ResumeAllEffect(s.receivers);
    ResumeAllEffect(s.senders);
    var w := s.(receivers := ResumeAll(s.receivers), senders := ResumeAll(s.senders));
    OtherWaits(s, w);
    SameBytes(s, w);
    DropAllInv(w);
  }

  ghost predicate Holds(s: Mq, t: Tid, n: nat) {
    t in s.calls && InFlight(s.calls[t]) && s.calls[t].node == n
  }

  ghost predicate InSomeCall(s: Mq, n: nat) {
    exists t :: Holds(s, t, n)
  }

  /** Conservation, in every reachable state: each of the max nodes, and nothing else, is on the free list, in the
      queue or in a call; in one of them only, once only, with one call only; and entry counts the queue. */
  lemma PoolConservation(s: Mq, acts: seq<Action>)
    requires Fresh(s)
    ensures Inv(s)
    ensures var r := Run(s, acts);
            && Distinct(r.free + r.queue)
            && (forall n: nat :: n < s.max <==> n in r.free || n in r.queue || InSomeCall(r, n))
            && (forall n: nat :: InSomeCall(r, n) ==> n !in r.free && n !in r.queue)
            && (forall t, u, n: nat :: Holds(r, t, n) && Holds(r, u, n) ==> t == u)
            && r.entry == |r.queue|
  {
    FreshInv(s);
    RunInv(s, acts);
    PoolShared(Run(s, acts));
  }

  lemma PoolShared(r: Mq)
    requires Pool(r)
    ensures Distinct(r.free + r.queue)
    ensures forall n: nat :: n < r.max <==> n in r.free || n in r.queue || InSomeCall(r, n)
    ensures forall n: nat :: InSomeCall(r, n) ==> n !in r.free && n !in r.queue
  {
    forall n: nat | n < r.max ensures n in r.free || n in r.queue || InSomeCall(r, n) {
      assert InPlace(r, n);
      if r.place(n).Held? {
        assert Holds(r, r.place(n).t, n);
      }
    }
    assert forall i :: 0 <= i < |r.free| ==> r.free[i] in r.free;
    assert forall i :: 0 <= i < |r.queue| ==> r.queue[i] in r.queue;
  }

  /** The overflow exits of the two sends cannot be reached: a link always succeeds. */
  lemma LinkNeverOverflows(s: Mq, acts: seq<Action>, t: Tid)
    requires Fresh(s)
    ensures Inv(s)
    ensures Inv(Run(s, acts))
    ensures Enabled(Run(s, acts), LinkStep(t)) ==> Apply(Run(s, acts), LinkStep(t)).1 == Returned(EOK)
  {
    FreshInv(s);
    RunInv(s, acts);
    if Enabled(Run(s, acts), LinkStep(t)) {
      LinkInv(Run(s, acts), t);
    }
  }

  /** In every reachable state no sleeping receiver or sender is forgotten. */
  lemma NoLostWakeUp(s: Mq, acts: seq<Action>)
    requires Fresh(s)
    ensures Inv(s)
    ensures NobodyForgotten(Run(s, acts))
  {
    FreshInv(s);
    RunInv(s, acts);
  }

  // ---- Refinement of a double-ended queue of messages.

  type Message = seq<Byte>

  ghost function Messages(s: Mq): seq<Message> {
    Loads(s.queue, s.load)
  }

  datatype DequeOp = PushBack(m: Message) | PushFront(m: Message) | PopFront | Clear | Stay

  function DequeStep(d: seq<Message>, op: DequeOp): seq<Message> {
    match op
    case PushBack(m) => d + [m]
    case PushFront(m) => [m] + d
    case PopFront => if d == [] then d else d[1..]
    case Clear => []
    case Stay => d
  }

  /** The thread that took a message in this step. */
  ghost predicate Takes(s: Mq, a: Action) {
    && Inv(s) && Enabled(s, a) && (a.RecvStep? || a.RecvResumeStep?)
    && a.t in Apply(s, a).0.calls && Apply(s, a).0.calls[a.t].Draining?
  }

  /** What the step is on the double-ended queue. */
  ghost function Label(s: Mq, a: Action): DequeOp
    requires Inv(s)
  {
    if !Enabled(s, a) then Stay
    else if a.LinkStep? then
      if s.calls[a.t].urgent then PushFront(s.calls[a.t].buf) else PushBack(s.calls[a.t].buf)
    else if a.ResetStep? then Clear
    else if Takes(s, a) then PopFront
    else Stay
  }

  /** Every section is one operation of the double-ended queue, and a copy in progress is none. */
  lemma StepRefines(s: Mq, a: Action)
    requires Inv(s)
    ensures Messages(Apply(s, a).0) == DequeStep(Messages(s), Label(s, a))
  {
    var r := Apply(s, a).0;
    if Enabled(s, a) {
      if a.LinkStep? {
        LinkRefines(s, a.t);
      } else if a.ResetStep? {
        ResetEffect(s);
      } else if Takes(s, a) {
        TakeEffect(s, a);
        assert Messages(r) == Messages(s)[1..];
      } else {
        QuietStep(s, a);
        assert Messages(r) == Messages(s);
      }
    }
  }

  lemma LinkRefines(s: Mq, t: Tid)
    requires Inv(s) && Enabled(s, LinkStep(t))
    ensures Messages(Link(s, t).0) == DequeStep(Messages(s), Label(s, LinkStep(t)))
  {
    var c, r := s.calls[t], Link(s, t).0;
    assert s.place(c.node) == Held(t);
    LinkMessages(s.queue, c.node, s.load, r.load, c.buf);
    assert r.queue == if c.urgent then [c.node] + s.queue else s.queue + [c.node];
  }

  /** The messages of a list of nodes. */
  ghost function Loads(q: seq<nat>, load: nat -> Message): seq<Message> {
    seq(|q|, i requires 0 <= i < |q| => load(q[i]))
  }

  lemma LinkMessages(q: seq<nat>, node: nat, load: nat -> Message, load': nat -> Message, m: Message)
    requires node !in q && load' == With(load, node, m)
    ensures Loads(q + [node], load') == Loads(q, load) + [m]
    ensures Loads([node] + q, load') == [m] + Loads(q, load)
  {
    assert forall i :: 0 <= i < |q| ==> q[i] in q;
  }

  lemma TakeEffect(s: Mq, a: Action)
    requires Takes(s, a)
    ensures s.queue != []
    ensures Apply(s, a).0.queue == s.queue[1..] && Apply(s, a).0.load == s.load
  {
  }

  lemma QuietStep(s: Mq, a: Action)
    requires Inv(s) && Enabled(s, a)
    requires !a.LinkStep? && !a.ResetStep? && !Takes(s, a)
    ensures Apply(s, a).0.queue == s.queue && Apply(s, a).0.load == s.load
  {
  }

  ghost function Labels(s: Mq, acts: seq<Action>): seq<DequeOp>
    requires Inv(s)
    decreases |acts|
  {
    if acts == [] then [] else ApplyInv(s, acts[0]); [Label(s, acts[0])] + Labels(Apply(s, acts[0]).0, acts[1..])
  }

  function DequeRun(d: seq<Message>, ops: seq<DequeOp>): seq<Message>
    decreases |ops|
  {
    if ops == [] then d else DequeRun(DequeStep(d, ops[0]), ops[1..])
  }

  /** Over any run the queued messages are those of the double-ended queue run on the same operations. */
  lemma {:induction false} RunRefines(s: Mq, acts: seq<Action>)
    requires Inv(s)
    ensures Messages(Run(s, acts)) == DequeRun(Messages(s), Labels(s, acts))
    decreases |acts|
  {
    if acts != [] {
      ApplyInv(s, acts[0]);
      StepRefines(s, acts[0]);
      RunRefines(Apply(s, acts[0]).0, acts[1..]);
      var l := Labels(s, acts);
      assert l[0] == Label(s, acts[0]) && l[1..] == Labels(Apply(s, acts[0]).0, acts[1..]);
    }
  }

  /** A receiver takes the message at the front. */
  lemma TakesFront(s: Mq, a: Action)
    requires Takes(s, a)
    ensures Messages(s) != [] && Apply(s, a).0.calls[a.t].message == Messages(s)[0]
  {
  }

  /** The message stays the receiver's, whatever any thread does, until its second section. */
  lemma MessageKept(s: Mq, a: Action, t: Tid)
    requires Inv(s) && t in s.calls && s.calls[t].Draining? && a != PutBackStep(t)
    ensures var r := Apply(s, a).0;
            && t in r.calls && r.calls[t].Draining?
            && r.calls[t].message == s.calls[t].message && r.calls[t].size == s.calls[t].size
  {
    if a != CopyOutStep(t) {
      OthersKept(s, a, t);
    }
  }

  /** A step of another thread leaves the local state of a call in flight alone. */
  lemma OthersKept(s: Mq, a: Action, t: Tid)
    requires Inv(s) && t in s.calls && InFlight(s.calls[t])
    requires a.ResetStep? || a.TimeoutStep? || a.t != t || (s.calls[t].Draining? && !a.CopyOutStep? && !a.PutBackStep?)
    ensures t in Apply(s, a).0.calls && Apply(s, a).0.calls[t] == s.calls[t]
  {
    if a.ResetStep? {
      ResetEffect(s);
    } else if Enabled(s, a) && (a.SendStep? || a.SendResumeStep?) {
      SendKeeps(s, a.t, if a.SendStep? then a.buf else s.calls[a.t].buf, a.timeout, t);
    } else if Enabled(s, a) && (a.RecvStep? || a.RecvResumeStep?) {
      RecvKeeps(s, a.t, if a.RecvStep? then a.size else s.calls[a.t].size, a.timeout, t);
    } else {
      StepKeeps(s, a, t);
    }
  }

  lemma SendKeeps(s: Mq, u: Tid, buf: seq<Byte>, timeout: int, t: Tid)
    requires t in s.calls && t != u
    ensures var r := SendEnter(s, u, buf, timeout).0; t in r.calls && r.calls[t] == s.calls[t]
    ensures var r := SendResume(s, u, buf, timeout).0; t in r.calls && r.calls[t] == s.calls[t]
  {
  }

  lemma RecvKeeps(s: Mq, u: Tid, size: nat, timeout: int, t: Tid)
    requires t in s.calls && t != u && (s.entry > 0 ==> s.queue != [])
    ensures var r := RecvEnter(s, u, size, timeout).0; t in r.calls && r.calls[t] == s.calls[t]
    ensures var r := RecvResume(s, u, size, timeout).0; t in r.calls && r.calls[t] == s.calls[t]
  {
  }

  lemma StepKeeps(s: Mq, a: Action, t: Tid)
    requires Inv(s) && t in s.calls
    requires !Enabled(s, a) || !(a.ResetStep? || a.SendStep? || a.SendResumeStep? || a.RecvStep? || a.RecvResumeStep?)
    requires a.ResetStep? || a.TimeoutStep? || a.t != t || !Enabled(s, a)
    ensures t in Apply(s, a).0.calls && Apply(s, a).0.calls[t] == s.calls[t]
  {
  }

  /** A receive that completes has stored, up to the smaller of the sizes, the bytes its message's sender
      passed in: no copy of any other thread got in between. */
  lemma DeliveredIntact(s: Mq, acts: seq<Action>, t: Tid)
    requires Fresh(s)
    ensures Inv(s)
    ensures Enabled(Run(s, acts), PutBackStep(t)) ==>
              var c := Run(s, acts).calls[t];
              && |c.out| == Min(c.size, Run(s, acts).msgSize)
              && var k := Min(|c.message|, |c.out|); c.out[..k] == c.message[..k]
  {
    FreshInv(s);
    RunInv(s, acts);
    var r := Run(s, acts);
    if Enabled(r, PutBackStep(t)) {
      assert CallContents(r, r.calls[t]);
    }
  }

  /** No byte of a node changes while the node is queued. */
  lemma QueuedBytesStable(s: Mq, a: Action, n: nat)
    requires Inv(s) && n in s.queue && n in Apply(s, a).0.queue
    ensures n < |s.data| == |Apply(s, a).0.data| && Apply(s, a).0.data[n] == s.data[n]
  {
    if a.ResetStep? {
      ResetEffect(s);
    } else if a.CopyInStep? && Enabled(s, a) {
      CopyInInv(s, a.t);
      assert s.place(s.calls[a.t].node) == Held(a.t);
    }
  }

  // ---- Order of delivery.

  /** The queue with the messages linked and the messages taken so far, in order. */
  datatype World = World(s: Mq, linked: seq<Message>, taken: seq<Message>)

  ghost function Record(w: World, a: Action): World
    requires Inv(w.s)
  {
    var s := Apply(w.s, a).0;
    match Label(w.s, a)
    case PushBack(m) => World(s, w.linked + [m], w.taken)
    case PushFront(m) => World(s, w.linked + [m], w.taken)
    case PopFront => World(s, w.linked, w.taken + [s.calls[a.t].message])
    case Clear => w.(s := s)
    case Stay => w.(s := s)
  }

  ghost function RecordRun(w: World, acts: seq<Action>): World
    requires Inv(w.s)
    decreases |acts|
  {
    if acts == [] then w else ApplyInv(w.s, acts[0]); RecordRun(Record(w, acts[0]), acts[1..])
  }

  /** Without urgent messages and resets, the messages are taken in the order in which they were linked, none
      twice and none left out. */
  lemma {:induction false} FirstInFirstOut(w: World, acts: seq<Action>)
    requires Inv(w.s) && w.taken + Messages(w.s) == w.linked
    requires forall a <- acts :: !a.UrgentStep? && !a.ResetStep?
    requires Ordinary(w.s)
    ensures var r := RecordRun(w, acts); r.taken + Messages(r.s) == r.linked
    decreases |acts|
  {
    if acts != [] {
      ApplyInv(w.s, acts[0]);
      StepInOrder(w, acts[0]);
      FirstInFirstOut(Record(w, acts[0]), acts[1..]);
    }
  }

  /** No urgent message is being sent. */
  ghost predicate Ordinary(s: Mq) {
    forall t <- s.calls :: s.calls[t].Filling? ==> !s.calls[t].urgent
  }

  lemma StepInOrder(w: World, a: Action)
    requires Inv(w.s) && w.taken + Messages(w.s) == w.linked
    requires !a.UrgentStep? && !a.ResetStep? && Ordinary(w.s)
    ensures var r := Record(w, a);
            && r.s == Apply(w.s, a).0 && Ordinary(r.s)
            && r.taken + Messages(r.s) == r.linked
  {
    Recorded(w, a);
    StillOrdinary(w.s, a);
    InOrder(w.taken, Messages(w.s), Label(w.s, a));
  }

  /** One operation that keeps the order. */
  lemma InOrder(taken: seq<Message>, d: seq<Message>, op: DequeOp)
    ensures op.PushBack? ==> taken + DequeStep(d, op) == taken + d + [op.m]
    ensures op.PopFront? && d != [] ==> taken + [d[0]] + DequeStep(d, op) == taken + d
  {
  }

  lemma StillOrdinary(s: Mq, a: Action)
    requires Inv(s) && !a.UrgentStep? && !a.ResetStep? && Ordinary(s)
    ensures Ordinary(Apply(s, a).0)
  {
  }

  /** With urgent messages too, every message linked is taken exactly once or still queued, as long as no
      reset drops it. */
  lemma {:induction false} NothingLost(w: World, acts: seq<Action>)
    requires Inv(w.s) && multiset(w.taken) + multiset(Messages(w.s)) == multiset(w.linked)
    requires forall a <- acts :: !a.ResetStep?
    ensures var r := RecordRun(w, acts); multiset(r.taken) + multiset(Messages(r.s)) == multiset(r.linked)
    decreases |acts|
  {
    if acts != [] {
      ApplyInv(w.s, acts[0]);
      StepLosesNothing(w, acts[0]);
      NothingLost(Record(w, acts[0]), acts[1..]);
    }
  }

  lemma StepLosesNothing(w: World, a: Action)
    requires Inv(w.s) && multiset(w.taken) + multiset(Messages(w.s)) == multiset(w.linked)
    requires !a.ResetStep?
    ensures var r := Record(w, a);
            r.s == Apply(w.s, a).0 && multiset(r.taken) + multiset(Messages(r.s)) == multiset(r.linked)
  {
    var op, d := Label(w.s, a), Messages(w.s);
    Recorded(w, a);
    Conserves(w.taken, d, op);
    if op.PushBack? || op.PushFront? {
      assert multiset(w.linked + [op.m]) == multiset(w.linked) + multiset{op.m};
    }
  }

  /** What a step that is no reset adds to the books. */
  lemma Recorded(w: World, a: Action)
    requires Inv(w.s) && !a.ResetStep?
    ensures var r, op, d := Record(w, a), Label(w.s, a), Messages(w.s);
            && r.s == Apply(w.s, a).0 && Messages(r.s) == DequeStep(d, op) && !op.Clear?
            && (op.PopFront? ==> d != [])
            && r.taken == (if op.PopFront? then w.taken + [d[0]] else w.taken)
            && r.linked == (if op.PushBack? || op.PushFront? then w.linked + [op.m] else w.linked)
  {
    StepRefines(w.s, a);
    if Takes(w.s, a) {
      TakesFront(w.s, a);
    }
  }

  /** One operation moves its message and no other. */
  lemma Conserves(taken: seq<Message>, d: seq<Message>, op: DequeOp)
    ensures op.PushBack? ==> multiset(DequeStep(d, op)) == multiset(d) + multiset{op.m}
    ensures op.PushFront? ==> multiset(DequeStep(d, op)) == multiset(d) + multiset{op.m}
    ensures op.PopFront? && d != [] ==>
              multiset(taken + [d[0]]) + multiset(DequeStep(d, op)) == multiset(taken) + multiset(d)
    ensures op.Stay? ==> DequeStep(d, op) == d
  {
    if op.PopFront? && d != [] {
      assert d == [d[0]] + d[1..];
    }
  }
}
