/** The message queue as a step machine. Its nodes travel between the free list, the linked queue and the
    calls that copy to or from them with interrupts enabled; every section with interrupts
    disabled, and every byte copied between two of them, is one step. */
module MessageQueue {
  import opened Arithmetic
  import opened Kernel
  import opened IpcObject

  const ENTRY_MAX := UINT16_MAX

  /** The local state of a thread inside a call. Filling is a sender that took node off the free list and
      copied done bytes of buf, cleared telling whether it has reset the node's next field; Draining is
      a receiver that took node off the queue, where message was in it, and copied out. */
  datatype Call =
    | Sending(buf: seq<Byte>)
    | Receiving(size: nat)
    | Filling(node: nat, buf: seq<Byte>, done: nat, cleared: bool, urgent: bool)
    | Draining(node: nat, size: nat, out: seq<Byte>, message: seq<Byte>)

  datatype Place = Free | Queued | Held(t: Tid)

  /** data is the memory behind the nodes' headers. place and load are the books: where each node is,
      and the message in it while it is queued. */
  datatype Mq = Mq(
    max: nat, msgSize: nat,
    free: seq<nat>, queue: seq<nat>, entry: nat,
    data: seq<seq<Byte>>,
    receivers: Ipc, senders: Ipc,
    calls: map<Tid, Call>,
    place: nat -> Place, load: nat -> seq<Byte>)

  predicate InFlight(c: Call) {
    c.Filling? || c.Draining?
  }

  function Min(a: nat, b: nat): nat {
    if a < b then a else b
  }

  function Done(s: Mq, t: Tid): Mq {
    s.(calls := s.calls - {t})
  }

  /** A sender takes the first free node. */
  function Reserve(s: Mq, t: Tid, buf: seq<Byte>, urgent: bool): Mq
    requires s.free != []
  {
    s.(free := s.free[1..], place := With(s.place, s.free[0], Held(t)),
       calls := s.calls[t := Filling(s.free[0], buf, 0, false, urgent)])
  }

  /** rt_mq_send_wait from the test for a free node on. */
  function SendLoop(s: Mq, t: Tid, buf: seq<Byte>, timeout: int): (Mq, Outcome) {
    if s.free == [] then
      if timeout == 0 then (Done(s, t), Returned(EFULL))
      else (s.(senders := Suspend(s.senders, t), calls := s.calls[t := Sending(buf)]), Running)
    else (Reserve(s, t, buf, false), Running)
  }

  function SendEnter(s: Mq, t: Tid, buf: seq<Byte>, timeout: int): (Mq, Outcome) {
    if |buf| > s.msgSize then (s, Returned(ERROR)) else SendLoop(s, t, buf, timeout)
  }

  /** A blocked sender runs on, with the timeout it has left. */
  function SendResume(s: Mq, t: Tid, buf: seq<Byte>, timeout: int): (Mq, Outcome) {
    var s' := s.(senders := Leave(s.senders, t));
    if s.senders.error(t) != EOK then (Done(s', t), Returned(s.senders.error(t))) else SendLoop(s', t, buf, timeout)
  }

  function UrgentEnter(s: Mq, t: Tid, buf: seq<Byte>): (Mq, Outcome) {
    if |buf| > s.msgSize then (s, Returned(ERROR))
    else if s.free == [] then (s, Returned(EFULL))
    else (Reserve(s, t, buf, true), Running)
  }

  /** The ordinary sender resets the next field of its node, with interrupts enabled. */
  function ClearNext(s: Mq, t: Tid): Mq
    requires t in s.calls && s.calls[t].Filling?
  {
    s.(calls := s.calls[t := s.calls[t].(cleared := true)])
  }

  /** One byte of the copy into the node, with interrupts enabled. */
  function CopyIn(s: Mq, t: Tid): Mq
    requires t in s.calls && s.calls[t].Filling?
    requires s.calls[t].done < |s.calls[t].buf|
    requires s.calls[t].node < |s.data| && s.calls[t].done < |s.data[s.calls[t].node]|
  {
    var c := s.calls[t];
    s.(data := s.data[c.node := s.data[c.node][c.done := c.buf[c.done]]],
       calls := s.calls[t := c.(done := c.done + 1)])
  }

  /** A message arrived: the first waiting receiver is resumed. */
  function WakeReceiver(s: Mq): Mq {
    if s.receivers.waiters != [] then s.(receivers := Resume(s.receivers)) else s
  }

  /** A node came free: the first waiting sender is resumed. */
  function WakeSender(s: Mq): Mq {
    if s.senders.waiters != [] then s.(senders := Resume(s.senders)) else s
  }

  /** The second section of a send: the node is linked behind the tail, or before the head when urgent. */
  function Link(s: Mq, t: Tid): (Mq, Outcome)
    requires t in s.calls && s.calls[t].Filling?
  {
    var c := s.calls[t];
    var linked := Done(s.(
      queue := if c.urgent then [c.node] + s.queue else s.queue + [c.node],
      place := With(s.place, c.node, Queued), load := With(s.load, c.node, c.buf)), t);
    if s.entry < ENTRY_MAX then (WakeReceiver(linked.(entry := s.entry + 1)), Returned(EOK))
    else (linked, Returned(EFULL))
  }

  /** A receiver takes the first message. */
  function TakeHead(s: Mq, t: Tid, size: nat): Mq
    requires s.queue != []
  {
    var node := s.queue[0];
    s.(queue := s.queue[1..], entry := if s.entry > 0 then s.entry - 1 else s.entry,
       place := With(s.place, node, Held(t)),
       calls := s.calls[t := Draining(node, size, [], s.load(node))])
  }

  /** rt_mq_recv from the test for a message on; it trusts entry to tell whether there is a head. */
  function RecvLoop(s: Mq, t: Tid, size: nat, timeout: int): (Mq, Outcome)
    requires s.entry > 0 ==> s.queue != []
  {
    if s.entry == 0 then
      if timeout == 0 then
        (Done(s.(receivers := SetError(s.receivers, t, ETIMEOUT)), t), Returned(ETIMEOUT))
      else (s.(receivers := Suspend(s.receivers, t), calls := s.calls[t := Receiving(size)]), Running)
    else (TakeHead(s, t, size), Running)
  }

  function RecvEnter(s: Mq, t: Tid, size: nat, timeout: int): (Mq, Outcome)
    requires s.entry > 0 ==> s.queue != []
  {
    if s.entry == 0 && timeout == 0 then (s, Returned(ETIMEOUT)) else RecvLoop(s, t, size, timeout)
  }

  /** A blocked receiver runs on, with the timeout it has left. */
  function RecvResume(s: Mq, t: Tid, size: nat, timeout: int): (Mq, Outcome)
    requires s.entry > 0 ==> s.queue != []
  {
    var s' := s.(receivers := Leave(s.receivers, t));
    if s.receivers.error(t) != EOK then (Done(s', t), Returned(s.receivers.error(t)))
    else RecvLoop(s', t, size, timeout)
  }

  /** One byte of the copy out of the node, with interrupts enabled. */
  function CopyOut(s: Mq, t: Tid): Mq
    requires t in s.calls && s.calls[t].Draining?
    requires s.calls[t].node < |s.data| && |s.calls[t].out| < |s.data[s.calls[t].node]|
  {
    var c := s.calls[t];
    s.(calls := s.calls[t := c.(out := c.out + [s.data[c.node][|c.out|]])])
  }

  /** The second section of a receive: the node goes back to the head of the free list. */
  function PutBack(s: Mq, t: Tid): (Mq, Outcome)
    requires t in s.calls && s.calls[t].Draining?
  {
    var node := s.calls[t].node;
    (WakeSender(Done(s.(free := [node] + s.free, place := With(s.place, node, Free)), t)), Returned(EOK))
  }

  /** One round of the loop of rt_mq_control that empties the queue. */
  function Drop(s: Mq): Mq
    requires s.queue != []
  {
    s.(queue := s.queue[1..], free := [s.queue[0]] + s.free, place := With(s.place, s.queue[0], Free))
  }

  function DropAll(s: Mq): Mq
    decreases |s.queue|
  {
    if s.queue == [] then s else DropAll(Drop(s))
  }

  /** rt_mq_control with RT_IPC_CMD_RESET. Calls between their two sections keep their nodes. */
  function Reset(s: Mq): Mq {
    DropAll(s.(receivers := ResumeAll(s.receivers), senders := ResumeAll(s.senders))).(entry := 0)
  }

  function Expired(s: Mq, t: Tid): Mq {
    if t in s.receivers.waiters then s.(receivers := Expire(s.receivers, t))
    else s.(senders := Expire(s.senders, t))
  }

  // ---- The invariant.

  /** The free list, the queue and the calls in flight share out the nodes: no node is in two places or twice
      in one, and none is lost. */
  ghost predicate Pool(s: Mq) {
    && s.max <= ENTRY_MAX && s.entry == |s.queue|
    && Distinct(s.free) && Distinct(s.queue)
    && (forall n <- s.free :: n < s.max && s.place(n) == Free)
    && (forall n <- s.queue :: n < s.max && s.place(n) == Queued)
    && (forall t <- s.calls :: InFlight(s.calls[t]) ==> s.calls[t].node < s.max && s.place(s.calls[t].node) == Held(t))
    && (forall n | 0 <= n < s.max :: InPlace(s, n))
  }

  ghost predicate InPlace(s: Mq, n: nat) {
    match s.place(n)
    case Free => n in s.free
    case Queued => n in s.queue
    case Held(t) => t in s.calls && InFlight(s.calls[t]) && s.calls[t].node == n
  }

  /** The bytes behind a queued node's header are its message; a copy has got as far as it says. */
  ghost predicate Contents(s: Mq) {
    && |s.data| == s.max
    && (forall n | 0 <= n < s.max :: |s.data[n]| == s.msgSize)
    && (forall n <- s.queue :: n < s.max ==> s.load(n) <= s.data[n])
    && (forall t <- s.calls :: CallContents(s, s.calls[t]))
  }

  ghost predicate CallContents(s: Mq, c: Call) {
    match c
    case Sending(buf) => |buf| <= s.msgSize
    case Receiving(_) => true
    case Filling(n, buf, done, _, _) =>
      |buf| <= s.msgSize && done <= |buf| && (n < |s.data| ==> buf[..done] <= s.data[n])
    case Draining(n, size, out, message) =>
      |out| <= Min(size, s.msgSize) && (n < |s.data| ==> message <= s.data[n] && out <= s.data[n])
  }

  /** The two wait lists hold exactly the threads that block in a call of their kind. */
  ghost predicate Blocked(s: Mq) {
    && Valid(s.receivers) && Valid(s.senders)
    && (forall t :: !Idle(s.receivers, t) <==> t in s.calls && s.calls[t].Receiving?)
    && (forall t :: !Idle(s.senders, t) <==> t in s.calls && s.calls[t].Sending?)
  }

  /** Nobody is forgotten: while receivers sleep, every queued message has a resumed receiver on its way to
      it, and while senders sleep, so has every free node a resumed sender. */
  ghost predicate NobodyForgotten(s: Mq) {
    && (s.receivers.waiters != [] ==> |s.queue| <= |Woken(s.receivers)|)
    && (s.senders.waiters != [] ==> |s.free| <= |Woken(s.senders)|)
  }

  ghost predicate Inv(s: Mq) {
    Pool(s) && Contents(s) && Blocked(s) && NobodyForgotten(s)
  }

  // ---- Counting.

  /** Distinct numbers below m are at most m. */
  lemma {:induction false} DistinctBound(q: seq<nat>, m: nat)
    requires Distinct(q) && forall i :: 0 <= i < |q| ==> q[i] < m
    ensures |q| <= m
  {
    if m > 0 {
      if m - 1 in q {
        var k :| 0 <= k < |q| && q[k] == m - 1;
        var r := q[..k] + q[k + 1..];
        assert forall i :: 0 <= i < |r| ==> r[i] == q[if i < k then i else i + 1];
        DistinctBound(r, m - 1);
      } else {
        DistinctBound(q, m - 1);
      }
    }
  }

  /** A call in flight leaves room in the entry counter. */
  lemma QueueShorterThanPool(s: Mq, t: Tid)
    requires Pool(s) && t in s.calls && InFlight(s.calls[t])
    ensures |s.queue| < s.max
  {
    var q := s.queue + [s.calls[t].node];
    assert forall i :: 0 <= i < |s.queue| ==> s.queue[i] in s.queue;
    DistinctBound(q, s.max);
  }
}
