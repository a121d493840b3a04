/** The mailbox: a ring buffer of words that is a bounded double-ended queue, with blocking senders and receivers. */
module Mailbox {
  import opened Arithmetic
  import opened Kernel
  import opened IpcObject

  const ENTRY_MAX := UINT16_MAX

  /** items is the content from front to back. receivers is the list in the embedded object,
      senders the additional list of the mailbox. */
  datatype Box = Box(items: seq<int>, size: nat, receivers: Ipc, senders: Ipc)

  /** A mail arrived: the first waiting receiver is resumed. */
  function WakeReceiver(b: Box): Box {
    if b.receivers.waiters != [] then b.(receivers := Resume(b.receivers)) else b
  }

  /** A slot came free: the first waiting sender is resumed. */
  function WakeSender(b: Box): Box {
    if b.senders.waiters != [] then b.(senders := Resume(b.senders)) else b
  }

  /** rt_mb_send_wait from the test for a full box on. */
  function SendLoop(b: Box, t: Tid, mail: int, timeout: int): (Box, Outcome) {
    if |b.items| == b.size then
      if timeout == 0 then (b.(senders := SetError(b.senders, t, EOK)), Returned(EFULL))
      else (b.(senders := Suspend(b.senders, t)), Running)
    else (WakeReceiver(b.(items := b.items + [mail])), Returned(EOK))
  }

  function SendEnter(b: Box, t: Tid, mail: int, timeout: int): (Box, Outcome) {
    if |b.items| == b.size && timeout == 0 then (b, Returned(EFULL)) else SendLoop(b, t, mail, timeout)
  }

  /** A blocked sender runs on, with the timeout it has left. */
  function SendResume(b: Box, t: Tid, mail: int, timeout: int): (Box, Outcome) {
    var b' := b.(senders := Leave(b.senders, t));
    if b.senders.error(t) != EOK then (b', Returned(b.senders.error(t))) else SendLoop(b', t, mail, timeout)
  }

  function Urgent(b: Box, mail: int): (Box, Outcome) {
    if |b.items| == b.size then (b, Returned(EFULL))
    else (WakeReceiver(b.(items := [mail] + b.items)), Returned(EOK))
  }

  /** rt_mb_recv from the test for an empty box on; the third part is what is stored through value. */
  function RecvLoop(b: Box, t: Tid, timeout: int): (Box, Outcome, Option<int>) {
    if b.items == [] then
      if timeout == 0 then (b.(receivers := SetError(b.receivers, t, ETIMEOUT)), Returned(ETIMEOUT), None)
      else (b.(receivers := Suspend(b.receivers, t)), Running, None)
    else (WakeSender(b.(items := b.items[1..])), Returned(EOK), Some(b.items[0]))
  }

  function RecvEnter(b: Box, t: Tid, timeout: int): (Box, Outcome, Option<int>) {
    if b.items == [] && timeout == 0 then (b, Returned(ETIMEOUT), None) else RecvLoop(b, t, timeout)
  }

  function RecvResume(b: Box, t: Tid, timeout: int): (Box, Outcome, Option<int>) {
    var b' := b.(receivers := Leave(b.receivers, t));
    if b.receivers.error(t) != EOK then (b', Returned(b.receivers.error(t)), None) else RecvLoop(b', t, timeout)
  }

  function Reset(b: Box): Box {
    b.(items := [], receivers := ResumeAll(b.receivers), senders := ResumeAll(b.senders))
  }

  /** Offset o moved on by i, in a ring of n slots. */
  function Wrap(o: nat, i: nat, n: nat): (k: nat)
    requires o < n && i <= n
    ensures k < n
  {
    if o + i < n then o + i else o + i - n
  }

  /** The offset arithmetic is addition modulo the size of the ring. */
  lemma WrapIsModulo(o: nat, i: nat, n: nat)
    requires o < n && i <= n
    ensures Wrap(o, i, n) == (o + i) % n
  {
    ModuloIs(o + i, n);
  }

  lemma ModuloIs(x: nat, n: nat)
    requires x < 2 * n
    ensures x % n == if x < n then x else x - n
  {
    assert x == x / n * n + x % n;
    if x / n >= 1 {
      Grows(1, x / n, n);
    }
    if x / n >= 2 {
      Grows(2, x / n, n);
    }
  }

  /** The n slots of a ring from offset o on. */
  function RingItems(slots: seq<int>, o: nat, n: nat): seq<int>
    requires n <= |slots| && (n > 0 ==> o < |slots|)
  {
    seq(n, i requires 0 <= i < n => slots[Wrap(o, i, |slots|)])
  }

  /** struct rt_mailbox and its calls, each method one section with interrupts disabled. w is the box with the books of
      the machine below: every section is the action of the same name, and keeps its invariant. */
  class Mailbox {
    const pool: array<int>
    var size: nat
    var entry: nat
    var inOffset: nat
    var outOffset: nat
    var parent: Ipc
    var senders: Ipc
    ghost var w: World

    /** The offsets bound the ring. */
    ghost predicate Ring()
      reads this`size, this`entry, this`inOffset, this`outOffset
    {
      && size == pool.Length <= ENTRY_MAX && entry <= size
      && (size > 0 ==> outOffset < size && inOffset == Wrap(outOffset, entry, size))
      && (size == 0 ==> inOffset == outOffset == 0)
    }

    ghost function Items(): seq<int>
      reads this`size, this`entry, this`inOffset, this`outOffset, pool
      requires Ring()
    {
      RingItems(pool[..], outOffset, entry)
    }

    ghost function View(): Box
      reads this`size, this`entry, this`inOffset, this`outOffset, this`parent, this`senders, pool
      requires Ring()
    {
      Box(Items(), size, parent, senders)
    }

    ghost predicate Valid()
      reads this, pool
    {
      Ring() && w.b == View() && Inv(w.b)
    }

    /** rt_mb_init. */
    constructor (msgpool: array<int>, flag: Flag, error: Tid -> Err, prio: Tid -> nat)
      requires msgpool.Length <= ENTRY_MAX
      ensures pool == msgpool && Valid()
      ensures w == Init(msgpool.Length, Ipc(flag, [], {}, error, prio), Ipc(flag, [], {}, error, prio))
    {
      pool, size := msgpool, msgpool.Length;
      entry, inOffset, outOffset := 0, 0, 0;
      parent, senders := Ipc(flag, [], {}, error, prio), Ipc(flag, [], {}, error, prio);
      w := Init(msgpool.Length, Ipc(flag, [], {}, error, prio), Ipc(flag, [], {}, error, prio));
      new;
      if size > 0 {
        assert Wrap(0, 0, size) == 0;
      }
    }

    /** The append of rt_mb_send_wait. */
    method PushBack(mail: int) returns (o: Outcome)
      requires Ring() && entry < size
      modifies this`entry, this`inOffset, pool
      ensures Ring() && o == Returned(EOK) && Items() == old(Items()) + [mail]
    {
      pool[inOffset] := mail;
      inOffset := inOffset + 1;
      if inOffset >= size {
        inOffset := 0;
      }
      if entry < ENTRY_MAX {
        entry := entry + 1;
      } else {
        return Returned(EFULL);
      }
      return Returned(EOK);
    }

    /** The insertion of rt_mb_urgent. */
    method PushFront(mail: int)
      requires Ring() && entry < size
      modifies this`entry, this`outOffset, pool
      ensures Ring() && Items() == [mail] + old(Items())
    {
      if outOffset > 0 {
        outOffset := outOffset - 1;
      } else {
        outOffset := size - 1;
      }
      pool[outOffset] := mail;
      entry := entry + 1;
    }

    /** The removal of rt_mb_recv. */
    method PopFront() returns (mail: int)
      requires Ring() && entry > 0
      modifies this`entry, this`outOffset
      ensures Ring() && [mail] + Items() == old(Items())
    {
      mail := pool[outOffset];
      outOffset := outOffset + 1;
      if outOffset >= size {
        outOffset := 0;
      }
      if entry > 0 {
        entry := entry - 1;
      }
    }

    method Send(t: Tid, mail: int, timeout: int) returns (o: Outcome)
      requires Valid() && Idle(parent, t) && Idle(senders, t)
      modifies this, pool
      ensures Valid() && w == Apply(old(w), SendStep(t, mail, timeout))
      ensures (View(), o) == SendEnter(old(View()), t, mail, timeout)
    {
      ApplyInv(w, SendStep(t, mail, timeout));
      w := Apply(w, SendStep(t, mail, timeout));
      if entry == size && timeout == 0 {
        return Returned(EFULL);
      }
      o := SendOn(t, mail, timeout);
    }

    /** A blocked sender runs on. */
    method SendWoken(t: Tid, mail: int, timeout: int) returns (o: Outcome)
      requires Valid() && t in senders.ready
      modifies this, pool
      ensures Valid() && w == Apply(old(w), SendResumeStep(t, mail, timeout))
      ensures (View(), o) == SendResume(old(View()), t, mail, timeout)
    {
      ApplyInv(w, SendResumeStep(t, mail, timeout));
      w := Apply(w, SendResumeStep(t, mail, timeout));
      senders := Leave(senders, t);
      if senders.error(t) != EOK {
        return Returned(senders.error(t));
      }
      o := SendOn(t, mail, timeout);
    }

    /** The loop of rt_mb_send_wait, up to the next suspension. */
    method SendOn(t: Tid, mail: int, timeout: int) returns (o: Outcome)
      requires Ring()
      modifies this`entry, this`inOffset, this`parent, this`senders, pool
      ensures Ring() && (View(), o) == SendLoop(old(View()), t, mail, timeout)
    {
      if entry == size {
        if timeout == 0 {
          senders := SetError(senders, t, EOK);
          o := Returned(EFULL);
        } else {
          // Suspend clears the error first.
          senders := Suspend(senders, t);
          o := Running;
        }
        return;
      }
      o := PushBack(mail);
      if parent.waiters != [] {
        parent := Resume(parent);
      }
    }

    method SendUrgent(mail: int) returns (o: Outcome)
      requires Valid()
      modifies this, pool
      ensures Valid() && w == Apply(old(w), UrgentStep(mail))
      ensures (View(), o) == Urgent(old(View()), mail)
    {
      ApplyInv(w, UrgentStep(mail));
      w := Apply(w, UrgentStep(mail));
      if entry == size {
        return Returned(EFULL);
      }
      PushFront(mail);
      if parent.waiters != [] {
        parent := Resume(parent);
      }
      return Returned(EOK);
    }

    method Recv(t: Tid, timeout: int) returns (o: Outcome, mail: Option<int>)
      requires Valid() && Idle(parent, t) && Idle(senders, t)
      modifies this
      ensures Valid() && w == Apply(old(w), RecvStep(t, timeout))
      ensures (View(), o, mail) == RecvEnter(old(View()), t, timeout)
    {
      ApplyInv(w, RecvStep(t, timeout));
      w := Apply(w, RecvStep(t, timeout));
      if entry == 0 && timeout == 0 {
        return Returned(ETIMEOUT), None;
      }
      o, mail := RecvOn(t, timeout);
    }

    /** A blocked receiver runs on. */
    method RecvWoken(t: Tid, timeout: int) returns (o: Outcome, mail: Option<int>)
      requires Valid() && t in parent.ready
      modifies this
      ensures Valid() && w == Apply(old(w), RecvResumeStep(t, timeout))
      ensures (View(), o, mail) == RecvResume(old(View()), t, timeout)
    {
      ApplyInv(w, RecvResumeStep(t, timeout));
      w := Apply(w, RecvResumeStep(t, timeout));
      parent := Leave(parent, t);
      if parent.error(t) != EOK {
        return Returned(parent.error(t)), None;
      }
      o, mail := RecvOn(t, timeout);
    }

    /** The loop of rt_mb_recv, up to the next suspension. */
    method RecvOn(t: Tid, timeout: int) returns (o: Outcome, mail: Option<int>)
      requires Ring()
      modifies this`entry, this`outOffset, this`parent, this`senders
      ensures Ring() && (View(), o, mail) == RecvLoop(old(View()), t, timeout)
    {
      if entry == 0 {
        if timeout == 0 {
          parent := SetError(parent, t, ETIMEOUT);
          o := Returned(ETIMEOUT);
        } else {
          parent := Suspend(parent, t);
          o := Running;
        }
        mail := None;
        return;
      }
      var m := PopFront();
      if senders.waiters != [] {
        senders := Resume(senders);
      }
      return Returned(EOK), Some(m);
    }

    /** The timer of a suspended thread expires. */
    method TimeOut(t: Tid)
      requires Valid() && (t in parent.waiters || t in senders.waiters)
      modifies this
      ensures Valid() && w == Apply(old(w), TimeoutStep(t))
    {
      ApplyInv(w, TimeoutStep(t));
      w := Apply(w, TimeoutStep(t));
      if t in parent.waiters {
        parent := Expire(parent, t);
      } else {
        senders := Expire(senders, t);
      }
    }

    method Control()
      requires Valid()
      modifies this
      ensures Valid() && w == Apply(old(w), ResetStep)
      ensures View() == Reset(old(View()))
    {
      ApplyInv(w, ResetStep);
      w := Apply(w, ResetStep);
      Empty();
    }

    /** The section on the fields. */
    method Empty()
      requires Ring()
      modifies this`entry, this`inOffset, this`outOffset, this`parent, this`senders
      ensures Ring() && View() == Reset(old(View()))
    {
      parent := ResumeAllLoop(parent);
      senders := ResumeAllLoop(senders);
      entry, inOffset, outOffset := 0, 0, 0;
    }
  }

  // ---- Runs: any number of threads, every interleaving of the sections.

  datatype Action =
    | SendStep(t: Tid, mail: int, timeout: int)
    | SendResumeStep(t: Tid, mail: int, timeout: int)
    | UrgentStep(mail: int)
    | RecvStep(t: Tid, timeout: int)
    | RecvResumeStep(t: Tid, timeout: int)
    | TimeoutStep(t: Tid)
    | ResetStep

  /** The mailbox with its books: the mails of the sends that returned RT_EOK and those the
      receives stored, each in order. */
  datatype World = World(b: Box, sent: seq<int>, received: seq<int>)

  predicate Enabled(b: Box, a: Action) {
    match a
    case SendStep(t, _, _) => Idle(b.receivers, t) && Idle(b.senders, t)
    case SendResumeStep(t, _, _) => t in b.senders.ready
    case RecvStep(t, _) => Idle(b.receivers, t) && Idle(b.senders, t)
    case RecvResumeStep(t, _) => t in b.receivers.ready
    case TimeoutStep(t) => t in b.receivers.waiters || t in b.senders.waiters
    case UrgentStep(_) => true
    case ResetStep => true
  }

  function Sent(w: World, r: (Box, Outcome), mail: int): World {
    World(r.0, if r.1 == Returned(EOK) then w.sent + [mail] else w.sent, w.received)
  }

  function Received(w: World, r: (Box, Outcome, Option<int>)): World {
    World(r.0, w.sent, if r.2.Some? then w.received + [r.2.value] else w.received)
  }

  function Expired(b: Box, t: Tid): Box {
    if t in b.receivers.waiters then b.(receivers := Expire(b.receivers, t))
    else b.(senders := Expire(b.senders, t))
  }

  function Apply(w: World, a: Action): World {
    if !Enabled(w.b, a) then w else
    match a
    case SendStep(t, mail, timeout) => Sent(w, SendEnter(w.b, t, mail, timeout), mail)
    case SendResumeStep(t, mail, timeout) => Sent(w, SendResume(w.b, t, mail, timeout), mail)
    case UrgentStep(mail) => Sent(w, Urgent(w.b, mail), mail)
    case RecvStep(t, timeout) => Received(w, RecvEnter(w.b, t, timeout))
    case RecvResumeStep(t, timeout) => Received(w, RecvResume(w.b, t, timeout))
    case TimeoutStep(t) => w.(b := Expired(w.b, t))
    case ResetStep => w.(b := Reset(w.b))
  }

  function Run(w: World, acts: seq<Action>): World
    decreases |acts|
  {
    if acts == [] then w else Run(Apply(w, acts[0]), acts[1..])
  }

  /** Nobody is forgotten: while receivers sleep, every mail has a resumed receiver on its way to it,
      and while senders sleep, so has every free slot a resumed sender. */
  ghost predicate NobodyForgotten(b: Box) {
    && (b.receivers.waiters != [] ==> |b.items| <= |Woken(b.receivers)|)
    && (b.senders.waiters != [] ==> b.size - |b.items| <= |Woken(b.senders)|)
  }

  ghost predicate Inv(b: Box) {
    && Valid(b.receivers) && Valid(b.senders)
    && |b.items| <= b.size
    && NobodyForgotten(b)
  }

  /** The box while thread t, its receiver or sender, runs between two of its sections: t itself
      still counts as on its way. */
  ghost predicate Between(b: Box, slackReceivers: nat, slackSenders: nat) {
    && Valid(b.receivers) && Valid(b.senders)
    && |b.items| <= b.size
    && (b.receivers.waiters != [] ==> |b.items| <= |Woken(b.receivers)| + slackReceivers)
    && (b.senders.waiters != [] ==> b.size - |b.items| <= |Woken(b.senders)| + slackSenders)
  }

  lemma SendLoopInv(b: Box, t: Tid, mail: int, timeout: int)
    requires Between(b, 0, 1) && Idle(b.senders, t)
    ensures Inv(SendLoop(b, t, mail, timeout).0)
  {
    if |b.items| == b.size {
      if timeout == 0 {
        assert Woken(SetError(b.senders, t, EOK)) == Woken(b.senders);
      } else {
        SuspendWakes(b.senders, t);
      }
    } else if b.receivers.waiters != [] {
      ResumeWakes(b.receivers);
    }
  }

  lemma RecvLoopInv(b: Box, t: Tid, timeout: int)
    requires Between(b, 1, 0) && Idle(b.receivers, t)
    ensures Inv(RecvLoop(b, t, timeout).0)
  {
    if b.items == [] {
      if timeout == 0 {
        assert Woken(SetError(b.receivers, t, ETIMEOUT)) == Woken(b.receivers);
      } else {
        SuspendWakes(b.receivers, t);
      }
    } else if b.senders.waiters != [] {
      ResumeWakes(b.senders);
    }
  }

  lemma ApplyInv(w: World, a: Action)
    requires Inv(w.b)
    ensures Inv(Apply(w, a).b)
  {
    var b := w.b;
    if Enabled(b, a) {
      match a
      case SendStep(t, mail, timeout) => SendLoopInv(b, t, mail, timeout);
      case SendResumeStep(t, mail, timeout) =>
        LeaveWakes(b.senders, t);
        if b.senders.error(t) == EOK {
          SendLoopInv(b.(senders := Leave(b.senders, t)), t, mail, timeout);
        }
      case UrgentStep(mail) =>
        if b.receivers.waiters != [] {
          ResumeWakes(b.receivers);
        }
      case RecvStep(t, timeout) => RecvLoopInv(b, t, timeout);
      case RecvResumeStep(t, timeout) =>
        LeaveWakes(b.receivers, t);
        if b.receivers.error(t) == EOK {
          RecvLoopInv(b.(receivers := Leave(b.receivers, t)), t, timeout);
        }
      case TimeoutStep(t) =>
        if t in b.receivers.waiters {
          ExpireWakes(b.receivers, t);
        } else {
          ExpireWakes(b.senders, t);
        }
      case ResetStep =>
        ResumeAllEffect(b.receivers);
        ResumeAllEffect(b.senders);
    }
  }

  lemma {:induction false} RunInv(w: World, acts: seq<Action>)
    requires Inv(w.b)
    ensures Inv(Run(w, acts).b)
    decreases |acts|
  {
    if acts != [] {
      ApplyInv(w, acts[0]);
      RunInv(Apply(w, acts[0]), acts[1..]);
    }
  }

  function Init(size: nat, receivers: Ipc, senders: Ipc): World {
    World(Box([], size, receivers, senders), [], [])
  }

  /** In every reachable state the box holds at most size mails and no sleeping thread is forgotten. */
  lemma NoLostWakeUp(size: nat, receivers: Ipc, senders: Ipc, acts: seq<Action>)
    requires receivers.waiters == [] && senders.waiters == []
    ensures var b := Run(Init(size, receivers, senders), acts).b;
            |b.items| <= b.size && NobodyForgotten(b)
  {
    RunInv(Init(size, receivers, senders), acts);
  }

  ghost predicate Plain(acts: seq<Action>) {
    forall a <- acts :: !a.UrgentStep? && !a.ResetStep?
  }

  /** Without urgent mails and resets, the mails received are the mails sent, in the order they
      were sent, and the rest is in the box: nothing is lost, doubled or overtaken. */
  lemma {:induction false} FirstInFirstOut(w: World, acts: seq<Action>)
    requires Plain(acts)
    requires w.received + w.b.items == w.sent
    ensures var r := Run(w, acts); r.received + r.b.items == r.sent
    decreases |acts|
  {
    if acts != [] {
      StepFifo(w, acts[0]);
      FirstInFirstOut(Apply(w, acts[0]), acts[1..]);
    }
  }

  lemma StepFifo(w: World, a: Action)
    requires !a.UrgentStep? && !a.ResetStep?
    requires w.received + w.b.items == w.sent
    ensures var r := Apply(w, a); r.received + r.b.items == r.sent
  {
    StepMovesInOrder(w, a);
    MoveKeepsOrder(w, Apply(w, a));
  }

  /** Nothing, or one mail in at the back, or one out at the front. */
  ghost predicate OneMoveInOrder(w: World, r: World) {
    || (r.b.items == w.b.items && r.sent == w.sent && r.received == w.received)
    || (r.received == w.received && |r.sent| > 0 && r.sent == w.sent + [r.sent[|r.sent| - 1]]
          && r.b.items == w.b.items + [r.sent[|r.sent| - 1]])
    || (r.sent == w.sent && w.b.items != [] && r.b.items == w.b.items[1..]
          && r.received == w.received + [w.b.items[0]])
  }

  lemma StepMovesInOrder(w: World, a: Action)
    requires !a.UrgentStep? && !a.ResetStep?
    ensures OneMoveInOrder(w, Apply(w, a))
  {
  }

  lemma MoveKeepsOrder(w: World, r: World)
    requires OneMoveInOrder(w, r) && w.received + w.b.items == w.sent
    ensures r.received + r.b.items == r.sent
  {
    if r.sent == w.sent && r.b.items != w.b.items {
      assert w.b.items == [w.b.items[0]] + w.b.items[1..];
    }
  }

  /** With urgent mails too, every mail sent is received once or still in the box. */
  lemma {:induction false} NothingLost(w: World, acts: seq<Action>)
    requires forall a <- acts :: !a.ResetStep?
    requires multiset(w.received) + multiset(w.b.items) == multiset(w.sent)
    ensures var r := Run(w, acts); multiset(r.received) + multiset(r.b.items) == multiset(r.sent)
    decreases |acts|
  {
    if acts != [] {
      StepNothingLost(w, acts[0]);
      NothingLost(Apply(w, acts[0]), acts[1..]);
    }
  }

  ghost predicate OneIn(w: World, r: World, mail: int) {
    r.sent == w.sent + [mail] && (r.b.items == w.b.items + [mail] || r.b.items == [mail] + w.b.items)
  }

  /** What one section does to the queue: nothing, or one mail in at either end, or one out at the front. */
  ghost predicate OneMove(w: World, r: World) {
    || (r.b.items == w.b.items && r.sent == w.sent && r.received == w.received)
    || (r.received == w.received && (exists mail :: OneIn(w, r, mail)))
    || (r.sent == w.sent && w.b.items != [] && r.b.items == w.b.items[1..]
          && r.received == w.received + [w.b.items[0]])
  }

  lemma StepMoves(w: World, a: Action)
    requires !a.ResetStep?
    ensures OneMove(w, Apply(w, a))
  {
    var r := Apply(w, a);
    if r.sent != w.sent {
      assert OneIn(w, r, a.mail);
    }
  }

  lemma MoveLosesNothing(w: World, r: World)
    requires OneMove(w, r)
    requires multiset(w.received) + multiset(w.b.items) == multiset(w.sent)
    ensures multiset(r.received) + multiset(r.b.items) == multiset(r.sent)
  {
    if r.sent != w.sent {
      var mail :| OneIn(w, r, mail);
    } else if r.b.items != w.b.items {
      assert w.b.items == [w.b.items[0]] + w.b.items[1..];
    }
  }

  lemma StepNothingLost(w: World, a: Action)
    requires !a.ResetStep?
    requires multiset(w.received) + multiset(w.b.items) == multiset(w.sent)
    ensures var r := Apply(w, a); multiset(r.received) + multiset(r.b.items) == multiset(r.sent)
  {
    StepMoves(w, a);
    MoveLosesNothing(w, Apply(w, a));
  }

  // ---- What each call does, by what its caller can see.

  /** The first waiter is woken, if there is one. */
  ghost predicate Woke(c: Ipc, r: Ipc) {
    if c.waiters == [] then r == c else HeadWoken(c, r)
  }

  /** A send of thread t: it succeeds exactly while the box has room, appending its mail and waking a receiver. On a
      full box it is refused when it does not wait, and joins the senders when it does. */
  ghost predicate Sends(b: Box, r: Box, o: Outcome, t: Tid, mail: int, timeout: int) {
    && r.size == b.size
    && o == (if |b.items| < b.size then Returned(EOK) else if timeout == 0 then Returned(EFULL) else Running)
    && (o == Returned(EOK) ==>
          r.items == b.items + [mail] && Woke(b.receivers, r.receivers) && r.senders == b.senders)
    && (o == Returned(EFULL) ==>
          && r.items == b.items && r.receivers == b.receivers
          && (r.senders == b.senders || Told(b.senders, r.senders, t, EOK)))
    && (o == Running ==> r.items == b.items && r.receivers == b.receivers && Joined(b.senders, r.senders, t))
  }

  /** A receive of thread t: it succeeds exactly while there is a mail, taking the front and waking a sender. */
  ghost predicate Receives(b: Box, r: Box, o: Outcome, got: Option<int>, t: Tid, timeout: int) {
    && r.size == b.size
    && o == (if b.items != [] then Returned(EOK) else if timeout == 0 then Returned(ETIMEOUT) else Running)
    && (o == Returned(EOK) ==>
          && got.Some? && b.items == [got.value] + r.items
          && Woke(b.senders, r.senders) && r.receivers == b.receivers)
    && (o != Returned(EOK) ==> got == None && r.items == b.items && r.senders == b.senders)
    && (o == Returned(ETIMEOUT) ==> r.receivers == b.receivers || Told(b.receivers, r.receivers, t, ETIMEOUT))
    && (o == Running ==> Joined(b.receivers, r.receivers, t))
  }

  lemma SendLoopOutcome(b: Box, t: Tid, mail: int, timeout: int)
    requires Valid(b.senders) && Idle(b.senders, t) && |b.items| <= b.size
    ensures var (r, o) := SendLoop(b, t, mail, timeout); Sends(b, r, o, t, mail, timeout)
  {
    SuspendJoins(b.senders, t);
  }

  lemma RecvLoopOutcome(b: Box, t: Tid, timeout: int)
    requires Valid(b.receivers) && Idle(b.receivers, t)
    ensures var (r, o, got) := RecvLoop(b, t, timeout); Receives(b, r, o, got, t, timeout)
  {
    SuspendJoins(b.receivers, t);
  }

  lemma SendOutcome(b: Box, t: Tid, mail: int, timeout: int)
    requires Inv(b) && Idle(b.senders, t)
    ensures var (r, o) := SendEnter(b, t, mail, timeout);
            Sends(b, r, o, t, mail, timeout) && (o == Returned(EFULL) ==> r == b)
  {
    SendLoopOutcome(b, t, mail, timeout);
  }

  /** A sender that was woken with an error returns it; any other tries again, from a box it is out of. */
  lemma SendResumeOutcome(b: Box, t: Tid, mail: int, timeout: int)
    requires Inv(b) && t in b.senders.ready
    ensures var (r, o) := SendResume(b, t, mail, timeout);
            var out := b.(senders := Leave(b.senders, t));
            && RanOn(b.senders, out.senders, t)
            && (b.senders.error(t) != EOK ==> o == Returned(b.senders.error(t)) && r == out)
            && (b.senders.error(t) == EOK ==>
                  Sends(out, r, o, t, mail, timeout)
                  && (o == Returned(EFULL) ==> Told(out.senders, r.senders, t, EOK)))
  {
    LeaveWakes(b.senders, t);
    SendLoopOutcome(b.(senders := Leave(b.senders, t)), t, mail, timeout);
  }

  /** An urgent mail goes to the front, exactly while there is room; else nothing changes. */
  lemma UrgentOutcome(b: Box, mail: int)
    requires Inv(b)
    ensures var (r, o) := Urgent(b, mail);
            && o == Returned(if |b.items| < b.size then EOK else EFULL)
            && (o == Returned(EOK) ==>
                  && r.items == [mail] + b.items && Woke(b.receivers, r.receivers)
                  && r.senders == b.senders && r.size == b.size)
            && (o == Returned(EFULL) ==> r == b)
  {
  }

  lemma RecvOutcome(b: Box, t: Tid, timeout: int)
    requires Inv(b) && Idle(b.receivers, t)
    ensures var (r, o, got) := RecvEnter(b, t, timeout);
            Receives(b, r, o, got, t, timeout) && (o == Returned(ETIMEOUT) ==> r == b)
  {
    RecvLoopOutcome(b, t, timeout);
  }

  lemma RecvResumeOutcome(b: Box, t: Tid, timeout: int)
    requires Inv(b) && t in b.receivers.ready
    ensures var (r, o, got) := RecvResume(b, t, timeout);
            var out := b.(receivers := Leave(b.receivers, t));
            && RanOn(b.receivers, out.receivers, t)
            && (b.receivers.error(t) != EOK ==> o == Returned(b.receivers.error(t)) && got == None && r == out)
            && (b.receivers.error(t) == EOK ==>
                  Receives(out, r, o, got, t, timeout)
                  && (o == Returned(ETIMEOUT) ==> Told(out.receivers, r.receivers, t, ETIMEOUT)))
  {
    LeaveWakes(b.receivers, t);
    RecvLoopOutcome(b.(receivers := Leave(b.receivers, t)), t, timeout);
  }

  lemma ResetOutcome(b: Box)
    requires Inv(b)
    ensures var r := Reset(b);
            r.items == [] && r.size == b.size && AllWoken(b.receivers, r.receivers) && AllWoken(b.senders, r.senders)
  {
    ResumeAllWakes(b.receivers);
    ResumeAllWakes(b.senders);
  }

  lemma ExpiredOutcome(b: Box, t: Tid)
    requires Inv(b) && (t in b.receivers.waiters || t in b.senders.waiters)
    ensures var r := Expired(b, t);
            && r.items == b.items && r.size == b.size
            && (if t in b.receivers.waiters then Left(b.receivers, r.receivers, t, ETIMEOUT) && r.senders == b.senders
                else Left(b.senders, r.senders, t, ETIMEOUT) && r.receivers == b.receivers)
  {
    if t in b.receivers.waiters {
      ExpireTimesOut(b.receivers, t);
    } else {
      ExpireTimesOut(b.senders, t);
    }
  }

  // ---- Refinement of a bounded double-ended queue.

  datatype DequeOp = PushBack(mail: int) | PushFront(mail: int) | PopFront | Clear | Stay

  function DequeStep(d: seq<int>, op: DequeOp): seq<int> {
    match op
    case PushBack(m) => d + [m]
    case PushFront(m) => [m] + d
    case PopFront => if d == [] then d else d[1..]
    case Clear => []
    case Stay => d
  }

  /** What the step is on the double-ended queue, by the box in front of it alone: a send that finds room pushes,
      a receive that finds a mail pops, whoever comes back with an error does neither. */
  predicate May(b: Box, a: Action) {
    match a
    case SendStep(t, _, _) => Idle(b.receivers, t) && Idle(b.senders, t) && |b.items| < b.size
    case SendResumeStep(t, _, _) => t in b.senders.ready && b.senders.error(t) == EOK && |b.items| < b.size
    case UrgentStep(_) => |b.items| < b.size
    case RecvStep(t, _) => Idle(b.receivers, t) && Idle(b.senders, t) && b.items != []
    case RecvResumeStep(t, _) => t in b.receivers.ready && b.receivers.error(t) == EOK && b.items != []
    case TimeoutStep(_) => false
    case ResetStep => true
  }

  function Label(b: Box, a: Action): DequeOp {
    if !May(b, a) then Stay else
    match a
    case SendStep(_, mail, _) => PushBack(mail)
    case SendResumeStep(_, mail, _) => PushBack(mail)
    case UrgentStep(mail) => PushFront(mail)
    case RecvStep(_, _) => PopFront
    case RecvResumeStep(_, _) => PopFront
    case TimeoutStep(_) => Stay
    case ResetStep => Clear
  }

  /** Every section is that operation of the double-ended queue; what is pushed is what was sent, and what is popped is
      what was received. */
  lemma StepRefines(w: World, a: Action)
    requires Inv(w.b)
    ensures var r, op := Apply(w, a), Label(w.b, a);
            && r.b.items == DequeStep(w.b.items, op)
            && r.sent == (if op.PushBack? || op.PushFront? then w.sent + [op.mail] else w.sent)
            && r.received == (if op.PopFront? then w.received + [w.b.items[0]] else w.received)
  {
    match a
    case SendStep(t, mail, timeout) =>
      if Enabled(w.b, a) { SendOutcome(w.b, t, mail, timeout); }
    case SendResumeStep(t, mail, timeout) =>
      if Enabled(w.b, a) { SendResumeOutcome(w.b, t, mail, timeout); }
    case UrgentStep(mail) => UrgentOutcome(w.b, mail);
    case RecvStep(t, timeout) =>
      if Enabled(w.b, a) { RecvOutcome(w.b, t, timeout); }
    case RecvResumeStep(t, timeout) =>
      if Enabled(w.b, a) { RecvResumeOutcome(w.b, t, timeout); }
    case TimeoutStep(_) =>
    case ResetStep =>
  }

  function Labels(w: World, acts: seq<Action>): seq<DequeOp>
    decreases |acts|
  {
    if acts == [] then [] else [Label(w.b, acts[0])] + Labels(Apply(w, acts[0]), acts[1..])
  }

  function DequeRun(d: seq<int>, ops: seq<DequeOp>): seq<int>
    decreases |ops|
  {
    if ops == [] then d else DequeRun(DequeStep(d, ops[0]), ops[1..])
  }

  /** Over any run the box holds what the double-ended queue holds after the same operations. */
  lemma {:induction false} RunRefines(w: World, acts: seq<Action>)
    requires Inv(w.b)
    ensures Run(w, acts).b.items == DequeRun(w.b.items, Labels(w, acts))
    decreases |acts|
  {
    if acts != [] {
      ApplyInv(w, acts[0]);
      StepRefines(w, acts[0]);
      RunRefines(Apply(w, acts[0]), acts[1..]);
      var l := Labels(w, acts);
      assert l[0] == Label(w.b, acts[0]) && l[1..] == Labels(Apply(w, acts[0]), acts[1..]);
    }
  }

  /** A call whose time is up returns -RT_ETIMEOUT, whatever any thread does before it runs on. */
  lemma TimedOutCall(w: World, acts: seq<Action>, t: Tid, mail: int, timeout: int)
    requires Inv(w.b) && (t in w.b.receivers.waiters || t in w.b.senders.waiters)
    requires forall a <- acts :: !RunsOn(a, t)
    ensures var r := Run(Apply(w, TimeoutStep(t)), acts).b;
            if t in w.b.receivers.waiters
            then t in r.receivers.ready && RecvResume(r, t, timeout).1 == Returned(ETIMEOUT)
            else t in r.senders.ready && SendResume(r, t, mail, timeout).1 == Returned(ETIMEOUT)
  {
    ApplyInv(w, TimeoutStep(t));
    ExpiredOutcome(w.b, t);
    StaysReady(Apply(w, TimeoutStep(t)), acts, t);
  }

  predicate RunsOn(a: Action, t: Tid) {
    (a.SendResumeStep? || a.RecvResumeStep?) && a.t == t
  }

  /** Nobody but the thread itself touches what a resumed thread is to return. */
  lemma {:induction false} StaysReady(w: World, acts: seq<Action>, t: Tid)
    requires Inv(w.b) && forall a <- acts :: !RunsOn(a, t)
    ensures var r := Run(w, acts).b;
            && (t in w.b.receivers.ready ==> t in r.receivers.ready && r.receivers.error(t) == w.b.receivers.error(t))
            && (t in w.b.senders.ready ==> t in r.senders.ready && r.senders.error(t) == w.b.senders.error(t))
    decreases |acts|
  {
    if acts != [] {
      ApplyInv(w, acts[0]);
      StepStaysReady(w, acts[0], t);
      StaysReady(Apply(w, acts[0]), acts[1..], t);
    }
  }

  lemma StepStaysReady(w: World, a: Action, t: Tid)
    requires Inv(w.b) && !RunsOn(a, t)
    ensures var r := Apply(w, a).b;
            && (t in w.b.receivers.ready ==> t in r.receivers.ready && r.receivers.error(t) == w.b.receivers.error(t))
            && (t in w.b.senders.ready ==> t in r.senders.ready && r.senders.error(t) == w.b.senders.error(t))
  {
    if t in w.b.receivers.ready {
      ReceiversStayReady(w, a, t);
    }
    if t in w.b.senders.ready {
      SendersStayReady(w, a, t);
    }
  }

  lemma ReceiversStayReady(w: World, a: Action, t: Tid)
    requires Inv(w.b) && !RunsOn(a, t) && t in w.b.receivers.ready
    ensures var r := Apply(w, a).b.receivers; t in r.ready && r.error(t) == w.b.receivers.error(t)
  {
    if a.ResetStep? {
      ResumeAllEffect(w.b.receivers);
    }
  }

  lemma SendersStayReady(w: World, a: Action, t: Tid)
    requires Inv(w.b) && !RunsOn(a, t) && t in w.b.senders.ready
    ensures var r := Apply(w, a).b.senders; t in r.ready && r.error(t) == w.b.senders.error(t)
  {
    if a.ResetStep? {
      ResumeAllEffect(w.b.senders);
    }
  }
}
