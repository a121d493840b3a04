/** Every step of the message queue keeps its invariant. */
module MessageQueueInv {
  import opened Kernel
  import opened IpcObject
  import opened MessageQueue

  // ---- Pool and contents, node move by node move.

  lemma ReservePool(s: Mq, t: Tid, buf: seq<Byte>, urgent: bool)
    requires Pool(s) && s.free != [] && (t in s.calls ==> !InFlight(s.calls[t]))
    ensures Pool(Reserve(s, t, buf, urgent))
  {
    var r := Reserve(s, t, buf, urgent);
    assert s.free == [s.free[0]] + r.free && s.free[0] in s.free && s.free[0] !in r.free;
    forall n | 0 <= n < s.max ensures InPlace(r, n) {
      assert InPlace(s, n);
    }
  }

  lemma LinkPool(s: Mq, t: Tid)
    requires Pool(s) && t in s.calls && s.calls[t].Filling?
    ensures Pool(Link(s, t).0) && Link(s, t).1 == Returned(EOK)
  {
    QueueShorterThanPool(s, t);
    var r := Link(s, t).0;
    var node := s.calls[t].node;
    assert forall n :: n in r.queue <==> n in s.queue || n == node;
    forall n | 0 <= n < s.max ensures InPlace(r, n) {
      assert InPlace(s, n);
    }
  }

  lemma TakeHeadPool(s: Mq, t: Tid, size: nat)
    requires Pool(s) && s.queue != [] && (t in s.calls ==> !InFlight(s.calls[t]))
    ensures Pool(TakeHead(s, t, size))
  {
    var r := TakeHead(s, t, size);
    assert s.queue == [s.queue[0]] + r.queue && s.queue[0] in s.queue;
    assert forall n <- r.queue :: n in s.queue && n != s.queue[0];
    forall n | 0 <= n < s.max ensures InPlace(r, n) {
      assert InPlace(s, n);
    }
  }

  lemma PutBackPool(s: Mq, t: Tid)
    requires Pool(s) && t in s.calls && s.calls[t].Draining?
    ensures Pool(PutBack(s, t).0)
  {
    var r := PutBack(s, t).0;
    assert forall n :: n in r.free <==> n in s.free || n == s.calls[t].node;
    forall n | 0 <= n < s.max ensures InPlace(r, n) {
      assert InPlace(s, n);
    }
  }

  lemma DropPool(s: Mq)
    requires Pool(s.(entry := |s.queue|)) && s.queue != []
    ensures Pool(Drop(s).(entry := |s.queue| - 1))
  {
    var r := Drop(s).(entry := |s.queue| - 1);
    assert s.queue == [s.queue[0]] + r.queue && s.queue[0] in s.queue;
    assert forall n <- r.queue :: n in s.queue && n != s.queue[0];
    assert forall n :: n in r.free <==> n in s.free || n == s.queue[0];
    forall n | 0 <= n < s.max ensures InPlace(r, n) {
      assert InPlace(s.(entry := |s.queue|), n);
    }
  }

  lemma ReserveContents(s: Mq, t: Tid, buf: seq<Byte>, urgent: bool)
    requires Pool(s) && Contents(s) && s.free != [] && |buf| <= s.msgSize
    ensures Contents(Reserve(s, t, buf, urgent))
  {
    var r := Reserve(s, t, buf, urgent);
    forall x <- r.calls ensures CallContents(r, r.calls[x]) {
      if x != t {
        assert CallContents(s, s.calls[x]);
      }
    }
  }

  /** A byte copied in reaches no queued node and no other call's node. */
  lemma CopyInInv(s: Mq, t: Tid)
    requires Inv(s) && t in s.calls && s.calls[t].Filling? && s.calls[t].done < |s.calls[t].buf|
    ensures s.calls[t].node < |s.data| && s.calls[t].done < |s.data[s.calls[t].node]|
    ensures Inv(CopyIn(s, t))
  {
    var c := s.calls[t];
    assert CallContents(s, c);
    var r := CopyIn(s, t);
    CopyInContents(s, t);
    forall n | 0 <= n < s.max ensures InPlace(r, n) {
      assert InPlace(s, n);
    }
  }

  lemma CopyInContents(s: Mq, t: Tid)
    requires Pool(s) && Contents(s) && t in s.calls && s.calls[t].Filling? && s.calls[t].done < |s.calls[t].buf|
    requires s.calls[t].node < |s.data| && s.calls[t].done < |s.data[s.calls[t].node]|
    ensures Contents(CopyIn(s, t))
  {
    var c, r := s.calls[t], CopyIn(s, t);
    assert CallContents(s, c);
    assert c.buf[..c.done + 1] == c.buf[..c.done] + [c.buf[c.done]];
    assert c.buf[..c.done + 1] <= r.data[c.node];
    forall x <- r.calls ensures CallContents(r, r.calls[x]) {
      if x != t {
        assert CallContents(s, s.calls[x]);
        assert InFlight(s.calls[x]) ==> s.calls[x].node != c.node;
      }
    }
    forall n | n in r.queue && n < r.max ensures r.load(n) <= r.data[n] {
      assert n != c.node;
    }
  }

  lemma ClearNextInv(s: Mq, t: Tid)
    requires Inv(s) && t in s.calls && s.calls[t].Filling?
    ensures Inv(ClearNext(s, t))
  {
    var r := ClearNext(s, t);
    assert CallContents(s, s.calls[t]);
    forall x <- r.calls ensures CallContents(r, r.calls[x]) {
      assert CallContents(s, s.calls[x]);
    }
    forall n | 0 <= n < s.max ensures InPlace(r, n) {
      assert InPlace(s, n);
    }
  }

  lemma LinkContents(s: Mq, t: Tid)
    requires Pool(s) && Contents(s) && t in s.calls && s.calls[t].Filling? && s.calls[t].done == |s.calls[t].buf|
    ensures Contents(Link(s, t).0)
  {
    var r := Link(s, t).0;
    forall n | n in r.queue && n < r.max ensures r.load(n) <= s.data[n] {
      LinkedLoad(s, t, n);
    }
    SameBytes(s, r);
  }

  /** A step that writes no byte and starts no call. */
  lemma SameBytes(s: Mq, r: Mq)
    requires Contents(s) && r.data == s.data && r.max == s.max && r.msgSize == s.msgSize
    requires forall x <- r.calls :: x in s.calls && r.calls[x] == s.calls[x]
    requires forall n | n in r.queue && n < r.max :: r.load(n) <= s.data[n]
    ensures Contents(r)
  {
    forall x <- r.calls ensures CallContents(r, r.calls[x]) {
      assert CallContents(s, s.calls[x]);
    }
  }

  /** What is queued after the node was linked holds its message. */
  lemma LinkedLoad(s: Mq, t: Tid, n: nat)
    requires Pool(s) && Contents(s) && t in s.calls && s.calls[t].Filling? && s.calls[t].done == |s.calls[t].buf|
    requires n in Link(s, t).0.queue && n < s.max
    ensures var r := Link(s, t).0; r.load(n) <= r.data[n]
  {
    var c := s.calls[t];
    assert CallContents(s, c);
    assert c.buf[..c.done] == c.buf;
    assert n == c.node || n in s.queue;
  }

  lemma TakeHeadContents(s: Mq, t: Tid, size: nat)
    requires Pool(s) && Contents(s) && s.queue != []
    ensures Contents(TakeHead(s, t, size))
  {
    var r := TakeHead(s, t, size);
    assert s.queue[0] in s.queue;
    forall x <- r.calls ensures CallContents(r, r.calls[x]) {
      if x != t {
        assert CallContents(s, s.calls[x]);
      }
    }
    forall n | n in r.queue && n < r.max ensures r.load(n) <= r.data[n] {
      assert n in s.queue;
    }
  }

  lemma CopyOutInv(s: Mq, t: Tid)
    requires Inv(s) && t in s.calls && s.calls[t].Draining? && |s.calls[t].out| < Min(s.calls[t].size, s.msgSize)
    ensures s.calls[t].node < |s.data| && |s.calls[t].out| < |s.data[s.calls[t].node]|
    ensures Inv(CopyOut(s, t))
  {
    var c := s.calls[t];
    assert CallContents(s, c);
    var r := CopyOut(s, t);
    forall x <- r.calls ensures CallContents(r, r.calls[x]) {
      assert CallContents(s, s.calls[x]);
    }
    forall n | 0 <= n < s.max ensures InPlace(r, n) {
      assert InPlace(s, n);
    }
  }

  lemma PutBackContents(s: Mq, t: Tid)
    requires Contents(s) && t in s.calls && s.calls[t].Draining?
    ensures Contents(PutBack(s, t).0)
  {
    var r := PutBack(s, t).0;
    forall x <- r.calls ensures CallContents(r, r.calls[x]) {
      assert CallContents(s, s.calls[x]);
    }
  }

  // ---- Blocking and waking.

  /** The queue while thread t runs inside a call and holds no node: woken receivers and senders still
      counts t itself as on its way, when it was resumed as one. */
  ghost predicate InCall(s: Mq, t: Tid, receiversDue: nat, sendersDue: nat) {
    && Pool(s) && Contents(s)
    && (t in s.calls ==> !InFlight(s.calls[t]))
    && Valid(s.receivers) && Valid(s.senders) && Idle(s.receivers, t) && Idle(s.senders, t)
    && (forall x :: x != t ==> (!Idle(s.receivers, x) <==> x in s.calls && s.calls[x].Receiving?))
    && (forall x :: x != t ==> (!Idle(s.senders, x) <==> x in s.calls && s.calls[x].Sending?))
    && (s.receivers.waiters != [] ==> |s.queue| <= |Woken(s.receivers)| + receiversDue)
    && (s.senders.waiters != [] ==> |s.free| <= |Woken(s.senders)| + sendersDue)
  }

  /** A change of the local state of a thread that holds no node moves no node and no byte. */
  lemma CallChange(s: Mq, r: Mq, t: Tid)
    requires Pool(s) && Contents(s) && (t in s.calls ==> !InFlight(s.calls[t]))
    requires r == s.(receivers := r.receivers, senders := r.senders, calls := r.calls)
    requires forall x :: x != t ==> (x in r.calls <==> x in s.calls) && (x in s.calls ==> r.calls[x] == s.calls[x])
    requires t in r.calls ==> !InFlight(r.calls[t]) && CallContents(r, r.calls[t])
    ensures Pool(r) && Contents(r)
  {
    forall n | 0 <= n < s.max ensures InPlace(r, n) {
      assert InPlace(s, n);
    }
    forall x <- r.calls ensures CallContents(r, r.calls[x]) {
      if x != t {
        assert CallContents(s, s.calls[x]);
      }
    }
  }

  /** A call that returns without a node. */
  lemma DoneInv(s: Mq, t: Tid)
    requires InCall(s, t, 0, 0)
    ensures Inv(Done(s, t))
  {
    CallChange(s, Done(s, t), t);
  }

  lemma SendBlocksInv(s: Mq, t: Tid, buf: seq<Byte>)
    requires InCall(s, t, 0, 1) && s.free == [] && |buf| <= s.msgSize
    ensures Inv(s.(senders := Suspend(s.senders, t), calls := s.calls[t := Sending(buf)]))
  {
    var r := s.(senders := Suspend(s.senders, t), calls := s.calls[t := Sending(buf)]);
    SuspendWakes(s.senders, t);
    CallChange(s, r, t);
  }

  lemma RecvBlocksInv(s: Mq, t: Tid, size: nat)
    requires InCall(s, t, 1, 0) && s.queue == []
    ensures Inv(s.(receivers := Suspend(s.receivers, t), calls := s.calls[t := Receiving(size)]))
  {
    var r := s.(receivers := Suspend(s.receivers, t), calls := s.calls[t := Receiving(size)]);
    SuspendWakes(s.receivers, t);
    CallChange(s, r, t);
  }

  lemma ReserveInv(s: Mq, t: Tid, buf: seq<Byte>, urgent: bool)
    requires InCall(s, t, 0, 1) && s.free != [] && |buf| <= s.msgSize
    ensures Inv(Reserve(s, t, buf, urgent))
  {
    ReservePool(s, t, buf, urgent);
    ReserveContents(s, t, buf, urgent);
  }

  lemma TakeHeadInv(s: Mq, t: Tid, size: nat)
    requires InCall(s, t, 1, 0) && s.queue != []
    ensures Inv(TakeHead(s, t, size))
  {
    TakeHeadPool(s, t, size);
    TakeHeadContents(s, t, size);
  }

  lemma SendLoopInv(s: Mq, t: Tid, buf: seq<Byte>, timeout: int)
    requires InCall(s, t, 0, 1) && |buf| <= s.msgSize
    ensures Inv(SendLoop(s, t, buf, timeout).0)
  {
    if s.free != [] {
      ReserveInv(s, t, buf, false);
    } else if timeout != 0 {
      SendBlocksInv(s, t, buf);
    } else {
      DoneInv(s, t);
    }
  }

  lemma RecvLoopInv(s: Mq, t: Tid, size: nat, timeout: int)
    requires InCall(s, t, 1, 0)
    ensures Inv(RecvLoop(s, t, size, timeout).0)
  {
    if s.queue != [] {
      TakeHeadInv(s, t, size);
    } else if timeout != 0 {
      RecvBlocksInv(s, t, size);
    } else {
      var r := s.(receivers := SetError(s.receivers, t, ETIMEOUT));
      assert Woken(r.receivers) == Woken(s.receivers);
      CallChange(s, r, t);
      DoneInv(r, t);
    }
  }

  lemma SendResumeInv(s: Mq, t: Tid, timeout: int)
    requires Inv(s) && t in s.calls && s.calls[t].Sending? && t in s.senders.ready
    ensures Inv(SendResume(s, t, s.calls[t].buf, timeout).0)
  {
    var r := s.(senders := Leave(s.senders, t));
    assert CallContents(s, s.calls[t]);
    LeaveWakes(s.senders, t);
    CallChange(s, r, t);
    if s.senders.error(t) == EOK {
      SendLoopInv(r, t, s.calls[t].buf, timeout);
    } else {
      DoneInv(r, t);
    }
  }

  lemma RecvResumeInv(s: Mq, t: Tid, timeout: int)
    requires Inv(s) && t in s.calls && s.calls[t].Receiving? && t in s.receivers.ready
    ensures Inv(RecvResume(s, t, s.calls[t].size, timeout).0)
  {
    var r := s.(receivers := Leave(s.receivers, t));
    LeaveWakes(s.receivers, t);
    CallChange(s, r, t);
    if s.receivers.error(t) == EOK {
      RecvLoopInv(r, t, s.calls[t].size, timeout);
    } else {
      DoneInv(r, t);
    }
  }

  /** Linking a node: never an overflow, and a sleeping receiver is sent after the message. */
  lemma LinkInv(s: Mq, t: Tid)
    requires Inv(s) && t in s.calls && s.calls[t].Filling? && s.calls[t].done == |s.calls[t].buf|
    ensures Inv(Link(s, t).0) && Link(s, t).1 == Returned(EOK)
  {
    LinkPool(s, t);
    LinkContents(s, t);
    if s.receivers.waiters != [] {
      ResumeWakes(s.receivers);
      ResumeKeepsIdle(s.receivers);
    }
  }

  lemma PutBackInv(s: Mq, t: Tid)
    requires Inv(s) && t in s.calls && s.calls[t].Draining?
    ensures Inv(PutBack(s, t).0)
  {
    PutBackPool(s, t);
    PutBackContents(s, t);
    if s.senders.waiters != [] {
      ResumeWakes(s.senders);
      ResumeKeepsIdle(s.senders);
    }
  }

  lemma ResumeKeepsIdle(c: Ipc)
    requires Valid(c) && c.waiters != []
    ensures forall x :: Idle(Resume(c), x) <==> Idle(c, x)
  {
    ResumeValid(c);
  }

  lemma ExpiredInv(s: Mq, t: Tid)
    requires Inv(s) && (t in s.receivers.waiters || t in s.senders.waiters)
    ensures Inv(Expired(s, t))
  {
    var r := Expired(s, t);
    if t in s.receivers.waiters {
      ExpireWakes(s.receivers, t);
      ResumeThreadValid(s.receivers, t);
    } else {
      ExpireWakes(s.senders, t);
      ResumeThreadValid(s.senders, t);
    }
    forall n | 0 <= n < s.max ensures InPlace(r, n) {
      assert InPlace(s, n);
    }
    forall x <- r.calls ensures CallContents(r, r.calls[x]) {
      assert CallContents(s, s.calls[x]);
    }
  }

  /** Emptying the queue node by node ends with every queued node on the free list, and touches no call. */
  lemma {:induction false} DropAllInv(s: Mq)
    requires Pool(s.(entry := |s.queue|)) && Contents(s)
    ensures var r := DropAll(s);
            && Pool(r.(entry := 0)) && Contents(r) && r.queue == []
            && r == s.(queue := [], free := r.free, place := r.place)
    decreases |s.queue|
  {
    if s.queue != [] {
      DropPool(s);
      var r := Drop(s);
      forall x <- r.calls ensures CallContents(r, r.calls[x]) {
        assert CallContents(s, s.calls[x]);
      }
      DropAllInv(r);
    }
  }

  lemma ResetInv(s: Mq)
    requires Inv(s)
    ensures Inv(Reset(s)) && Reset(s).calls == s.calls
  {
    var r := s.(receivers := ResumeAll(s.receivers), senders := ResumeAll(s.senders));
    OtherWaits(s, r);
    SameBytes(s, r);
    DropAllInv(r);
    WokenWaits(s, Reset(s));
  }

  /** The wait lists hold no node and no byte. */
  lemma OtherWaits(s: Mq, r: Mq)
    requires Pool(s) && r == s.(receivers := r.receivers, senders := r.senders)
    ensures Pool(r)
  {
    forall n | 0 <= n < s.max ensures InPlace(r, n) {
      assert InPlace(s, n);
    }
  }

  /** Waking everybody leaves nobody to forget. */
  lemma WokenWaits(s: Mq, r: Mq)
    requires Blocked(s) && r.calls == s.calls
    requires r.receivers == ResumeAll(s.receivers) && r.senders == ResumeAll(s.senders)
    ensures Blocked(r) && NobodyForgotten(r)
  {
    ResumeAllEffect(s.receivers);
    ResumeAllEffect(s.senders);
  }

  // ---- Runs: any number of threads, every interleaving of the sections and the copies between them.

  datatype Action =
    | SendStep(t: Tid, buf: seq<Byte>, timeout: int)
    | SendResumeStep(t: Tid, timeout: int)
    | UrgentStep(t: Tid, buf: seq<Byte>)
    | ClearNextStep(t: Tid)
    | CopyInStep(t: Tid)
    | LinkStep(t: Tid)
    | RecvStep(t: Tid, size: nat, timeout: int)
    | RecvResumeStep(t: Tid, timeout: int)
    | CopyOutStep(t: Tid)
    | PutBackStep(t: Tid)
    | TimeoutStep(t: Tid)
    | ResetStep

  /** Each thread follows the order of its call; the ordinary sender clears next before it copies. */
  predicate Enabled(s: Mq, a: Action) {
    match a
    case SendStep(t, _, _) => t !in s.calls
    case UrgentStep(t, _) => t !in s.calls
    case RecvStep(t, _, _) => t !in s.calls
    case SendResumeStep(t, _) => t in s.calls && s.calls[t].Sending? && t in s.senders.ready
    case RecvResumeStep(t, _) => t in s.calls && s.calls[t].Receiving? && t in s.receivers.ready
    case ClearNextStep(t) => t in s.calls && s.calls[t].Filling? && !s.calls[t].urgent && !s.calls[t].cleared
    case CopyInStep(t) =>
      t in s.calls && s.calls[t].Filling? && s.calls[t].cleared != s.calls[t].urgent
      && s.calls[t].done < |s.calls[t].buf|
    case LinkStep(t) =>
      t in s.calls && s.calls[t].Filling? && s.calls[t].cleared != s.calls[t].urgent
      && s.calls[t].done == |s.calls[t].buf|
    case CopyOutStep(t) =>
      t in s.calls && s.calls[t].Draining? && |s.calls[t].out| < Min(s.calls[t].size, s.msgSize)
    case PutBackStep(t) =>
      t in s.calls && s.calls[t].Draining? && |s.calls[t].out| == Min(s.calls[t].size, s.msgSize)
    case TimeoutStep(t) => t in s.receivers.waiters || t in s.senders.waiters
    case ResetStep => true
  }

  ghost function Apply(s: Mq, a: Action): (Mq, Outcome)
    requires Inv(s)
  {
    if !Enabled(s, a) then (s, Running) else
    match a
    case SendStep(t, buf, timeout) => SendEnter(s, t, buf, timeout)
    case SendResumeStep(t, timeout) => SendResume(s, t, s.calls[t].buf, timeout)
    case UrgentStep(t, buf) => UrgentEnter(s, t, buf)
    case ClearNextStep(t) => (ClearNext(s, t), Running)
    case CopyInStep(t) => CopyInInv(s, t); (CopyIn(s, t), Running)
    case LinkStep(t) => Link(s, t)
    case RecvStep(t, size, timeout) => RecvEnter(s, t, size, timeout)
    case RecvResumeStep(t, timeout) => RecvResume(s, t, s.calls[t].size, timeout)
    case CopyOutStep(t) => CopyOutInv(s, t); (CopyOut(s, t), Running)
    case PutBackStep(t) => PutBack(s, t)
    case TimeoutStep(t) => (Expired(s, t), Running)
    case ResetStep => (Reset(s), Running)
  }

  lemma ApplyInv(s: Mq, a: Action)
    requires Inv(s)
    ensures Inv(Apply(s, a).0)
  {
    if Enabled(s, a) {
      match a
      case SendStep(t, buf, timeout) => if |buf| <= s.msgSize { SendLoopInv(s, t, buf, timeout); }
      case SendResumeStep(t, timeout) => SendResumeInv(s, t, timeout);
      case UrgentStep(t, buf) => if |buf| <= s.msgSize && s.free != [] { ReserveInv(s, t, buf, true); }
      case ClearNextStep(t) => ClearNextInv(s, t);
      case CopyInStep(t) => CopyInInv(s, t);
      case LinkStep(t) => LinkInv(s, t);
      case RecvStep(t, size, timeout) => RecvLoopInv(s, t, size, timeout);
      case RecvResumeStep(t, timeout) => RecvResumeInv(s, t, timeout);
      case CopyOutStep(t) => CopyOutInv(s, t);
      case PutBackStep(t) => PutBackInv(s, t);
      case TimeoutStep(t) => ExpiredInv(s, t);
      case ResetStep => ResetInv(s);
    }
  }
}
