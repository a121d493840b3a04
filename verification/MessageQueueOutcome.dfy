/** What each call on the message queue does, by what its caller can see: when it gets a node or a message, when it is
    refused, when it waits; that the steps of a call lead to its end; and that what is sent is received. */
module MessageQueueOutcome {
  import opened Kernel
  import opened IpcObject
  import opened MessageQueue
  import opened MessageQueueInv
  import opened MessageQueueRuns

  // ---- Sending.

  /** Thread t got the first free node, and nothing else changed. */
  ghost predicate GotNode(s: Mq, r: Mq, t: Tid, buf: seq<Byte>, urgent: bool) {
    && t in r.calls && r.calls[t].Filling?
    && var n := r.calls[t].node;
    && s.free == [n] + r.free && r.place == With(s.place, n, Held(t))
    && r == s.(free := r.free, place := r.place, calls := s.calls[t := Filling(n, buf, 0, false, urgent)])
  }

  /** Thread t sleeps on the senders' list with what it is to send. */
  ghost predicate SenderSleeps(s: Mq, r: Mq, t: Tid, buf: seq<Byte>) {
    Joined(s.senders, r.senders, t) && r == s.(senders := r.senders, calls := s.calls[t := Sending(buf)])
  }

  /** The call of thread t is over, and nothing else changed. */
  ghost predicate CallOver(s: Mq, r: Mq, t: Tid) {
    t !in r.calls && r == s.(calls := s.calls - {t})
  }

  lemma SendLoopOutcome(s: Mq, t: Tid, buf: seq<Byte>, timeout: int)
    requires Valid(s.senders) && Idle(s.senders, t)
    ensures var (r, o) := SendLoop(s, t, buf, timeout);
            && o == (if s.free == [] && timeout == 0 then Returned(EFULL) else Running)
            && (s.free != [] ==> GotNode(s, r, t, buf, false))
            && (s.free == [] && timeout == 0 ==> CallOver(s, r, t))
            && (s.free == [] && timeout != 0 ==> SenderSleeps(s, r, t, buf))
  {
    SuspendJoins(s.senders, t);
  }

  /** A send is refused exactly when the message is too long, or when there is no free node and it does not wait; it
      gets a node exactly when there is one, and otherwise sleeps. */
  lemma SendOutcome(s: Mq, t: Tid, buf: seq<Byte>, timeout: int)
    requires Inv(s) && t !in s.calls
    ensures var (r, o) := SendEnter(s, t, buf, timeout);
            && o == (if |buf| > s.msgSize then Returned(ERROR)
                     else if s.free == [] && timeout == 0 then Returned(EFULL) else Running)
            && (o != Running ==> r == s)
            && (o == Running && s.free != [] ==> GotNode(s, r, t, buf, false))
            && (o == Running && s.free == [] ==> SenderSleeps(s, r, t, buf))
  {
    SendLoopOutcome(s, t, buf, timeout);
    assert s.calls - {t} == s.calls;
  }

  lemma UrgentOutcome(s: Mq, t: Tid, buf: seq<Byte>)
    requires Inv(s) && t !in s.calls
    ensures var (r, o) := UrgentEnter(s, t, buf);
            && o == (if |buf| > s.msgSize then Returned(ERROR)
                     else if s.free == [] then Returned(EFULL) else Running)
            && (o != Running ==> r == s)
            && (o == Running ==> GotNode(s, r, t, buf, true))
  {
  }

  /** A sender that was woken with an error returns it; any other tries again, off the list. */
  lemma SendResumeOutcome(s: Mq, t: Tid, timeout: int)
    requires Inv(s) && t in s.calls && s.calls[t].Sending? && t in s.senders.ready
    ensures var (r, o) := SendResume(s, t, s.calls[t].buf, timeout);
            var out, e := s.(senders := Leave(s.senders, t)), s.senders.error(t);
            && RanOn(s.senders, out.senders, t)
            && o == (if e != EOK then Returned(e)
                     else if s.free == [] && timeout == 0 then Returned(EFULL) else Running)
            && (o != Running ==> CallOver(out, r, t))
            && (o == Running && s.free != [] ==> GotNode(out, r, t, s.calls[t].buf, false))
            && (o == Running && s.free == [] ==> SenderSleeps(out, r, t, s.calls[t].buf))
  {
    LeaveWakes(s.senders, t);
    SendLoopOutcome(s.(senders := Leave(s.senders, t)), t, s.calls[t].buf, timeout);
  }

  /** The first waiter is woken, if there is one. */
  ghost predicate Woke(c: Ipc, r: Ipc) {
    if c.waiters == [] then r == c else HeadWoken(c, r)
  }

  /** The end of a send: the message is queued, at the front exactly if it is urgent, and counted, a receiver is woken,
      and the call returns RT_EOK. */
  lemma LinkOutcome(s: Mq, t: Tid)
    requires Inv(s) && Enabled(s, LinkStep(t))
    ensures var c, (r, o) := s.calls[t], Link(s, t);
            && o == Returned(EOK) && t !in r.calls && r.calls == s.calls - {t}
            && Messages(r) == (if c.urgent then [c.buf] + Messages(s) else Messages(s) + [c.buf])
            && r.queue == (if c.urgent then [c.node] + s.queue else s.queue + [c.node]) && r.entry == |r.queue|
            && Woke(s.receivers, r.receivers) && r.senders == s.senders && r.free == s.free && r.data == s.data
  {
    LinkPool(s, t);
    LinkRefines(s, t);
    LinkChanges(s, t);
  }

  lemma LinkChanges(s: Mq, t: Tid)
    requires t in s.calls && s.calls[t].Filling? && Link(s, t).1 == Returned(EOK) && s.entry == |s.queue|
    ensures var c, r := s.calls[t], Link(s, t).0;
            && r.calls == s.calls - {t}
            && r.queue == (if c.urgent then [c.node] + s.queue else s.queue + [c.node]) && r.entry == |r.queue|
            && Woke(s.receivers, r.receivers) && r.senders == s.senders && r.free == s.free && r.data == s.data
  {
  }

  // ---- Receiving.

  /** Thread t got the first message, and nothing else changed. */
  ghost predicate GotMessage(s: Mq, r: Mq, t: Tid, size: nat) {
    && t in r.calls && r.calls[t].Draining?
    && var n := r.calls[t].node;
    && s.queue == [n] + r.queue && r.entry == |r.queue| && r.place == With(s.place, n, Held(t))
    && r == s.(queue := r.queue, entry := r.entry, place := r.place,
               calls := s.calls[t := Draining(n, size, [], s.load(n))])
  }

  ghost predicate ReceiverSleeps(s: Mq, r: Mq, t: Tid, size: nat) {
    Joined(s.receivers, r.receivers, t) && r == s.(receivers := r.receivers, calls := s.calls[t := Receiving(size)])
  }

  lemma RecvLoopOutcome(s: Mq, t: Tid, size: nat, timeout: int)
    requires Valid(s.receivers) && Idle(s.receivers, t) && s.entry == |s.queue|
    ensures var (r, o) := RecvLoop(s, t, size, timeout);
            && o == (if s.queue == [] && timeout == 0 then Returned(ETIMEOUT) else Running)
            && (s.queue != [] ==> GotMessage(s, r, t, size))
            && (s.queue == [] && timeout == 0 ==>
                  Told(s.receivers, r.receivers, t, ETIMEOUT) && CallOver(s.(receivers := r.receivers), r, t))
            && (s.queue == [] && timeout != 0 ==> ReceiverSleeps(s, r, t, size))
  {
    SuspendJoins(s.receivers, t);
  }

  /** A receive takes a message exactly when there is one, whatever its timeout. Otherwise it is refused, changing
      nothing, when it does not wait, and sleeps when it does. */
  lemma RecvOutcome(s: Mq, t: Tid, size: nat, timeout: int)
    requires Inv(s) && t !in s.calls
    ensures Takes(s, RecvStep(t, size, timeout)) <==> s.queue != []
    ensures var (r, o) := RecvEnter(s, t, size, timeout);
            && o == (if s.queue == [] && timeout == 0 then Returned(ETIMEOUT) else Running)
            && (s.queue != [] ==> GotMessage(s, r, t, size))
            && (s.queue == [] && timeout == 0 ==> r == s)
            && (s.queue == [] && timeout != 0 ==> ReceiverSleeps(s, r, t, size))
  {
    RecvLoopOutcome(s, t, size, timeout);
  }

  /** A receiver that was woken with an error returns it; any other takes a message exactly when there is one. */
  lemma RecvResumeOutcome(s: Mq, t: Tid, timeout: int)
    requires Inv(s) && t in s.calls && s.calls[t].Receiving? && t in s.receivers.ready
    ensures Takes(s, RecvResumeStep(t, timeout)) <==> s.receivers.error(t) == EOK && s.queue != []
    ensures var (r, o) := RecvResume(s, t, s.calls[t].size, timeout);
            var out, e := s.(receivers := Leave(s.receivers, t)), s.receivers.error(t);
            && RanOn(s.receivers, out.receivers, t)
            && o == (if e != EOK then Returned(e)
                     else if s.queue == [] && timeout == 0 then Returned(ETIMEOUT) else Running)
            && (e != EOK ==> CallOver(out, r, t))
            && (e == EOK && s.queue != [] ==> GotMessage(out, r, t, s.calls[t].size))
            && (e == EOK && s.queue == [] && timeout == 0 ==>
                  Told(out.receivers, r.receivers, t, ETIMEOUT) && CallOver(out.(receivers := r.receivers), r, t))
            && (e == EOK && s.queue == [] && timeout != 0 ==> ReceiverSleeps(out, r, t, s.calls[t].size))
  {
    LeaveWakes(s.receivers, t);
    RecvLoopOutcome(s.(receivers := Leave(s.receivers, t)), t, s.calls[t].size, timeout);
  }

  /** The end of a receive: the node is free again, a sender is woken, and the call returns RT_EOK. */
  lemma PutBackOutcome(s: Mq, t: Tid)
    requires Inv(s) && Enabled(s, PutBackStep(t))
    ensures var (r, o) := PutBack(s, t);
            && o == Returned(EOK) && t !in r.calls && r.calls == s.calls - {t}
            && r.free == [s.calls[t].node] + s.free && r.queue == s.queue && Messages(r) == Messages(s)
            && Woke(s.senders, r.senders) && r.receivers == s.receivers && r.data == s.data
  {
    assert Messages(PutBack(s, t).0) == Messages(s);
  }

  // ---- Reset and time-outs.

  /** A reset frees every queued node and no other, and wakes everybody. */
  lemma ResetOutcome(s: Mq)
    requires Inv(s)
    ensures var r := Reset(s);
            && r.queue == [] && r.entry == 0 && r.calls == s.calls && r.data == s.data
            && AllWoken(s.receivers, r.receivers) && AllWoken(s.senders, r.senders)
            && (forall n :: n in r.free <==> n in s.free || n in s.queue)
  {
    ResetEffect(s);
    ResumeAllWakes(s.receivers);
    ResumeAllWakes(s.senders);
    DropAllFrees(s.(receivers := ResumeAll(s.receivers), senders := ResumeAll(s.senders)));
  }

  lemma {:induction false} DropAllFrees(s: Mq)
    ensures forall n :: n in DropAll(s).free <==> n in s.free || n in s.queue
    decreases |s.queue|
  {
    if s.queue != [] {
      DropAllFrees(Drop(s));
      assert s.queue == [s.queue[0]] + s.queue[1..];
    }
  }

  lemma ExpiredOutcome(s: Mq, t: Tid)
    requires Inv(s) && (t in s.receivers.waiters || t in s.senders.waiters)
    ensures var r := Expired(s, t);
            && r == s.(receivers := r.receivers, senders := r.senders)
            && (if t in s.receivers.waiters
                then Left(s.receivers, r.receivers, t, ETIMEOUT) && r.senders == s.senders
                else Left(s.senders, r.senders, t, ETIMEOUT) && r.receivers == s.receivers)
  {
    if t in s.receivers.waiters {
      ExpireTimesOut(s.receivers, t);
    } else {
      ExpireTimesOut(s.senders, t);
    }
  }

  /** A call whose time is up returns -RT_ETIMEOUT, whatever any thread does before it runs on. */
  lemma TimedOutCall(s: Mq, acts: seq<Action>, t: Tid, timeout: int)
    requires Inv(s) && (t in s.receivers.waiters || t in s.senders.waiters)
    requires forall a <- acts :: !RunsOn(a, t)
    ensures Inv(Expired(s, t))
    ensures var r := MessageQueueRuns.Run(Expired(s, t), acts);
            && Inv(r) && t in r.calls
            && (if t in s.receivers.waiters
                then Enabled(r, RecvResumeStep(t, timeout))
                     && Apply(r, RecvResumeStep(t, timeout)).1 == Returned(ETIMEOUT)
                else Enabled(r, SendResumeStep(t, timeout))
                     && Apply(r, SendResumeStep(t, timeout)).1 == Returned(ETIMEOUT))
  {
    ExpiredInv(s, t);
    ExpiredOutcome(s, t);
    RunInv(Expired(s, t), acts);
    StaysReady(Expired(s, t), acts, t);
    ReadyCalls(MessageQueueRuns.Run(Expired(s, t), acts), t);
  }

  lemma ReadyCalls(s: Mq, t: Tid)
    requires Inv(s)
    ensures t in s.receivers.ready ==> t in s.calls && s.calls[t].Receiving?
    ensures t in s.senders.ready ==> t in s.calls && s.calls[t].Sending?
  {
    assert t in s.receivers.ready ==> !Idle(s.receivers, t);
    assert t in s.senders.ready ==> !Idle(s.senders, t);
  }

  predicate RunsOn(a: Action, t: Tid) {
    (a.SendResumeStep? || a.RecvResumeStep?) && a.t == t
  }

  /** Thread x is as ready in r as in c, with the same error. */
  predicate KeepsReady(c: Ipc, r: Ipc, t: Tid) {
    t in c.ready ==> t in r.ready && r.error(t) == c.error(t)
  }

  /** Nobody but the thread itself touches what a resumed thread is to return. */
  lemma {:induction false} StaysReady(s: Mq, acts: seq<Action>, t: Tid)
    requires Inv(s) && forall a <- acts :: !RunsOn(a, t)
    ensures var r := MessageQueueRuns.Run(s, acts);
            KeepsReady(s.receivers, r.receivers, t) && KeepsReady(s.senders, r.senders, t)
    decreases |acts|
  {
    if acts != [] {
      ApplyInv(s, acts[0]);
      StepStaysReady(s, acts[0], t);
      StaysReady(Apply(s, acts[0]).0, acts[1..], t);
    }
  }

  lemma StepStaysReady(s: Mq, a: Action, t: Tid)
    requires Inv(s) && !RunsOn(a, t)
    ensures KeepsReady(s.receivers, Apply(s, a).0.receivers, t) && KeepsReady(s.senders, Apply(s, a).0.senders, t)
  {
    ReadyCalls(s, t);
    if a.ResetStep? {
      ResetEffect(s);
      ResumeAllEffect(s.receivers);
      ResumeAllEffect(s.senders);
    } else if Enabled(s, a) && (a.SendStep? || a.SendResumeStep?) {
      SendStaysReady(s, a, t);
    } else if Enabled(s, a) && (a.RecvStep? || a.RecvResumeStep?) {
      RecvStaysReady(s, a, t);
    } else {
      OtherStaysReady(s, a, t);
    }
  }

  lemma SendStaysReady(s: Mq, a: Action, t: Tid)
    requires Inv(s) && Enabled(s, a) && (a.SendStep? || a.SendResumeStep?) && !RunsOn(a, t)
    requires t in s.senders.ready ==> t in s.calls
    ensures KeepsReady(s.receivers, Apply(s, a).0.receivers, t) && KeepsReady(s.senders, Apply(s, a).0.senders, t)
  {
  }

  lemma RecvStaysReady(s: Mq, a: Action, t: Tid)
    requires Inv(s) && Enabled(s, a) && (a.RecvStep? || a.RecvResumeStep?) && !RunsOn(a, t)
    requires t in s.receivers.ready ==> t in s.calls
    ensures KeepsReady(s.receivers, Apply(s, a).0.receivers, t) && KeepsReady(s.senders, Apply(s, a).0.senders, t)
  {
  }

  lemma OtherStaysReady(s: Mq, a: Action, t: Tid)
    requires Inv(s) && !RunsOn(a, t) && !a.ResetStep?
    requires !Enabled(s, a) || !(a.SendStep? || a.SendResumeStep? || a.RecvStep? || a.RecvResumeStep?)
    ensures KeepsReady(s.receivers, Apply(s, a).0.receivers, t) && KeepsReady(s.senders, Apply(s, a).0.senders, t)
  {
  }
}
