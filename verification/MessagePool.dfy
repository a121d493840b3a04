/** The message queue on its memory: a pool of nodes chained through their next fields. */
module MessagePool {
  import opened Kernel
  import opened IpcObject
  import opened MessageQueue
  import opened MessageQueueInv
  import opened MessageQueueRuns

  const NULL := -1

  /** The chain that starts at p and follows the next fields nx is exactly s. */
  ghost predicate Chain(nx: seq<int>, p: int, s: seq<nat>) {
    && p == (if s == [] then NULL else s[0])
    && forall i {:trigger s[i]} :: 0 <= i < |s| ==> s[i] < |nx| && nx[s[i]] == Follower(s, i)
  }

  function Follower(s: seq<nat>, i: nat): int {
    if i + 1 < |s| then s[i + 1] else NULL
  }

  lemma ChainPop(nx: seq<int>, p: int, s: seq<nat>)
    requires Chain(nx, p, s) && s != []
    ensures p == s[0] < |nx| && Chain(nx, nx[p], s[1..])
  {
    assert s[0] < |nx| && nx[s[0]] == Follower(s, 0);
    forall i | 0 <= i < |s| - 1
      ensures s[1..][i] < |nx| && nx[s[1..][i]] == Follower(s[1..], i)
    {
      assert s[i + 1] == s[1..][i];
    }
  }

  lemma ChainElsewhere(nx: seq<int>, p: int, s: seq<nat>, n: nat, v: int)
    requires Chain(nx, p, s) && n < |nx| && n !in s
    ensures Chain(nx[n := v], p, s)
  {
  }

  lemma ChainPush(nx: seq<int>, p: int, s: seq<nat>, n: nat)
    requires Chain(nx, p, s) && n < |nx| && n !in s
    ensures Chain(nx[n := p], n, [n] + s)
  {
    var r := [n] + s;
    forall i | 0 <= i < |r|
      ensures r[i] < |nx| && nx[n := p][r[i]] == Follower(r, i)
    {
      if i > 0 {
        assert r[i] == s[i - 1] && s[i - 1] in s;
      }
    }
  }

  lemma ChainAppend(nx: seq<int>, p: int, s: seq<nat>, n: nat)
    requires Chain(nx, p, s) && s != [] && Distinct(s) && n < |nx| && n !in s && nx[n] == NULL
    ensures s[|s| - 1] < |nx| && Chain(nx[s[|s| - 1] := n], p, s + [n])
  {
  }

  /** The pointers and the next fields are the lists free and queue; the node of an ordinary sender that has
      reset its next field still ends there. */
  ghost predicate Shape(nx: seq<int>, freeList: int, head: int, tail: int,
                        free: seq<nat>, queue: seq<nat>, calls: map<Tid, Call>) {
    && Chain(nx, freeList, free)
    && Chain(nx, head, queue)
    && tail == (if queue == [] then NULL else queue[|queue| - 1])
    && (forall t <- calls :: Ended(calls[t]) ==> calls[t].node < |nx| && nx[calls[t].node] == NULL)
  }

  predicate Ended(c: Call) {
    c.Filling? && c.cleared && !c.urgent
  }

  /** Node n is on neither list and ends no other call's chain. */
  ghost predicate Elsewhere(n: nat, free: seq<nat>, queue: seq<nat>, calls: map<Tid, Call>) {
    n !in free && n !in queue && forall t <- calls :: Ended(calls[t]) ==> calls[t].node != n
  }

  /** The node of a call in flight belongs to that call alone. */
  lemma FlightElsewhere(s: Mq, t: Tid)
    requires Pool(s) && t in s.calls && InFlight(s.calls[t])
    ensures s.calls[t].node < s.max && Elsewhere(s.calls[t].node, s.free, s.queue, s.calls - {t})
  {
    var calls := s.calls - {t};
    forall x | x in calls && Ended(calls[x]) ensures calls[x].node != s.calls[t].node {
      assert x in s.calls && x != t && s.calls[x] == calls[x];
    }
  }

  /** A write to the next field of such a node. */
  lemma WriteShape(nx: seq<int>, freeList: int, head: int, tail: int,
                   free: seq<nat>, queue: seq<nat>, calls: map<Tid, Call>, n: nat, v: int)
    requires Shape(nx, freeList, head, tail, free, queue, calls)
    requires n < |nx| && Elsewhere(n, free, queue, calls)
    ensures Shape(nx[n := v], freeList, head, tail, free, queue, calls)
  {
    ChainElsewhere(nx, freeList, free, n, v);
    ChainElsewhere(nx, head, queue, n, v);
  }

  lemma PopFreeShape(nx: seq<int>, freeList: int, head: int, tail: int,
                     free: seq<nat>, queue: seq<nat>, calls: map<Tid, Call>)
    requires Shape(nx, freeList, head, tail, free, queue, calls) && free != []
    ensures 0 <= freeList < |nx| && freeList == free[0]
    ensures Shape(nx, nx[freeList], head, tail, free[1..], queue, calls)
  {
    ChainPop(nx, freeList, free);
  }

  lemma PushFreeShape(nx: seq<int>, freeList: int, head: int, tail: int,
                      free: seq<nat>, queue: seq<nat>, calls: map<Tid, Call>, n: nat)
    requires Shape(nx, freeList, head, tail, free, queue, calls)
    requires n < |nx| && Elsewhere(n, free, queue, calls)
    ensures Shape(nx[n := freeList], n, head, tail, [n] + free, queue, calls)
  {
    WriteShape(nx, freeList, head, tail, free, queue, calls, n, freeList);
    ChainPush(nx, freeList, free, n);
  }

  lemma PopQueueShape(nx: seq<int>, freeList: int, head: int, tail: int,
                      free: seq<nat>, queue: seq<nat>, calls: map<Tid, Call>)
    requires Shape(nx, freeList, head, tail, free, queue, calls) && queue != [] && Distinct(queue)
    ensures 0 <= head < |nx| && head == queue[0]
    ensures Shape(nx, freeList, nx[head], if tail == head then NULL else tail, free, queue[1..], calls)
  {
    ChainPop(nx, head, queue);
  }

  /** The call that takes the head does not rest on the chains. */
  lemma TakenShape(nx: seq<int>, freeList: int, head: int, tail: int, s: Mq, t: Tid, size: nat)
    requires s.queue != [] && (t in s.calls ==> !InFlight(s.calls[t]))
    requires Shape(nx, freeList, head, tail, s.free, s.queue[1..], s.calls)
    ensures var r := TakeHead(s, t, size);
            && Shape(nx, freeList, head, tail, r.free, r.queue, r.calls)
            && r.entry == (if s.entry > 0 then s.entry - 1 else s.entry) && r.calls[t].node == s.queue[0]
            && r.data == s.data && r.msgSize == s.msgSize && r.max == s.max
            && r.receivers == s.receivers && r.senders == s.senders
  {
    FewerCalls(nx, freeList, head, tail, s.free, s.queue[1..], s.calls, TakeHead(s, t, size).calls);
  }

  lemma AppendShape(nx: seq<int>, freeList: int, head: int, tail: int,
                    free: seq<nat>, queue: seq<nat>, calls: map<Tid, Call>, n: nat)
    requires Shape(nx, freeList, head, tail, free, queue, calls) && Distinct(queue)
    requires n < |nx| && nx[n] == NULL && Elsewhere(n, free, queue, calls)
    requires queue != [] ==> Elsewhere(queue[|queue| - 1], free, [], calls)
    ensures -1 <= tail < |nx|
    ensures Shape(if tail == NULL then nx else nx[tail := n], freeList,
                  if head == NULL then n else head, n, free, queue + [n], calls)
  {
    if queue != [] {
      ChainAppend(nx, head, queue, n);
      ChainElsewhere(nx, freeList, free, tail, n);
    }
  }

  lemma PrependShape(nx: seq<int>, freeList: int, head: int, tail: int,
                     free: seq<nat>, queue: seq<nat>, calls: map<Tid, Call>, n: nat)
    requires Shape(nx, freeList, head, tail, free, queue, calls)
    requires n < |nx| && Elsewhere(n, free, queue, calls)
    ensures Shape(nx[n := head], freeList, n, if tail == NULL then n else tail, free, [n] + queue, calls)
  {
    WriteShape(nx, freeList, head, tail, free, queue, calls, n, head);
    ChainPush(nx, head, queue, n);
  }

  /** The chains are still there when the calls that rest on them become fewer. */
  lemma FewerCalls(nx: seq<int>, freeList: int, head: int, tail: int,
                   free: seq<nat>, queue: seq<nat>, calls: map<Tid, Call>, fewer: map<Tid, Call>)
    requires Shape(nx, freeList, head, tail, free, queue, calls)
    requires forall t <- fewer :: Ended(fewer[t]) ==> t in calls && calls[t] == fewer[t]
    ensures Shape(nx, freeList, head, tail, free, queue, fewer)
  {
  }

  /** struct rt_messagequeue and its memory. Each method is one section with interrupts disabled, or one
      write between two of them; msg is the local variable of the call. m is the abstract state, with the
      calls of all threads: every method takes it through the step of the machine of the same name, and keeps
      Valid(), so the methods may follow each other in any order the calls allow. */
  class Queue {
    const next: array<int>
    const data: array<seq<Byte>>
    const msgSize: nat
    var head: int
    var tail: int
    var freeList: int
    var entry: nat
    var parent: Ipc
    var senders: Ipc
    ghost var m: Mq

    /** The fields are those of m: one chain per list, the tail at the end of its chain. */
    ghost predicate Represents()
      reads this, next, data
    {
      && data[..] == m.data
      && msgSize == m.msgSize && entry == m.entry && parent == m.receivers && senders == m.senders
      && next.Length == m.max
      && Shape(next[..], freeList, head, tail, m.free, m.queue, m.calls)
    }

    /** And m is a state the machine can be in. */
    ghost predicate Valid()
      reads this, next, data
    {
      Represents() && Inv(m)
    }

    /** rt_mq_init, on a pool already cut into nodes. */
    constructor (pool: array<seq<Byte>>, links: array<int>, size: nat, flag: Flag, error: Tid -> Err, prio: Tid -> nat)
      requires links.Length == pool.Length <= ENTRY_MAX
      requires forall i :: 0 <= i < pool.Length ==> |pool[i]| == size
      modifies links
      ensures Valid() && Fresh(m) && next == links && data == pool
      ensures m.max == pool.Length && m.msgSize == size && m.receivers.flag == m.senders.flag == flag
    {
      next, data, msgSize := links, pool, size;
      head, tail, entry := NULL, NULL, 0;
      parent, senders := Ipc(flag, [], {}, error, prio), Ipc(flag, [], {}, error, prio);
      freeList := NULL;
      new;
      freeList := BuildFreeList(next);
      m := Init(next.Length, msgSize, data[..], parent, senders, (_: nat) => []);
      FreshInv(m);
    }

    /** Its loop: every node becomes the head of the free list in turn. */
    static method BuildFreeList(links: array<int>) returns (free: int)
      modifies links
      ensures Chain(links[..], free, Down(links.Length))
    {
      var temp := 0;
      free := NULL;
      while temp < links.Length
        invariant temp <= links.Length
        invariant Chain(links[..], free, Down(temp))
      {
        ghost var nx := links[..];
        links[temp] := free;
        assert links[..] == nx[temp := free];
        ChainPush(nx, free, Down(temp), temp);
        free := temp;
        temp := temp + 1;
        assert Down(temp) == [temp - 1] + Down(temp - 1);
      }
    }

    /** rt_mq_send_wait up to the copy, or to where the caller returns or is suspended. */
    method SendFirst(t: Tid, buf: seq<Byte>, timeout: int) returns (o: Outcome, msg: int)
      requires Valid() && t !in m.calls
      modifies this
      ensures Valid() && (m, o) == SendEnter(old(m), t, buf, timeout)
      ensures t in m.calls && m.calls[t].Filling? ==> msg == m.calls[t].node
    {
      SendStepInv(m, t, buf, timeout);
      if |buf| > msgSize {
        return Returned(ERROR), NULL;
      }
      if freeList == NULL && timeout == 0 {
        assert m.calls - {t} == m.calls;
        return Returned(EFULL), NULL;
      }
      o, msg := SendOn(t, buf, timeout);
    }

    /** A blocked sender runs on. */
    method SendAgain(t: Tid, buf: seq<Byte>, timeout: int) returns (o: Outcome, msg: int)
      requires Valid() && t in m.calls && m.calls[t] == Sending(buf) && t in senders.ready
      modifies this
      ensures Valid() && (m, o) == SendResume(old(m), t, buf, timeout)
      ensures t in m.calls && m.calls[t].Filling? ==> msg == m.calls[t].node
    {
      SendResumeInv(m, t, timeout);
      o, msg := SenderRuns(t, buf, timeout);
    }

    /** Its section on the links. */
    method SenderRuns(t: Tid, buf: seq<Byte>, timeout: int) returns (o: Outcome, msg: int)
      requires Represents() && t in m.calls && m.calls[t] == Sending(buf)
      modifies this
      ensures Represents() && (m, o) == SendResume(old(m), t, buf, timeout)
      ensures t in m.calls && m.calls[t].Filling? ==> msg == m.calls[t].node
    {
      senders := Leave(senders, t);
      m := m.(senders := senders);
      if senders.error(t) != EOK {
        m := Done(m, t);
        return Returned(senders.error(t)), NULL;
      }
      o, msg := SendOn(t, buf, timeout);
    }

    /** The loop of rt_mq_send_wait, up to the next suspension. */
    method SendOn(t: Tid, buf: seq<Byte>, timeout: int) returns (o: Outcome, msg: int)
      requires Represents() && (t in m.calls ==> !InFlight(m.calls[t]))
      modifies this
      ensures Represents() && (m, o) == SendLoop(old(m), t, buf, timeout)
      ensures t in m.calls && m.calls[t].Filling? ==> msg == m.calls[t].node
    {
      msg := freeList;
      if msg == NULL {
        if timeout == 0 {
          m := Done(m, t);
          return Returned(EFULL), msg;
        }
        senders := Suspend(senders, t);
        m := m.(senders := senders, calls := m.calls[t := Sending(buf)]);
        return Running, msg;
      }
      PopFree(t, buf, false);
      return Running, msg;
    }

    /** The free list gives its head to a sender. */
    method PopFree(ghost t: Tid, ghost buf: seq<Byte>, ghost urgent: bool)
      requires Represents() && m.free != [] && (t in m.calls ==> !InFlight(m.calls[t]))
      modifies this
      ensures old(m).free != [] && m == Reserve(old(m), t, buf, urgent)
      ensures Represents() && old(freeList) == m.calls[t].node
    {
      PopFreeShape(next[..], freeList, head, tail, m.free, m.queue, m.calls);
      freeList := next[freeList];
      m := Reserve(m, t, buf, urgent);
    }

    /** rt_mq_urgent up to the copy. */
    method UrgentFirst(t: Tid, buf: seq<Byte>) returns (o: Outcome, msg: int)
      requires Valid() && t !in m.calls
      modifies this
      ensures Valid() && (m, o) == UrgentEnter(old(m), t, buf)
      ensures t in m.calls && m.calls[t].Filling? ==> msg == m.calls[t].node
    {
      UrgentStepInv(m, t, buf);
      msg := freeList;
      if |buf| > msgSize {
        return Returned(ERROR), msg;
      }
      if msg == NULL {
        return Returned(EFULL), msg;
      }
      PopFree(t, buf, true);
      return Running, msg;
    }

    /** The write to next that rt_mq_send_wait does with interrupts enabled. */
    method EndNode(t: Tid, msg: nat)
      requires Valid()
      requires t in m.calls && m.calls[t].Filling? && !m.calls[t].urgent && m.calls[t].node == msg
      modifies this`m, next
      ensures Valid() && m == ClearNext(old(m), t)
    {
      ClearNextInv(m, t);
      ResetNext(t, msg);
    }

    /** The write on the links. */
    method ResetNext(ghost t: Tid, msg: nat)
      requires Represents() && Pool(m)
      requires t in m.calls && m.calls[t].Filling? && !m.calls[t].urgent && m.calls[t].node == msg
      modifies this`m, next
      ensures Represents() && m == ClearNext(old(m), t)
    {
      ghost var others := m.calls - {t};
      FlightApart(next[..], freeList, head, tail, m, t);
      ghost var nx := next[..];
      WriteShape(nx, freeList, head, tail, m.free, m.queue, others, msg, NULL);
      next[msg] := NULL;
      assert next[..] == nx[msg := NULL];
      m := ClearNext(m, t);
      forall x | x in m.calls && x != t ensures x in others && others[x] == m.calls[x] {
      }
    }

    /** Byte k of the copy into the node, with interrupts enabled. */
    method CopyByteIn(t: Tid, msg: nat, buf: seq<Byte>, k: nat)
      requires Valid() && t in m.calls && m.calls[t].Filling? && m.calls[t].node == msg
      requires m.calls[t].buf == buf && m.calls[t].done == k < |buf|
      modifies this`m, data
      ensures CopyIn.requires(old(m), t) && m == CopyIn(old(m), t)
      ensures Valid()
    {
      CopyInInv(m, t);
      ghost var calls := m.calls;
      data[msg] := data[msg][k := buf[k]];
      m := CopyIn(m, t);
    }

    /** The second section of rt_mq_send_wait. */
    method LinkTail(t: Tid, msg: nat) returns (o: Outcome)
      requires Valid() && t in m.calls && Ended(m.calls[t]) && m.calls[t].node == msg
      requires m.calls[t].done == |m.calls[t].buf|
      modifies this, next
      ensures Valid() && (m, o) == Link(old(m), t)
    {
      LinkInv(m, t);
      o := AtTail(t, msg);
    }

    /** Its section on the links. */
    method AtTail(ghost t: Tid, msg: nat) returns (o: Outcome)
      requires Represents() && Pool(m) && t in m.calls && Ended(m.calls[t]) && m.calls[t].node == msg
      modifies this, next
      ensures Represents() && (m, o) == Link(old(m), t)
    {
      ghost var others := m.calls - {t};
      FlightApart(next[..], freeList, head, tail, m, t);
      Append(msg, m.free, m.queue, others);
      o := Arrived(t);
    }

    /** The chain of the queue is continued behind its tail. */
    method Append(msg: nat, ghost free: seq<nat>, ghost queue: seq<nat>, ghost calls: map<Tid, Call>)
      requires Shape(next[..], freeList, head, tail, free, queue, calls) && Distinct(queue)
      requires msg < next.Length && next[msg] == NULL && Elsewhere(msg, free, queue, calls)
      requires queue != [] ==> Elsewhere(queue[|queue| - 1], free, [], calls)
      modifies this`head, this`tail, next
      ensures Shape(next[..], freeList, head, tail, free, queue + [msg], calls)
    {
      ghost var nx := next[..];
      AppendShape(nx, freeList, head, tail, free, queue, calls, msg);
      if tail != NULL {
        next[tail] := msg;
      }
      assert next[..] == if tail == NULL then nx else nx[tail := msg];
      tail := msg;
      if head == NULL {
        head := msg;
      }
    }

    /** The second section of rt_mq_urgent. */
    method LinkHead(t: Tid, msg: nat) returns (o: Outcome)
      requires Valid() && t in m.calls
      requires m.calls[t].Filling? && m.calls[t].urgent && m.calls[t].node == msg
      requires m.calls[t].done == |m.calls[t].buf|
      modifies this, next
      ensures Valid() && (m, o) == Link(old(m), t)
    {
      LinkInv(m, t);
      o := AtHead(t, msg);
    }

    /** Its section on the links. */
    method AtHead(ghost t: Tid, msg: nat) returns (o: Outcome)
      requires Represents() && Pool(m) && t in m.calls
      requires m.calls[t].Filling? && m.calls[t].urgent && m.calls[t].node == msg
      modifies this, next
      ensures Represents() && (m, o) == Link(old(m), t)
    {
      ghost var others := m.calls - {t};
      FlightApart(next[..], freeList, head, tail, m, t);
      Prepend(msg, m.free, m.queue, others);
      o := Arrived(t);
    }

    /** The chain of the queue starts at a new head. */
    method Prepend(msg: nat, ghost free: seq<nat>, ghost queue: seq<nat>, ghost calls: map<Tid, Call>)
      requires Shape(next[..], freeList, head, tail, free, queue, calls)
      requires msg < next.Length && Elsewhere(msg, free, queue, calls)
      modifies this`head, this`tail, next
      ensures Shape(next[..], freeList, head, tail, free, [msg] + queue, calls)
    {
      ghost var nx := next[..];
      PrependShape(nx, freeList, head, tail, free, queue, calls, msg);
      next[msg] := head;
      assert next[..] == nx[msg := head];
      head := msg;
      if tail == NULL {
        tail := msg;
      }
    }

    /** The end of the second section of both sends: the message is counted and a receiver resumed. */
    method Arrived(ghost t: Tid) returns (o: Outcome)
      requires entry == m.entry && parent == m.receivers && t in m.calls && m.calls[t].Filling?
      modifies this`entry, this`parent, this`m
      ensures (m, o) == Link(old(m), t) && entry == m.entry && parent == m.receivers
      ensures m.free == old(m).free && m.calls == old(m).calls - {t} && m.max == old(m).max
      ensures m.data == old(m).data && m.msgSize == old(m).msgSize && m.senders == old(m).senders
      ensures m.queue == var c := old(m).calls[t]; if c.urgent then [c.node] + old(m).queue else old(m).queue + [c.node]
    {
      m := Link(m, t).0;
      if entry < ENTRY_MAX {
        entry := entry + 1;
      } else {
        return Returned(EFULL);
      }
      if parent.waiters != [] {
        parent := Resume(parent);
      }
      return Returned(EOK);
    }

    /** rt_mq_recv up to the copy, or to where the caller returns or is suspended. */
    method RecvFirst(t: Tid, size: nat, timeout: int) returns (o: Outcome, msg: int)
      requires Valid() && t !in m.calls
      modifies this
      ensures RecvEnter.requires(old(m), t, size, timeout) && (m, o) == RecvEnter(old(m), t, size, timeout)
      ensures Valid() && (t in m.calls && m.calls[t].Draining? ==> msg == m.calls[t].node)
    {
      RecvStepInv(m, t, size, timeout);
      if entry == 0 && timeout == 0 {
        return Returned(ETIMEOUT), NULL;
      }
      o, msg := RecvOn(t, size, timeout);
    }

    /** A blocked receiver runs on. */
    method RecvAgain(t: Tid, size: nat, timeout: int) returns (o: Outcome, msg: int)
      requires Valid() && t in m.calls && m.calls[t] == Receiving(size) && t in parent.ready
      modifies this
      ensures RecvResume.requires(old(m), t, size, timeout) && (m, o) == RecvResume(old(m), t, size, timeout)
      ensures Valid() && (t in m.calls && m.calls[t].Draining? ==> msg == m.calls[t].node)
    {
      RecvResumeInv(m, t, timeout);
      o, msg := ReceiverRuns(t, size, timeout);
    }

    /** Its section on the links. */
    method ReceiverRuns(t: Tid, size: nat, timeout: int) returns (o: Outcome, msg: int)
      requires Represents() && t in m.calls && m.calls[t] == Receiving(size)
      requires Distinct(m.queue) && entry == |m.queue|
      modifies this
      ensures RecvResume.requires(old(m), t, size, timeout) && (m, o) == RecvResume(old(m), t, size, timeout)
      ensures Represents() && (t in m.calls && m.calls[t].Draining? ==> msg == m.calls[t].node)
    {
      parent := Leave(parent, t);
      m := m.(receivers := parent);
      if parent.error(t) != EOK {
        m := Done(m, t);
        return Returned(parent.error(t)), NULL;
      }
      o, msg := RecvOn(t, size, timeout);
    }

    /** The loop of rt_mq_recv, up to the next suspension, and the unlinking of the head. */
    method RecvOn(t: Tid, size: nat, timeout: int) returns (o: Outcome, msg: int)
      requires Represents() && Distinct(m.queue) && entry == |m.queue| && (t in m.calls ==> !InFlight(m.calls[t]))
      modifies this
      ensures RecvLoop.requires(old(m), t, size, timeout) && (m, o) == RecvLoop(old(m), t, size, timeout)
      ensures Represents() && (t in m.calls && m.calls[t].Draining? ==> msg == m.calls[t].node)
    {
      if entry == 0 {
        if timeout == 0 {
          parent := SetError(parent, t, ETIMEOUT);
          m := Done(m.(receivers := parent), t);
          return Returned(ETIMEOUT), NULL;
        }
        parent := Suspend(parent, t);
        m := m.(receivers := parent, calls := m.calls[t := Receiving(size)]);
        return Running, NULL;
      }
      msg := TakeFirst(t, size);
      return Running, msg;
    }

    /** The first message goes to the receiver. */
    method TakeFirst(ghost t: Tid, ghost size: nat) returns (msg: nat)
      requires Represents() && Distinct(m.queue) && m.queue != [] && (t in m.calls ==> !InFlight(m.calls[t]))
      modifies this`head, this`tail, this`entry, this`m
      ensures old(m).queue != [] && m == TakeHead(old(m), t, size)
      ensures Represents() && msg == m.calls[t].node
    {
      msg := UnlinkHead(m.free, m.queue, m.calls);
      if entry > 0 {
        entry := entry - 1;
      }
      TakenShape(next[..], freeList, head, tail, m, t, size);
      m := TakeHead(m, t, size);
    }

    /** The queue gives up its head. */
    method UnlinkHead(ghost free: seq<nat>, ghost queue: seq<nat>, ghost calls: map<Tid, Call>) returns (msg: nat)
      requires Shape(next[..], freeList, head, tail, free, queue, calls) && queue != [] && Distinct(queue)
      modifies this`head, this`tail
      ensures msg == queue[0] < next.Length
      ensures Shape(next[..], freeList, head, tail, free, queue[1..], calls)
    {
      PopQueueShape(next[..], freeList, head, tail, free, queue, calls);
      msg := head;
      head := next[msg];
      if tail == msg {
        tail := NULL;
      }
    }

    /** Byte |out| of the copy out of the node, with interrupts enabled. */
    method CopyByteOut(t: Tid, msg: nat, out: seq<Byte>) returns (b: Byte)
      requires Valid() && t in m.calls && m.calls[t].Draining? && m.calls[t].node == msg
      requires m.calls[t].out == out && |out| < Min(m.calls[t].size, msgSize)
      modifies this`m
      ensures CopyOut.requires(old(m), t) && m == CopyOut(old(m), t)
      ensures Valid() && t in m.calls && m.calls[t].Draining? && m.calls[t].out == out + [b]
    {
      CopyOutInv(m, t);
      b := data[msg][|out|];
      m := CopyOut(m, t);
    }

    /** The second section of rt_mq_recv. */
    method GiveBack(t: Tid, msg: nat) returns (o: Outcome)
      requires Valid() && t in m.calls && m.calls[t].Draining? && m.calls[t].node == msg
      modifies this, next
      ensures Valid() && (m, o) == PutBack(old(m), t)
    {
      PutBackInv(m, t);
      o := ToFreeList(t, msg);
    }

    /** Its section on the links. */
    method ToFreeList(ghost t: Tid, msg: nat) returns (o: Outcome)
      requires Represents() && Pool(m) && t in m.calls && m.calls[t].Draining? && m.calls[t].node == msg
      modifies this, next
      ensures Represents() && (m, o) == PutBack(old(m), t)
    {
      ghost var others := m.calls - {t};
      FlightApart(next[..], freeList, head, tail, m, t);
      ghost var nx := next[..];
      PushFreeShape(nx, freeList, head, tail, m.free, m.queue, others, msg);
      next[msg] := freeList;
      assert next[..] == nx[msg := freeList];
      freeList := msg;
      if senders.waiters != [] {
        senders := Resume(senders);
      }
      m := PutBack(m, t).0;
      return Returned(EOK);
    }

    /** The timer of a suspended thread expires. */
    method TimeOut(t: Tid)
      requires Valid() && (t in parent.waiters || t in senders.waiters)
      modifies this
      ensures Valid() && m == Expired(old(m), t)
    {
      ExpiredInv(m, t);
      if t in parent.waiters {
        parent := Expire(parent, t);
      } else {
        senders := Expire(senders, t);
      }
      m := Expired(m, t);
    }

    /** rt_mq_control with RT_IPC_CMD_RESET. */
    method Control()
      requires Valid()
      modifies this, next
      ensures Valid() && m == Reset(old(m))
    {
      ResetInv(m);
      EmptyQueue();
    }

    /** The section on the links. */
    method EmptyQueue()
      requires Represents() && Pool(m)
      modifies this, next
      ensures Represents() && m == Reset(old(m))
    {
      WakeEverybody();
      DropQueue();
      entry := 0;
      m := m.(entry := 0);
    }

    /** Both lists are told. */
    method WakeEverybody()
      requires Represents() && Pool(m)
      modifies this`parent, this`senders, this`m
      ensures m == old(m).(receivers := ResumeAll(old(m).receivers), senders := ResumeAll(old(m).senders))
      ensures Represents() && Pool(m.(entry := |m.queue|))
    {
      parent := ResumeAllLoop(parent);
      senders := ResumeAllLoop(senders);
      ResetPool(m);
      m := m.(receivers := parent, senders := senders);
    }

    /** Its loop, which does not touch entry. */
    method DropQueue()
      requires Represents() && Pool(m.(entry := |m.queue|))
      modifies this`head, this`tail, this`freeList, this`m, next
      ensures Represents() && m == DropAll(old(m))
    {
      ghost var before := m;
      while head != NULL
        invariant Represents() && Pool(m.(entry := |m.queue|))
        invariant DropAll(m) == DropAll(before)
        decreases |m.queue|
      {
        DropHead();
      }
    }

    /** One round of its loop: the head moves to the free list. */
    method DropHead()
      requires Represents() && Pool(m.(entry := |m.queue|)) && m.queue != []
      modifies this`head, this`tail, this`freeList, this`m, next
      ensures Represents() && Pool(m.(entry := |m.queue|))
      ensures old(m).queue != [] && m == Drop(old(m))
    {
      HeadElsewhere(m);
      DropPool(m);
      var msg := UnlinkHead(m.free, m.queue, m.calls);
      ghost var nx := next[..];
      PushFreeShape(nx, freeList, head, tail, m.free, m.queue[1..], m.calls, msg);
      next[msg] := freeList;
      assert next[..] == nx[msg := freeList];
      freeList := msg;
      m := Drop(m);
    }
  }

  // ---- What Valid() says of the links themselves.

  /** The pointer k steps along the chain that starts at p. */
  function Follow(nx: seq<int>, p: int, k: nat): int {
    if k == 0 then p else
    var q := Follow(nx, p, k - 1);
    if 0 <= q < |nx| then nx[q] else NULL
  }

  lemma {:induction false} FollowChain(nx: seq<int>, p: int, s: seq<nat>, k: nat)
    requires Chain(nx, p, s) && k <= |s|
    ensures Follow(nx, p, k) == (if k < |s| then s[k] else NULL)
    ensures k < |s| ==> s[k] < |nx|
  {
    if k > 0 {
      FollowChain(nx, p, s, k - 1);
      assert s[k - 1] < |nx| && nx[s[k - 1]] == Follower(s, k - 1);
    } else if s != [] {
      assert s[0] < |nx|;
    }
  }

  /** The chain from p passes n nodes, no node twice, and ends. */
  ghost predicate Acyclic(nx: seq<int>, p: int, n: nat) {
    && (forall i {:trigger Follow(nx, p, i)} :: 0 <= i < n ==> 0 <= Follow(nx, p, i) < |nx|)
    && (forall i, j {:trigger Follow(nx, p, i), Follow(nx, p, j)} ::
          0 <= i < j < n ==> Follow(nx, p, i) != Follow(nx, p, j))
    && Follow(nx, p, n) == NULL
  }

  lemma ChainAcyclic(nx: seq<int>, p: int, s: seq<nat>)
    requires Chain(nx, p, s) && Distinct(s)
    ensures Acyclic(nx, p, |s|)
    ensures forall i {:trigger Follow(nx, p, i)} :: 0 <= i < |s| ==> Follow(nx, p, i) == s[i]
  {
    forall i | 0 <= i < |s| ensures Follow(nx, p, i) == s[i] < |nx| {
      FollowChain(nx, p, s, i);
    }
    FollowChain(nx, p, s, |s|);
  }

  /** The links of the queue, of which Valid() promises what this needs after any calls: head and tail are null
      together, exactly when entry is 0; following next from head passes entry different nodes and ends; the last of
      them is the tail; and so does following it from the free pointer, through nodes that are all different from
      those. */
  lemma LinksOf(q: Queue)
    requires q.Represents() && Pool(q.m)
    ensures q.head == NULL <==> q.entry == 0
    ensures q.tail == NULL <==> q.entry == 0
    ensures Acyclic(q.next[..], q.head, q.entry)
    ensures q.entry > 0 ==> Follow(q.next[..], q.head, q.entry - 1) == q.tail
    ensures Acyclic(q.next[..], q.freeList, |q.m.free|) && |q.m.free| + q.entry <= q.next.Length
    ensures Apart(q.next[..], q.head, q.entry, q.freeList, |q.m.free|)
  {
    ListsApart(q.next[..], q.freeList, q.head, q.tail, q.m);
  }

  /** The first n nodes of one chain and the first k of another are different. */
  ghost predicate Apart(nx: seq<int>, p: int, n: nat, r: int, k: nat) {
    forall i, j {:trigger Follow(nx, p, i), Follow(nx, r, j)} ::
      0 <= i < n && 0 <= j < k ==> Follow(nx, p, i) != Follow(nx, r, j)
  }

  lemma ListsApart(nx: seq<int>, freeList: int, head: int, tail: int, m: Mq)
    requires Pool(m) && Shape(nx, freeList, head, tail, m.free, m.queue, m.calls)
    ensures (head == NULL <==> m.queue == []) && (tail == NULL <==> m.queue == [])
    ensures m.queue != [] ==> Follow(nx, head, |m.queue| - 1) == tail
    ensures Acyclic(nx, head, |m.queue|) && Acyclic(nx, freeList, |m.free|) && |m.free| + |m.queue| <= m.max
    ensures Apart(nx, head, |m.queue|, freeList, |m.free|)
  {
    ChainAcyclic(nx, head, m.queue);
    ChainAcyclic(nx, freeList, m.free);
    PoolShared(m);
    var all := m.free + m.queue;
    assert forall k :: 0 <= k < |all| ==> all[k] in m.free || all[k] in m.queue;
    DistinctBound(all, m.max);
    forall i, j | 0 <= i < |m.queue| && 0 <= j < |m.free|
      ensures Follow(nx, head, i) != Follow(nx, freeList, j)
    {
      FollowChain(nx, head, m.queue, i);
      FollowChain(nx, freeList, m.free, j);
      assert m.queue[i] in m.queue && m.free[j] in m.free;
    }
  }

  /** The last queued node is not free and in no call. */
  lemma LastElsewhere(s: Mq, calls: map<Tid, Call>)
    requires Pool(s) && forall t <- calls :: t in s.calls && calls[t] == s.calls[t]
    ensures s.queue != [] ==> Elsewhere(s.queue[|s.queue| - 1], s.free, [], calls)
  {
    if s.queue != [] {
      assert s.queue[|s.queue| - 1] in s.queue;
    }
  }

  /** Without the call the chains are still there, and its node is on neither. */
  lemma FlightApart(nx: seq<int>, freeList: int, head: int, tail: int, s: Mq, t: Tid)
    requires Pool(s) && t in s.calls && InFlight(s.calls[t])
    requires Shape(nx, freeList, head, tail, s.free, s.queue, s.calls)
    ensures s.calls[t].node < s.max && Elsewhere(s.calls[t].node, s.free, s.queue, s.calls - {t})
    ensures Shape(nx, freeList, head, tail, s.free, s.queue, s.calls - {t})
    ensures s.queue != [] ==> Elsewhere(s.queue[|s.queue| - 1], s.free, [], s.calls - {t})
  {
    FlightElsewhere(s, t);
    FewerCalls(nx, freeList, head, tail, s.free, s.queue, s.calls, s.calls - {t});
    LastElsewhere(s, s.calls - {t});
  }

  /** The first queued node is not free, not queued twice, and in no call. */
  lemma HeadElsewhere(s: Mq)
    requires Pool(s.(entry := |s.queue|)) && s.queue != []
    ensures s.queue[0] < s.max && Elsewhere(s.queue[0], s.free, s.queue[1..], s.calls)
  {
    var r := s.(entry := |s.queue|);
    assert r.queue[0] in r.queue;
    forall t | t in s.calls && Ended(s.calls[t]) ensures s.calls[t].node != s.queue[0] {
      assert r.place(r.calls[t].node) == Held(t);
    }
  }

  lemma SendStepInv(s: Mq, t: Tid, buf: seq<Byte>, timeout: int)
    requires Inv(s) && t !in s.calls
    ensures Inv(SendEnter(s, t, buf, timeout).0)
  {
    if |buf| <= s.msgSize {
      SendLoopInv(s, t, buf, timeout);
    }
  }

  lemma UrgentStepInv(s: Mq, t: Tid, buf: seq<Byte>)
    requires Inv(s) && t !in s.calls
    ensures Inv(UrgentEnter(s, t, buf).0)
  {
    if |buf| <= s.msgSize && s.free != [] {
      ReserveInv(s, t, buf, true);
    }
  }

  lemma RecvStepInv(s: Mq, t: Tid, size: nat, timeout: int)
    requires Inv(s) && t !in s.calls
    ensures Inv(RecvEnter(s, t, size, timeout).0)
  {
    if s.entry != 0 || timeout != 0 {
      RecvLoopInv(s, t, size, timeout);
    }
  }

  /** Waking everybody moves no node. */
  lemma ResetPool(s: Mq)
    requires Pool(s)
    ensures Pool(s.(receivers := ResumeAll(s.receivers), senders := ResumeAll(s.senders), entry := |s.queue|))
  {
    var r := s.(receivers := ResumeAll(s.receivers), senders := ResumeAll(s.senders));
    OtherWaits(s, r);
    assert r == r.(entry := |s.queue|);
  }
}
