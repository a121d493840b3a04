/** The intrusive circular doubly linked list, and the suspend and resume routines of the IPC
    objects that run on it. A ListNode is the rt_list_t embedded in a thread's control block;
    thread is the control block it is embedded in, null for the head of a list. */
module RtList {
  import opened Kernel
  import opened WaitList

  class Thread {
    const tid: Tid
    var currentPriority: nat
    var error: Err

    constructor (tid: Tid, priority: nat)
      ensures this.tid == tid && currentPriority == priority && error == EOK
    {
      this.tid := tid;
      currentPriority := priority;
      error := EOK;
    }
  }

  class ListNode {
    const thread: Thread?
    var next: ListNode
    var prev: ListNode

    /** rt_list_init on a fresh node. */
    constructor (thread: Thread?)
      ensures this.thread == thread && Ring(this, [])
      ensures next == this && prev == this
    {
      this.thread := thread;
      next := this;
      prev := this;
    }
  }

  /** The ring with head l holds exactly the nodes s, in order, and its two directions agree. */
  ghost predicate Ring(l: ListNode, s: seq<ListNode>)
    reads l, s
  {
    && l !in s && Distinct(s)
    && l.next == (if s == [] then l else s[0])
    && l.prev == (if s == [] then l else s[|s| - 1])
    && (forall i {:trigger s[i].next} :: 0 <= i < |s| ==> s[i].next == if i + 1 < |s| then s[i + 1] else l)
    && (forall i {:trigger s[i].prev} :: 0 <= i < |s| ==> s[i].prev == if i > 0 then s[i - 1] else l)
  }

  /** Position i on the way round: 0 and |s| + 1 are both the head. */
  ghost function At(l: ListNode, s: seq<ListNode>, i: int): ListNode {
    if 1 <= i <= |s| then s[i - 1] else l
  }

  /** next and prev undo each other at every node of a ring. */
  lemma RingInverse(l: ListNode, s: seq<ListNode>, n: ListNode)
    requires Ring(l, s) && (n == l || n in s)
    ensures (n.next == l || n.next in s) && (n.prev == l || n.prev in s)
    ensures n.next.prev == n && n.prev.next == n
  {
    if n != l {
      var i :| 0 <= i < |s| && s[i] == n;
      assert s[i].next == (if i + 1 < |s| then s[i + 1] else l);
      assert s[i].prev == (if i > 0 then s[i - 1] else l);
    }
  }

  /** A ring has one reading only: the head and its links determine the sequence. */
  lemma {:induction false} RingUnique(l: ListNode, s: seq<ListNode>, r: seq<ListNode>, k: nat)
    requires Ring(l, s) && Ring(l, r) && k <= |s|
    ensures k <= |r| && s[..k] == r[..k]
    ensures k == |s| ==> s == r
  {
    if k > 0 {
      RingUnique(l, s, r, k - 1);
      if k > 1 {
        assert s[k - 2] == s[..k - 1][k - 2] == r[k - 2];
        assert s[k - 2].next == s[k - 1];
      }
      assert s[k - 1] in s;
    }
    if k == |s| && k > 0 {
      assert s[k - 1] == s[..k][k - 1] == r[k - 1];
      assert s[k - 1].next == l;
      assert r[k - 1] in r && l !in r;
    }
  }

  lemma SpliceDistinct(s: seq<ListNode>, k: nat, n: ListNode)
    requires Distinct(s) && k <= |s| && n !in s
    ensures Distinct(s[..k] + [n] + s[k..])
  {
  }

  /** rt_list_insert_after: l is the node at position k of the ring, the head being position 0. */
  method InsertAfter(l: ListNode, n: ListNode, ghost head: ListNode, ghost s: seq<ListNode>, ghost k: nat)
    requires Ring(head, s) && k <= |s| && l == At(head, s, k)
    requires n != head && n !in s
    modifies l, l.next, n
    ensures Ring(head, s[..k] + [n] + s[k..])
  {
    SpliceDistinct(s, k, n);
    assert l.next == At(head, s, k + 1);
    l.next.prev := n;
    n.next := l.next;
    l.next := n;
    n.prev := l;
  }

  /** rt_list_insert_before: l is the node at position k of the sequence, the head being position |s|. */
  method InsertBefore(l: ListNode, n: ListNode, ghost head: ListNode, ghost s: seq<ListNode>, ghost k: nat)
    requires Ring(head, s) && k <= |s| && l == At(head, s, k + 1)
    requires n != head && n !in s
    modifies l, l.prev, n
    ensures Ring(head, s[..k] + [n] + s[k..])
  {
    SpliceDistinct(s, k, n);
    assert l.prev == At(head, s, k);
    l.prev.next := n;
    n.prev := l.prev;
    l.prev := n;
    n.next := l;
  }

  /** rt_list_remove: the ring closes over the node, which is left as a self-loop. */
  method Remove(n: ListNode, ghost head: ListNode, ghost s: seq<ListNode>, ghost k: nat)
    requires Ring(head, s) && k < |s| && n == s[k]
    modifies n, n.next, n.prev
    ensures Ring(head, s[..k] + s[k + 1..])
    ensures Ring(n, [])
  {
    assert n.next == At(head, s, k + 2) && n.prev == At(head, s, k);
    n.next.prev := n.prev;
    n.prev.next := n.next;
    n.prev := n;
    n.next := n;
  }

  /** rt_list_isempty. */
  method IsEmpty(l: ListNode, ghost s: seq<ListNode>) returns (empty: bool)
    requires Ring(l, s)
    ensures empty <==> s == []
  {
    empty := l.next == l;
  }

  /** rt_list_len: the walk ends, with the number of nodes. */
  method Len(l: ListNode, ghost s: seq<ListNode>) returns (len: nat)
    requires Ring(l, s)
    ensures len == |s|
  {
    len := 0;
    var p := l;
    while p.next != l
      invariant len <= |s| && p == At(l, s, len)
      decreases |s| - len
    {
      p := p.next;
      len := len + 1;
    }
  }

  ghost function Threads(s: seq<ListNode>): set<Thread> {
    set n | n in s && n.thread != null :: n.thread
  }

  /** The current priorities of the threads in a wait list. */
  ghost function Priorities(s: seq<ListNode>): seq<nat>
    requires forall n <- s :: n.thread != null
    reads Threads(s)
  {
    seq(|s|, i requires 0 <= i < |s| reads Threads(s) => s[i].thread.currentPriority)
  }

  /** The scan of _ipc_list_suspend: the first waiter less urgent than p, or the head. */
  method FindSlot(list: ListNode, p: nat, ghost s: seq<ListNode>) returns (n: ListNode, ghost k: nat)
    requires Ring(list, s) && forall n <- s :: n.thread != null
    ensures k == old(Slot(Priorities(s), p)) <= |s| && n == At(list, s, k + 1)
  {
    n := list.next;
    k := 0;
    ghost var keys := Priorities(s);
    while n != list
      invariant k <= |s| && n == At(list, s, k + 1)
      invariant forall i :: 0 <= i < k ==> keys[i] <= p
      decreases |s| - k
    {
      assert n == s[k] && keys[k] == n.thread.currentPriority;
      if p < n.thread.currentPriority {
        break;
      }
      n := n.next;
      k := k + 1;
    }
    assert k < |s| ==> n != list;
    SlotIs(keys, p, k);
  }

  /** _ipc_list_suspend, after the thread stopped being ready: where its node goes. */
  method ListSuspend(list: ListNode, node: ListNode, flag: Flag, ghost s: seq<ListNode>) returns (ghost k: nat)
    requires Ring(list, s) && forall n <- s :: n.thread != null
    requires node != list && node !in s && node.thread != null
    modifies list, s, node
    ensures k == if flag.FIFO? then |s| else old(Slot(Priorities(s), node.thread.currentPriority))
    ensures k <= |s| && Ring(list, s[..k] + [node] + s[k..])
  {
    var n := list;
    k := |s|;
    ghost var keys := Priorities(s);
    if flag.PRIO? {
      // The scan ends at the waiter to go in front of, or at the head, which appends.
      n, k := FindSlot(list, node.thread.currentPriority, s);
    }
    assert k == if flag.FIFO? then |s| else Slot(keys, old(node.thread.currentPriority));
    RingInverse(list, s, n);
    InsertBefore(n, node, list, s, k);
  }

  /** _ipc_list_resume: the first waiter leaves the list. */
  method ListResume(list: ListNode, ghost s: seq<ListNode>) returns (t: Thread)
    requires Ring(list, s) && s != [] && s[0].thread != null
    modifies list, s[0], s[0].next
    ensures t == s[0].thread && Ring(list, s[1..]) && Ring(s[0], [])
  {
    var n := list.next;
    t := n.thread;
    assert n.next == list || n.next == s[1];
    assert s[..0] + s[1..] == s[1..];
    Remove(n, list, s, 0);
  }

  /** _ipc_list_resume_all: it ends with an empty list, every waiter detached and told -RT_ERROR. */
  method ListResumeAll(list: ListNode, ghost s: seq<ListNode>)
    requires Ring(list, s) && forall n <- s :: n.thread != null
    modifies list, s, Threads(s)
    ensures Ring(list, [])
    ensures forall n <- s :: Failed(n)
  {
    ghost var done, rest: seq<ListNode> := [], s;
    while list.next != list
      invariant s == done + rest && Partly(list, done, rest)
      decreases |rest|
    {
      Shift(done, rest);
      assert rest[0] in s && rest[0].thread in Threads(s);
      assert rest[0].next == list || rest[0].next in s;
      FailHead(list, done, rest);
      done, rest := done + [rest[0]], rest[1..];
    }
    assert done == s;
  }

  /** The list is still to be emptied of rest, and the nodes done have left it. */
  ghost predicate Partly(list: ListNode, done: seq<ListNode>, rest: seq<ListNode>)
    reads list, rest, done, Threads(done)
  {
    && Ring(list, rest)
    && (forall n <- rest :: n.thread != null)
    && (forall n <- done :: n != list && n !in rest && Failed(n))
  }

  /** The node is in no ring, and its thread was told that the wait failed. */
  ghost predicate Failed(n: ListNode)
    reads n, n.thread
  {
    Alone(n) && n.thread != null && n.thread.error == ERROR
  }

  /** One round of the loop of _ipc_list_resume_all. */
  method FailHead(list: ListNode, ghost done: seq<ListNode>, ghost rest: seq<ListNode>)
    requires Partly(list, done, rest) && rest != []
    modifies list, rest[0], rest[0].next, rest[0].thread
    ensures Partly(list, done + [rest[0]], rest[1..])
  {
    Shift(done, rest);
    RingInverse(list, rest, rest[0]);
    forall n | n in done ensures n != rest[0] && n != rest[0].next {
    }
    label Before:
    ResumeWithError(list, rest);
    forall n | n in done ensures Failed(n) {
      assert old@Before(Failed(n));
    }
  }

  lemma Shift(done: seq<ListNode>, rest: seq<ListNode>)
    requires rest != [] && Distinct(rest)
    ensures done + rest == done + [rest[0]] + rest[1..]
    ensures forall n :: n in done + [rest[0]] <==> n in done || n == rest[0]
    ensures rest[0] !in rest[1..] && forall n <- rest[1..] :: n in rest
  {
  }

  /** The node is in no ring but its own. */
  ghost predicate Alone(n: ListNode)
    reads n
  {
    n.next == n && n.prev == n
  }

  /** The first waiter is told, and leaves the ring. */
  method ResumeWithError(list: ListNode, ghost s: seq<ListNode>)
    requires Ring(list, s) && s != [] && s[0].thread != null
    modifies list, s[0], s[0].next, s[0].thread
    ensures s[0].thread.error == ERROR && s[0].thread.currentPriority == old(s[0].thread.currentPriority)
    ensures Ring(list, s[1..]) && Alone(s[0])
  {
    list.next.thread.error := ERROR;
    var t := ListResume(list, s);
  }

  // ---- The rings as the wait lists of the IPC objects: the names of the threads in order.

  ghost function Waiters(s: seq<ListNode>): seq<Tid>
    requires forall n <- s :: n.thread != null
  {
    seq(|s|, i requires 0 <= i < |s| => s[i].thread.tid)
  }

  /** The place ListSuspend finds on the links is the one Enqueue gives the thread on the names. */
  lemma SuspendIsEnqueue(s: seq<ListNode>, node: ListNode, flag: Flag, prio: Tid -> nat)
    requires node.thread != null && forall n <- s :: n.thread != null
    requires node.thread.currentPriority == prio(node.thread.tid)
    requires forall n <- s :: n.thread.currentPriority == prio(n.thread.tid)
    ensures var k := if flag.FIFO? then |s| else Slot(Priorities(s), node.thread.currentPriority);
            Waiters(s[..k] + [node] + s[k..]) == Enqueue(flag, Waiters(s), prio, node.thread.tid)
  {
    assert Priorities(s) == Keys(Waiters(s), prio) by {
      forall i | 0 <= i < |s| ensures Priorities(s)[i] == Keys(Waiters(s), prio)[i] {
        assert s[i] in s;
      }
    }
    var k := if flag.FIFO? then |s| else Slot(Priorities(s), node.thread.currentPriority);
    assert Waiters(s[..k] + [node] + s[k..]) == Waiters(s)[..k] + [node.thread.tid] + Waiters(s)[k..];
  }

  /** Taking node k out of the ring takes its thread out of the names; the first node is the head of the list. */
  lemma RemoveIsWithout(s: seq<ListNode>, k: nat)
    requires k < |s| && forall n <- s :: n.thread != null
    requires forall i :: 0 <= i < k ==> s[i].thread.tid != s[k].thread.tid
    ensures Waiters(s[..k] + s[k + 1..]) == Without(Waiters(s), s[k].thread.tid)
    ensures k == 0 ==> Waiters(s[1..]) == Waiters(s)[1..] && Waiters(s)[0] == s[0].thread.tid
  {
    var a, b := s[..k], s[k + 1..];
    assert s == a + ([s[k]] + b);
    WaitersConcat(a, b);
    WaitersConcat(a, [s[k]] + b);
    WaitersConcat([s[k]], b);
    var t := s[k].thread.tid;
    assert Waiters(s) == Waiters(a) + [t] + Waiters(b);
    WithoutAt(Waiters(a), t, Waiters(b));
  }

  lemma WaitersConcat(a: seq<ListNode>, b: seq<ListNode>)
    requires forall n <- a + b :: n.thread != null
    ensures forall n <- a :: n.thread != null
    ensures forall n <- b :: n.thread != null
    ensures Waiters(a + b) == Waiters(a) + Waiters(b)
  {
    forall n | n in a || n in b ensures n.thread != null {
      assert n in a + b;
    }
  }
}
