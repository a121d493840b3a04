/** The wait list every IPC object keeps: where a suspended thread is put, and who is resumed first. */
module WaitList {
  import opened Kernel

  /** The position of the first key that is greater than p: where the priority scan stops. */
  function Slot(keys: seq<nat>, p: nat): (k: nat)
    ensures k <= |keys|
    ensures forall i :: 0 <= i < k ==> keys[i] <= p
    ensures k < |keys| ==> p < keys[k]
  {
    if keys == [] || p < keys[0] then 0 else 1 + Slot(keys[1..], p)
  }

  lemma {:induction false} SlotIs(keys: seq<nat>, p: nat, k: nat)
    requires k <= |keys|
    requires forall i :: 0 <= i < k ==> keys[i] <= p
    requires k < |keys| ==> p < keys[k]
    ensures Slot(keys, p) == k
  {
    if k > 0 {
      SlotIs(keys[1..], p, k - 1);
    }
  }

  function Keys(q: seq<Tid>, prio: Tid -> nat): seq<nat> {
    seq(|q|, i requires 0 <= i < |q| => prio(q[i]))
  }

  /** The list after _ipc_list_suspend. */
  function Enqueue(flag: Flag, q: seq<Tid>, prio: Tid -> nat, t: Tid): seq<Tid> {
    var k := if flag.FIFO? then |q| else Slot(Keys(q, prio), prio(t));
    q[..k] + [t] + q[k..]
  }

  /** The list after thread t left it, by a resume or by its timer. */
  function Without(q: seq<Tid>, t: Tid): seq<Tid> {
    if q == [] then [] else if q[0] == t then q[1..] else [q[0]] + Without(q[1..], t)
  }

  /** The service order the flag promises. arrival gives the time each thread joined the list. */
  predicate Before(flag: Flag, prio: Tid -> nat, arrival: Tid -> nat, a: Tid, b: Tid) {
    match flag
    case FIFO => arrival(a) < arrival(b)
    case PRIO => prio(a) < prio(b) || (prio(a) == prio(b) && arrival(a) < arrival(b))
  }

  ghost predicate Ordered(flag: Flag, q: seq<Tid>, prio: Tid -> nat, arrival: Tid -> nat) {
    forall i, j :: 0 <= i < j < |q| ==> Before(flag, prio, arrival, q[i], q[j])
  }

  /** A list where nobody is behind a less urgent thread. */
  ghost predicate Sorted(q: seq<Tid>, prio: Tid -> nat) {
    forall i, j :: 0 <= i < j < |q| ==> prio(q[i]) <= prio(q[j])
  }

  /** Where the thread is put, in terms of the order: nobody it passes is less urgent, whoever follows is. */
  lemma EnqueueSplits(flag: Flag, q: seq<Tid>, prio: Tid -> nat, t: Tid) returns (k: nat)
    ensures k <= |q| && Enqueue(flag, q, prio, t) == q[..k] + [t] + q[k..]
    ensures flag.FIFO? ==> k == |q|
    ensures flag.PRIO? ==> (forall i :: 0 <= i < k ==> prio(q[i]) <= prio(t))
    ensures flag.PRIO? && k < |q| ==> prio(t) < prio(q[k])
  {
    k := if flag.FIFO? then |q| else Slot(Keys(q, prio), prio(t));
    assert forall i :: 0 <= i < |q| ==> Keys(q, prio)[i] == prio(q[i]);
  }

  /** Suspending the newest arrival keeps the service order, adds exactly that thread, and moves nobody else. */
  lemma EnqueueOrdered(flag: Flag, q: seq<Tid>, prio: Tid -> nat, arrival: Tid -> nat, t: Tid)
    requires Ordered(flag, q, prio, arrival)
    requires forall x <- q :: arrival(x) < arrival(t)
    ensures Ordered(flag, Enqueue(flag, q, prio, t), prio, arrival)
    ensures Without(Enqueue(flag, q, prio, t), t) == q
  {
    var k := EnqueueSplits(flag, q, prio, t);
    forall i | 0 <= i < |q| ensures i < k ==> Before(flag, prio, arrival, q[i], t) {
      assert q[i] in q;
    }
    forall i | k <= i < |q| ensures Before(flag, prio, arrival, t, q[i]) {
      assert i > k ==> Before(flag, prio, arrival, q[k], q[i]);
    }
    InsertOrdered(flag, q, prio, arrival, k, t);
    assert t !in q;
    WithoutInserted(q, k, t);
  }

  lemma WithoutInserted(q: seq<Tid>, k: nat, t: Tid)
    requires k <= |q| && t !in q
    ensures Without(q[..k] + [t] + q[k..], t) == q
  {
    WithoutAt(q[..k], t, q[k..]);
    assert q[..k] + q[k..] == q;
  }

  lemma InsertOrdered(flag: Flag, q: seq<Tid>, prio: Tid -> nat, arrival: Tid -> nat, k: nat, t: Tid)
    requires k <= |q| && Ordered(flag, q, prio, arrival)
    requires forall i :: 0 <= i < k ==> Before(flag, prio, arrival, q[i], t)
    requires forall i :: k <= i < |q| ==> Before(flag, prio, arrival, t, q[i])
    ensures Ordered(flag, q[..k] + [t] + q[k..], prio, arrival)
  {
    var r := q[..k] + [t] + q[k..];
    forall i, j | 0 <= i < j < |r| ensures Before(flag, prio, arrival, r[i], r[j]) {
      var i', j' := if i < k then i else i - 1, if j < k then j else j - 1;
      assert i != k ==> r[i] == q[i'];
      assert j != k ==> r[j] == q[j'];
    }
  }

  lemma {:induction false} WithoutAt(a: seq<Tid>, t: Tid, b: seq<Tid>)
    requires t !in a
    ensures Without(a + [t] + b, t) == a + b
  {
    if a == [] {
      assert (a + [t] + b)[1..] == b == a + b;
    } else {
      WithoutAt(a[1..], t, b);
      assert (a + [t] + b)[1..] == a[1..] + [t] + b;
      assert [a[0]] + (a[1..] + b) == a + b;
    }
  }

  /** Leaving the list, from any place in it, keeps the service order of the others. */
  lemma {:induction false} WithoutOrdered(flag: Flag, q: seq<Tid>, prio: Tid -> nat, arrival: Tid -> nat, t: Tid)
    requires Ordered(flag, q, prio, arrival)
    ensures Ordered(flag, Without(q, t), prio, arrival)
    ensures forall x <- Without(q, t) :: x in q
  {
    if q != [] && q[0] != t {
      WithoutOrdered(flag, q[1..], prio, arrival, t);
      var r := Without(q[1..], t);
      assert Without(q, t) == [q[0]] + r;
      forall j | 0 <= j < |r| ensures Before(flag, prio, arrival, q[0], r[j]) {
        assert r[j] in q[1..];
      }
    }
  }

  /** The thread that _ipc_list_resume picks is served before every other: the earliest under FIFO,
      and under PRIO the most urgent, the earliest of those with its priority. */
  lemma HeadIsNext(flag: Flag, q: seq<Tid>, prio: Tid -> nat, arrival: Tid -> nat, x: Tid)
    requires q != [] && Ordered(flag, q, prio, arrival)
    requires x in q && x != q[0]
    ensures Before(flag, prio, arrival, q[0], x)
    ensures flag.PRIO? ==> prio(q[0]) <= prio(x)
  {
    var j :| 0 <= j < |q| && q[j] == x;
  }

  /** What the object proofs need from the insertion: the same threads plus t, still distinct. */
  lemma EnqueueMembers(flag: Flag, q: seq<Tid>, prio: Tid -> nat, t: Tid)
    requires Distinct(q) && t !in q
    ensures Distinct(Enqueue(flag, q, prio, t))
    ensures forall x :: x in Enqueue(flag, q, prio, t) <==> x in q || x == t
  {
    var k := EnqueueSplits(flag, q, prio, t);
    assert q == q[..k] + q[k..];
    assert t !in q[..k] && t !in q[k..];
    InsertDistinct(q, k, t);
  }

  lemma InsertDistinct(q: seq<Tid>, k: nat, t: Tid)
    requires k <= |q| && Distinct(q) && t !in q
    ensures Distinct(q[..k] + [t] + q[k..])
  {
  }

  lemma EnqueueSorted(q: seq<Tid>, prio: Tid -> nat, t: Tid)
    requires Sorted(q, prio)
    ensures Sorted(Enqueue(PRIO, q, prio, t), prio)
  {
    var k := EnqueueSplits(PRIO, q, prio, t);
    var r := q[..k] + [t] + q[k..];
    forall i, j | 0 <= i < j < |r| ensures prio(r[i]) <= prio(r[j]) {
      var i', j' := if i < k then i else i - 1, if j < k then j else j - 1;
      assert i != k ==> r[i] == q[i'];
      assert j != k ==> r[j] == q[j'];
    }
  }

  /** And from a departure. */
  lemma {:induction false} WithoutMembers(q: seq<Tid>, t: Tid)
    requires Distinct(q)
    ensures Distinct(Without(q, t))
    ensures forall x :: x in Without(q, t) <==> x in q && x != t
  {
    if q != [] {
      assert q == [q[0]] + q[1..];
      if q[0] != t {
        WithoutMembers(q[1..], t);
        var r := Without(q[1..], t);
        assert q[0] !in r;
        assert forall j :: 0 <= j < |r| ==> r[j] in r;
      }
    }
  }

  lemma {:induction false} WithoutSorted(q: seq<Tid>, prio: Tid -> nat, t: Tid)
    requires Sorted(q, prio)
    ensures Sorted(Without(q, t), prio)
    ensures forall x <- Without(q, t) :: x in q
  {
    if q != [] && q[0] != t {
      WithoutSorted(q[1..], prio, t);
      var r := Without(q[1..], t);
      forall j | 0 <= j < |r| ensures prio(q[0]) <= prio(r[j]) {
        assert r[j] in q[1..];
      }
    }
  }
}
