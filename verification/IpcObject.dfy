/** The part every IPC object embeds (struct rt_ipc_object): its wait list, together with the
    control-block fields of the threads that are inside a blocking call on it. */
module IpcObject {
  import opened Kernel
  import opened WaitList

  /** waiters are suspended on the list. ready are the threads that left it, by a resume or by their
      timer, and have not yet run on. error and prio are the threads' error and current_priority fields. */
  datatype Ipc = Ipc(flag: Flag, waiters: seq<Tid>, ready: set<Tid>, error: Tid -> Err, prio: Tid -> nat)

  /** Thread t is outside any blocking call on the object. */
  predicate Idle(c: Ipc, t: Tid) {
    t !in c.waiters && t !in c.ready
  }

  /** The running thread t clears its error and suspends itself (_ipc_list_suspend). */
  function Suspend(c: Ipc, t: Tid): Ipc {
    c.(error := With(c.error, t, EOK), waiters := Enqueue(c.flag, c.waiters, c.prio, t))
  }

  /** _ipc_list_resume. */
  function Resume(c: Ipc): Ipc
    requires c.waiters != []
  {
    c.(waiters := c.waiters[1..], ready := c.ready + {c.waiters[0]})
  }

  /** One round of _ipc_list_resume_all. */
  function Fail(c: Ipc): Ipc
    requires c.waiters != []
  {
    Resume(SetError(c, c.waiters[0], ERROR))
  }

  /** _ipc_list_resume_all. */
  function ResumeAll(c: Ipc): Ipc
    decreases |c.waiters|
  {
    if c.waiters == [] then c else ResumeAll(Fail(c))
  }

  /** rt_thread_resume of the suspended thread t, wherever it is in the list. */
  function ResumeThread(c: Ipc, t: Tid): Ipc {
    c.(waiters := Without(c.waiters, t), ready := c.ready + {t})
  }

  /** The timer of the suspended thread t expires (_thread_timeout). */
  function Expire(c: Ipc, t: Tid): Ipc {
    ResumeThread(SetError(c, t, ETIMEOUT), t)
  }

  /** The ready thread t runs on. */
  function Leave(c: Ipc, t: Tid): Ipc {
    c.(ready := c.ready - {t})
  }

  function SetError(c: Ipc, t: Tid, e: Err): Ipc {
    c.(error := With(c.error, t, e))
  }

  /** The resumed threads that will look at the object again: their error says they were not given up. */
  ghost function Woken(c: Ipc): set<Tid> {
    set t | t in c.ready && c.error(t) == EOK
  }

  /** What holds of the wait list whatever the object does with it. */
  ghost predicate Valid(c: Ipc) {
    && Distinct(c.waiters)
    && (forall t <- c.waiters :: t !in c.ready && c.error(t) == EOK)
    && (c.flag.PRIO? ==> Sorted(c.waiters, c.prio))
  }

  lemma SuspendValid(c: Ipc, t: Tid)
    requires Valid(c) && Idle(c, t)
    ensures Valid(Suspend(c, t))
    ensures forall x :: x in Suspend(c, t).waiters <==> x in c.waiters || x == t
    ensures Suspend(c, t).waiters != []
  {
    EnqueueMembers(c.flag, c.waiters, c.prio, t);
    if c.flag.PRIO? {
      EnqueueSorted(c.waiters, c.prio, t);
    }
    assert t in Suspend(c, t).waiters;
  }

  lemma ResumeValid(c: Ipc)
    requires Valid(c) && c.waiters != []
    ensures Valid(Resume(c))
    ensures forall x :: x in c.waiters <==> x in Resume(c).waiters || x == c.waiters[0]
    ensures c.waiters[0] !in Resume(c).waiters
    ensures c.flag.PRIO? ==> forall x <- Resume(c).waiters :: c.prio(c.waiters[0]) <= c.prio(x)
  {
    assert c.waiters == [c.waiters[0]] + c.waiters[1..];
  }

  lemma ResumeThreadValid(c: Ipc, t: Tid)
    requires Valid(c) && t in c.waiters
    ensures Valid(ResumeThread(c, t)) && Valid(Expire(c, t))
    ensures Expire(c, t).waiters == ResumeThread(c, t).waiters
    ensures forall x :: x in ResumeThread(c, t).waiters <==> x in c.waiters && x != t
  {
    WithoutMembers(c.waiters, t);
    if c.flag.PRIO? {
      WithoutSorted(c.waiters, c.prio, t);
    }
  }

  /** Waking everybody empties the list, makes all of them ready and gives each -RT_ERROR; no other thread
      is touched. */
  lemma {:induction false} ResumeAllEffect(c: Ipc)
    requires Valid(c)
    ensures Valid(ResumeAll(c)) && ResumeAll(c).waiters == []
    ensures ResumeAll(c).flag == c.flag && ResumeAll(c).prio == c.prio
    ensures forall x :: x in ResumeAll(c).ready <==> x in c.ready || x in c.waiters
    ensures forall x :: ResumeAll(c).error(x) == if x in c.waiters then ERROR else c.error(x)
    decreases |c.waiters|
  {
    if c.waiters != [] {
      ResumeValid(c);
      ResumeAllEffect(Fail(c));
    }
  }

  /** The loop of _ipc_list_resume_all on the embedded object. */
  method ResumeAllLoop(c: Ipc) returns (r: Ipc)
    ensures r == ResumeAll(c)
  {
    r := c;
    while r.waiters != []
      invariant ResumeAll(r) == ResumeAll(c)
      decreases |r.waiters|
    {
      r := Fail(r);
    }
  }

  /** Resuming the first waiter puts one more thread on its way. */
  lemma ResumeWakes(c: Ipc)
    requires Valid(c) && c.waiters != []
    ensures Valid(Resume(c)) && |Woken(Resume(c))| == |Woken(c)| + 1
  {
    ResumeValid(c);
    assert Woken(Resume(c)) == Woken(c) + {c.waiters[0]};
  }

  /** A thread that runs on takes itself off the ones on their way, unless it came back with an error. */
  lemma LeaveWakes(c: Ipc, t: Tid)
    requires Valid(c) && t in c.ready
    ensures Valid(Leave(c, t)) && Idle(Leave(c, t), t)
    ensures |Woken(Leave(c, t))| == |Woken(c)| - if c.error(t) == EOK then 1 else 0
  {
    assert Woken(Leave(c, t)) == Woken(c) - {t};
  }

  /** Suspending an idle thread changes nobody on its way. */
  lemma SuspendWakes(c: Ipc, t: Tid)
    requires Valid(c) && Idle(c, t)
    ensures Valid(Suspend(c, t)) && Woken(Suspend(c, t)) == Woken(c)
    ensures forall x :: Idle(Suspend(c, t), x) <==> Idle(c, x) && x != t
  {
    SuspendValid(c, t);
  }

  lemma ExpireWakes(c: Ipc, t: Tid)
    requires Valid(c) && t in c.waiters
    ensures Valid(Expire(c, t)) && Woken(Expire(c, t)) == Woken(c)
  {
    ResumeThreadValid(c, t);
  }

  // ---- What a caller can see of the object change.

  /** Thread t, and nobody else, joined the list: at the end under FIFO, and under PRIO behind all that are not less
      urgent and in front of all that are. Its error is cleared. */
  ghost predicate Joined(c: Ipc, r: Ipc, t: Tid) {
    && r.flag == c.flag && r.prio == c.prio && r.ready == c.ready
    && (forall x :: r.error(x) == if x == t then EOK else c.error(x))
    && exists k: nat :: JoinedAt(c, r, t, k)
  }

  ghost predicate JoinedAt(c: Ipc, r: Ipc, t: Tid, k: nat) {
    && k <= |c.waiters| && r.waiters == c.waiters[..k] + [t] + c.waiters[k..]
    && (c.flag.FIFO? ==> k == |c.waiters|)
    && (c.flag.PRIO? ==> forall i :: 0 <= i < |c.waiters| ==> (i < k <==> c.prio(c.waiters[i]) <= c.prio(t)))
  }

  /** The first waiter, and nobody else, became ready. */
  ghost predicate HeadWoken(c: Ipc, r: Ipc) {
    && c.waiters != [] && c.waiters == [c.waiters[0]] + r.waiters
    && (forall x :: x in r.ready <==> x in c.ready || x == c.waiters[0])
    && r.error == c.error && r.flag == c.flag && r.prio == c.prio
  }

  /** Thread t left the list, from whatever place, and is ready with the error e. */
  ghost predicate Left(c: Ipc, r: Ipc, t: Tid, e: Err) {
    && t in c.waiters && t !in r.waiters && r.waiters == Without(c.waiters, t)
    && (forall x :: x in r.ready <==> x in c.ready || x == t)
    && (forall x :: r.error(x) == if x == t then e else c.error(x))
    && r.flag == c.flag && r.prio == c.prio
  }

  /** The error of thread t is e, and nothing else changed. */
  ghost predicate Told(c: Ipc, r: Ipc, t: Tid, e: Err) {
    && r.waiters == c.waiters && r.ready == c.ready && r.flag == c.flag && r.prio == c.prio
    && (forall x :: r.error(x) == if x == t then e else c.error(x))
  }

  /** Thread t is out of the object, and nothing else changed. */
  ghost predicate RanOn(c: Ipc, r: Ipc, t: Tid) {
    && r.waiters == c.waiters && r.flag == c.flag && r.prio == c.prio && r.error == c.error
    && (forall x :: x in r.ready <==> x in c.ready && x != t)
  }

  /** Everybody who waited, and nobody else, is ready with -RT_ERROR. */
  ghost predicate AllWoken(c: Ipc, r: Ipc) {
    && r.waiters == [] && r.flag == c.flag && r.prio == c.prio
    && (forall x :: x in r.ready <==> x in c.ready || x in c.waiters)
    && (forall x :: r.error(x) == if x in c.waiters then ERROR else c.error(x))
  }

  lemma SuspendJoins(c: Ipc, t: Tid)
    requires Valid(c) && Idle(c, t)
    ensures Joined(c, Suspend(c, t), t)
    ensures Without(Suspend(c, t).waiters, t) == c.waiters && t in Suspend(c, t).waiters
  {
    var k := EnqueueSplits(c.flag, c.waiters, c.prio, t);
    if c.flag.PRIO? && k < |c.waiters| {
      forall i | k <= i < |c.waiters| ensures c.prio(t) < c.prio(c.waiters[i]) {
        assert c.prio(c.waiters[k]) <= c.prio(c.waiters[i]);
      }
    }
    assert JoinedAt(c, Suspend(c, t), t, k);
    WithoutInserted(c.waiters, k, t);
    assert (c.waiters[..k] + [t] + c.waiters[k..])[k] == t;
  }

  lemma ResumeWakesHead(c: Ipc)
    requires Valid(c) && c.waiters != []
    ensures HeadWoken(c, Resume(c))
  {
  }

  /** A thread whose time is up leaves the list with -RT_ETIMEOUT. */
  lemma ExpireTimesOut(c: Ipc, t: Tid)
    requires Valid(c) && t in c.waiters
    ensures Left(c, Expire(c, t), t, ETIMEOUT)
  {
    ResumeThreadValid(c, t);
  }

  lemma ResumeAllWakes(c: Ipc)
    requires Valid(c)
    ensures AllWoken(c, ResumeAll(c))
  {
    ResumeAllEffect(c);
  }

  // ---- Service order, over every run of list operations.

  datatype ListOp = Join(t: Tid) | Serve | Pick(t: Tid) | TimeOut(t: Tid) | ServeAll | RunOn(t: Tid)

  /** The list with a clock: arrival records when each thread last joined, cause how it last left. */
  datatype Timed = Timed(c: Ipc, arrival: Tid -> nat, clock: nat, cause: Tid -> Err)

  function Step(w: Timed, op: ListOp): Timed {
    match op
    case Join(t) =>
      if Idle(w.c, t) then w.(c := Suspend(w.c, t), arrival := With(w.arrival, t, w.clock), clock := w.clock + 1) else w
    case Serve =>
      if w.c.waiters != [] then w.(c := Resume(w.c), cause := With(w.cause, w.c.waiters[0], EOK)) else w
    case Pick(t) =>
      if t in w.c.waiters then w.(c := ResumeThread(w.c, t), cause := With(w.cause, t, EOK)) else w
    case TimeOut(t) =>
      if t in w.c.waiters then w.(c := Expire(w.c, t), cause := With(w.cause, t, ETIMEOUT)) else w
    case ServeAll =>
      w.(c := ResumeAll(w.c), cause := (x: Tid) => if x in w.c.waiters then ERROR else w.cause(x))
    case RunOn(t) => w.(c := Leave(w.c, t))
  }

  function Run(w: Timed, ops: seq<ListOp>): Timed
    decreases |ops|
  {
    if ops == [] then w else Run(Step(w, ops[0]), ops[1..])
  }

  ghost predicate InOrder(w: Timed) {
    && Valid(w.c)
    && Ordered(w.c.flag, w.c.waiters, w.c.prio, w.arrival)
    && (forall x <- w.c.waiters :: w.arrival(x) < w.clock)
  }

  lemma StepInOrder(w: Timed, op: ListOp)
    requires InOrder(w)
    ensures InOrder(Step(w, op))
  {
    var c, a := w.c, w.arrival;
    match op
    case Join(t) =>
      if Idle(c, t) {
        SuspendValid(c, t);
        var b := With(a, t, w.clock);
        OrderedSameArrival(c.flag, c.waiters, c.prio, a, b);
        EnqueueOrdered(c.flag, c.waiters, c.prio, b, t);
      }
    case Serve =>
      if c.waiters != [] {
        ResumeValid(c);
      }
    case Pick(t) =>
      if t in c.waiters {
        ResumeThreadValid(c, t);
        WithoutOrdered(c.flag, c.waiters, c.prio, a, t);
      }
    case TimeOut(t) =>
      if t in c.waiters {
        ResumeThreadValid(c, t);
        WithoutOrdered(c.flag, c.waiters, c.prio, a, t);
      }
    case ServeAll => ResumeAllEffect(c);
    case RunOn(t) =>
  }

  lemma OrderedSameArrival(flag: Flag, q: seq<Tid>, prio: Tid -> nat, a: Tid -> nat, b: Tid -> nat)
    requires Ordered(flag, q, prio, a) && forall x <- q :: a(x) == b(x)
    ensures Ordered(flag, q, prio, b)
  {
    forall i, j | 0 <= i < j < |q| ensures Before(flag, prio, b, q[i], q[j]) {
      assert Before(flag, prio, a, q[i], q[j]);
      assert q[i] in q && q[j] in q;
    }
  }

  /** In every reachable state the list is in service order, so a resume always picks the thread served
      before all others: the earliest under FIFO, the earliest of the most urgent under PRIO. */
  lemma {:induction false} ServiceOrder(w: Timed, ops: seq<ListOp>, x: Tid)
    requires w.c.waiters == []
    ensures var r := Run(w, ops);
            && InOrder(r)
            && (x in r.c.waiters && x != r.c.waiters[0] ==>
                  Before(r.c.flag, r.c.prio, r.arrival, r.c.waiters[0], x))
  {
    RunInOrder(w, ops);
    var r := Run(w, ops);
    if x in r.c.waiters && x != r.c.waiters[0] {
      HeadIsNext(r.c.flag, r.c.waiters, r.c.prio, r.arrival, x);
    }
  }

  lemma {:induction false} RunInOrder(w: Timed, ops: seq<ListOp>)
    requires InOrder(w)
    ensures InOrder(Run(w, ops))
    decreases |ops|
  {
    if ops != [] {
      StepInOrder(w, ops[0]);
      RunInOrder(Step(w, ops[0]), ops[1..]);
    }
  }

  ghost predicate Caused(w: Timed) {
    Valid(w.c) && forall x <- w.c.ready :: w.c.error(x) == w.cause(x)
  }

  lemma StepCaused(w: Timed, op: ListOp)
    requires Caused(w)
    ensures Caused(Step(w, op))
  {
    match op
    case Join(t) => if Idle(w.c, t) { SuspendValid(w.c, t); }
    case Serve => if w.c.waiters != [] { ResumeValid(w.c); }
    case Pick(t) => if t in w.c.waiters { ResumeThreadValid(w.c, t); }
    case TimeOut(t) => if t in w.c.waiters { ResumeThreadValid(w.c, t); }
    case ServeAll => ResumeAllEffect(w.c);
    case RunOn(t) =>
  }

  /** In every reachable state a thread that is to run on finds in its error why it left the list: RT_EOK after a
      resume, -RT_ETIMEOUT after its timer, -RT_ERROR after everybody was woken. */
  lemma {:induction false} CauseReported(w: Timed, ops: seq<ListOp>, t: Tid)
    requires Caused(w)
    ensures var r := Run(w, ops); t in r.c.ready ==> r.c.error(t) == r.cause(t)
    decreases |ops|
  {
    if ops != [] {
      StepCaused(w, ops[0]);
      CauseReported(Step(w, ops[0]), ops[1..], t);
    }
  }
}
