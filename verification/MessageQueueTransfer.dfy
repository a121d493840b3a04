/** The steps of a send and of a receive lead to their end: the message arrives in the queue, and out of it. */
module MessageQueueTransfer {
  import opened Kernel
  import opened MessageQueue
  import opened MessageQueueInv
  import opened MessageQueueRuns
  import opened MessageQueueOutcome

  function Repeat(a: Action, n: nat): seq<Action> {
    if n == 0 then [] else [a] + Repeat(a, n - 1)
  }

  /** The steps of a sender that got a node. */
  function FillSteps(t: Tid, n: nat): seq<Action> {
    Repeat(CopyInStep(t), n) + [LinkStep(t)]
  }

  /** The steps of a send that need not wait. */
  function SendSteps(t: Tid, buf: seq<Byte>, timeout: int): seq<Action> {
    [SendStep(t, buf, timeout)] + ([ClearNextStep(t)] + FillSteps(t, |buf|))
  }

  function UrgentSteps(t: Tid, buf: seq<Byte>): seq<Action> {
    [UrgentStep(t, buf)] + FillSteps(t, |buf|)
  }

  /** The steps of a receive of n bytes that need not wait, up to where its copy is complete. */
  function RecvSteps(t: Tid, size: nat, timeout: int, n: nat): seq<Action> {
    [RecvStep(t, size, timeout)] + Repeat(CopyOutStep(t), n)
  }

  lemma {:induction false} RunConcat(s: Mq, a: seq<Action>, b: seq<Action>)
    requires Inv(s)
    ensures Inv(Run(s, a)) && Run(s, a + b) == Run(Run(s, a), b)
    decreases |a|
  {
    if a == [] {
      assert a + b == b;
    } else {
      ApplyInv(s, a[0]);
      assert (a + b)[1..] == a[1..] + b;
      RunConcat(Apply(s, a[0]).0, a[1..], b);
    }
  }

  lemma RunFirst(s: Mq, a: Action, rest: seq<Action>)
    requires Inv(s)
    ensures Inv(Apply(s, a).0) && Run(s, [a] + rest) == Run(Apply(s, a).0, rest)
  {
    ApplyInv(s, a);
    assert ([a] + rest)[1..] == rest;
  }

  // ---- Copies.

  /** The call of thread t in the queue r is c, everything else but the memory is as in s. */
  ghost predicate Moved(s: Mq, r: Mq, t: Tid, c: Call) {
    r == s.(data := r.data, calls := s.calls[t := c])
  }

  lemma CopyInNext(s: Mq, t: Tid, rest: seq<Action>) returns (q: Mq)
    requires Inv(s) && Enabled(s, CopyInStep(t))
    ensures Inv(q) && Run(s, [CopyInStep(t)] + rest) == Run(q, rest)
    ensures t in q.calls && q.calls[t] == s.calls[t].(done := s.calls[t].done + 1) && Moved(s, q, t, q.calls[t])
  {
    RunFirst(s, CopyInStep(t), rest);
    q := Apply(s, CopyInStep(t)).0;
  }

  lemma MovedOn(s: Mq, q: Mq, t: Tid, rest: seq<Action>, d: Call)
    requires Inv(q) && t in q.calls && Moved(s, q, t, q.calls[t]) && Moved(q, Run(q, rest), t, d)
    ensures Moved(s, Run(q, rest), t, d)
  {
    assert s.calls[t := q.calls[t]][t := d] == s.calls[t := d];
  }

  /** Each step of the copy moves it on by one byte, and nothing else changes but the memory: the n steps that lead the
      call to d. */
  lemma {:induction false} CopiesIn(s: Mq, t: Tid, n: nat, d: Call)
    requires Inv(s) && t in s.calls && s.calls[t].Filling? && s.calls[t].cleared != s.calls[t].urgent
    requires s.calls[t].done + n <= |s.calls[t].buf| && d == s.calls[t].(done := s.calls[t].done + n)
    ensures Moved(s, Run(s, Repeat(CopyInStep(t), n)), t, d)
    decreases n
  {
    if n == 0 {
      NotMoved(s, t);
    } else {
      var q := CopyInNext(s, t, Repeat(CopyInStep(t), n - 1));
      CopiesIn(q, t, n - 1, d);
      MovedOn(s, q, t, Repeat(CopyInStep(t), n - 1), d);
    }
  }

  lemma NotMoved(s: Mq, t: Tid)
    requires t in s.calls
    ensures Moved(s, s, t, s.calls[t])
  {
    assert s.calls[t := s.calls[t]] == s.calls;
  }

  lemma CopyOutNext(s: Mq, t: Tid, rest: seq<Action>) returns (q: Mq)
    requires Inv(s) && Enabled(s, CopyOutStep(t))
    ensures Inv(q) && Run(s, [CopyOutStep(t)] + rest) == Run(q, rest)
    ensures t in q.calls && q.calls[t].Draining? && |q.calls[t].out| == |s.calls[t].out| + 1
    ensures q.calls[t] == s.calls[t].(out := q.calls[t].out) && Moved(s, q, t, q.calls[t])
  {
    RunFirst(s, CopyOutStep(t), rest);
    q := Apply(s, CopyOutStep(t)).0;
  }

  lemma {:induction false} CopiesOut(s: Mq, t: Tid, n: nat) returns (d: Call)
    requires Inv(s) && t in s.calls && s.calls[t].Draining?
    requires |s.calls[t].out| + n <= Min(s.calls[t].size, s.msgSize)
    ensures Moved(s, Run(s, Repeat(CopyOutStep(t), n)), t, d)
    ensures d.Draining? && |d.out| == |s.calls[t].out| + n && d == s.calls[t].(out := d.out)
    decreases n
  {
    if n == 0 {
      NotMoved(s, t);
      d := s.calls[t];
    } else {
      var q := CopyOutNext(s, t, Repeat(CopyOutStep(t), n - 1));
      d := CopiesOut(q, t, n - 1);
      MovedOn(s, q, t, Repeat(CopyOutStep(t), n - 1), d);
    }
  }

  // ---- Sends.

  /** The queue holds these messages, and these calls are under way. */
  ghost predicate Holds(r: Mq, messages: seq<Message>, calls: map<Tid, Call>) {
    Inv(r) && Messages(r) == messages && r.calls == calls
  }

  lemma LinkHolds(s: Mq, t: Tid)
    requires Inv(s) && Enabled(s, LinkStep(t))
    ensures var c := s.calls[t];
            Holds(Apply(s, LinkStep(t)).0,
                  if c.urgent then [c.buf] + Messages(s) else Messages(s) + [c.buf], s.calls - {t})
  {
    ApplyInv(s, LinkStep(t));
    LinkOutcome(s, t);
  }

  /** From a node in hand the copy and the second section lead to the message in the queue. */
  lemma FillLeads(s: Mq, t: Tid)
    requires Inv(s) && t in s.calls && s.calls[t].Filling? && s.calls[t].cleared != s.calls[t].urgent
    requires s.calls[t].done == 0
    ensures var c := s.calls[t];
            Holds(Run(s, FillSteps(t, |c.buf|)),
                  if c.urgent then [c.buf] + Messages(s) else Messages(s) + [c.buf], s.calls - {t})
  {
    var c := s.calls[t];
    var copies := Repeat(CopyInStep(t), |c.buf|);
    CopiesIn(s, t, |c.buf|, c.(done := |c.buf|));
    RunConcat(s, copies, [LinkStep(t)]);
    var q := Run(s, copies);
    Copied(s, q, t);
    RunFirst(q, LinkStep(t), []);
    assert [LinkStep(t)] + [] == [LinkStep(t)];
    LinkHolds(q, t);
  }

  /** A finished copy. */
  lemma Copied(s: Mq, q: Mq, t: Tid)
    requires t in s.calls && s.calls[t].Filling? && s.calls[t].cleared != s.calls[t].urgent
    requires Moved(s, q, t, s.calls[t].(done := |s.calls[t].buf|))
    ensures Enabled(q, LinkStep(t)) && Messages(q) == Messages(s) && q.calls - {t} == s.calls - {t}
    ensures q.calls[t].buf == s.calls[t].buf && q.calls[t].urgent == s.calls[t].urgent
  {
  }

  /** What a sender that got a node goes on from. */
  ghost predicate Starts(s: Mq, r: Mq, t: Tid, buf: seq<Byte>, cleared: bool, urgent: bool) {
    && Inv(r) && Messages(r) == Messages(s)
    && t in r.calls && r.calls[t].Filling? && r.calls == s.calls[t := r.calls[t]]
    && r.calls[t] == Filling(r.calls[t].node, buf, 0, cleared, urgent)
  }

  lemma SendStarts(s: Mq, t: Tid, buf: seq<Byte>, timeout: int, rest: seq<Action>) returns (q: Mq)
    requires Inv(s) && t !in s.calls && |buf| <= s.msgSize && s.free != []
    ensures Starts(s, q, t, buf, false, false)
    ensures Run(s, [SendStep(t, buf, timeout)] + rest) == Run(q, rest)
  {
    RunFirst(s, SendStep(t, buf, timeout), rest);
    SendOutcome(s, t, buf, timeout);
    q := Apply(s, SendStep(t, buf, timeout)).0;
  }

  lemma ClearStarts(s: Mq, q: Mq, t: Tid, buf: seq<Byte>, rest: seq<Action>) returns (p: Mq)
    requires Starts(s, q, t, buf, false, false)
    ensures Starts(s, p, t, buf, true, false)
    ensures Run(q, [ClearNextStep(t)] + rest) == Run(p, rest)
  {
    RunFirst(q, ClearNextStep(t), rest);
    p := Apply(q, ClearNextStep(t)).0;
    assert p.calls == s.calls[t := p.calls[t]];
  }

  lemma UrgentStarts(s: Mq, t: Tid, buf: seq<Byte>, rest: seq<Action>) returns (q: Mq)
    requires Inv(s) && t !in s.calls && |buf| <= s.msgSize && s.free != []
    ensures Starts(s, q, t, buf, false, true)
    ensures Run(s, [UrgentStep(t, buf)] + rest) == Run(q, rest)
  {
    RunFirst(s, UrgentStep(t, buf), rest);
    UrgentOutcome(s, t, buf);
    q := Apply(s, UrgentStep(t, buf)).0;
  }

  lemma StartsLead(s: Mq, q: Mq, t: Tid, buf: seq<Byte>, urgent: bool)
    requires t !in s.calls && Starts(s, q, t, buf, !urgent, urgent)
    ensures Holds(Run(q, FillSteps(t, |buf|)),
                  if urgent then [buf] + Messages(s) else Messages(s) + [buf], s.calls)
  {
    FillLeads(q, t);
    assert q.calls - {t} == s.calls;
  }

  lemma ClearLeads(s: Mq, q: Mq, t: Tid, buf: seq<Byte>)
    requires t !in s.calls && Starts(s, q, t, buf, false, false)
    ensures Holds(Run(q, [ClearNextStep(t)] + FillSteps(t, |buf|)), Messages(s) + [buf], s.calls)
  {
    var p := ClearStarts(s, q, t, buf, FillSteps(t, |buf|));
    StartsLead(s, p, t, buf, false);
  }

  /** A send that finds a node ends with its message at the back of the queue, and nobody else's call touched. */
  lemma SendArrives(s: Mq, t: Tid, buf: seq<Byte>, timeout: int)
    requires Inv(s) && t !in s.calls && |buf| <= s.msgSize && s.free != []
    ensures Holds(Run(s, SendSteps(t, buf, timeout)), Messages(s) + [buf], s.calls)
  {
    var q := SendStarts(s, t, buf, timeout, [ClearNextStep(t)] + FillSteps(t, |buf|));
    ClearLeads(s, q, t, buf);
  }

  /** An urgent one ends with it at the front. */
  lemma UrgentArrives(s: Mq, t: Tid, buf: seq<Byte>)
    requires Inv(s) && t !in s.calls && |buf| <= s.msgSize && s.free != []
    ensures Holds(Run(s, UrgentSteps(t, buf)), [buf] + Messages(s), s.calls)
  {
    var q := UrgentStarts(s, t, buf, FillSteps(t, |buf|));
    StartsLead(s, q, t, buf, true);
  }

  // ---- Receives.

  /** The shorter of the two begins the longer. */
  predicate Begins(out: seq<Byte>, message: Message) {
    out <= message || message <= out
  }

  /** The copy of thread t is complete: n bytes that begin with the message or are its beginning. */
  ghost predicate CopiedOut(r: Mq, t: Tid, n: nat, message: Message) {
    Inv(r) && Enabled(r, PutBackStep(t)) && |r.calls[t].out| == n && Begins(r.calls[t].out, message)
  }

  /** Its second section returns RT_EOK and leaves these messages and these calls. */
  ghost predicate PutsBack(r: Mq, t: Tid, messages: seq<Message>, calls: map<Tid, Call>) {
    && Inv(r) && Enabled(r, PutBackStep(t))
    && Apply(r, PutBackStep(t)).1 == Returned(EOK) && Holds(Apply(r, PutBackStep(t)).0, messages, calls)
  }

  /** The first section of a receive that finds a message. */
  ghost predicate Took(s: Mq, r: Mq, t: Tid, size: nat, message: Message, messages: seq<Message>) {
    && Inv(r) && t in r.calls && r.calls[t].Draining? && r.calls == s.calls[t := r.calls[t]]
    && r.calls[t].size == size && r.calls[t].out == [] && r.calls[t].message == message
    && Messages(r) == messages && r.msgSize == s.msgSize
  }

  lemma RecvTakes(s: Mq, t: Tid, size: nat, timeout: int, rest: seq<Action>) returns (q: Mq)
    requires Inv(s) && t !in s.calls && s.queue != []
    ensures Took(s, q, t, size, Messages(s)[0], Messages(s)[1..])
    ensures Run(s, [RecvStep(t, size, timeout)] + rest) == Run(q, rest)
  {
    RecvOutcome(s, t, size, timeout);
    RunFirst(s, RecvStep(t, size, timeout), rest);
    q := Apply(s, RecvStep(t, size, timeout)).0;
    GotFirst(s, q, t, size);
  }

  lemma GotFirst(s: Mq, r: Mq, t: Tid, size: nat)
    requires GotMessage(s, r, t, size)
    ensures r.calls[t].message == Messages(s)[0] && Messages(r) == Messages(s)[1..]
    ensures r.calls == s.calls[t := r.calls[t]]
  {
  }

  /** From a message in hand the copy and the second section lead to the end of the call. */
  lemma DrainLeads(s: Mq, t: Tid)
    requires Inv(s) && t in s.calls && s.calls[t].Draining? && s.calls[t].out == []
    ensures var n := Min(s.calls[t].size, s.msgSize);
            var r := Run(s, Repeat(CopyOutStep(t), n));
            CopiedOut(r, t, n, s.calls[t].message) && PutsBack(r, t, Messages(s), s.calls - {t})
  {
    var n := Min(s.calls[t].size, s.msgSize);
    var acts := Repeat(CopyOutStep(t), n);
    var d := CopiesOut(s, t, n);
    RunInv(s, acts);
    CopyComplete(s, Run(s, acts), t, n, d);
    PutBackHolds(Run(s, acts), t);
  }

  lemma CopyComplete(s: Mq, r: Mq, t: Tid, n: nat, d: Call)
    requires t in s.calls && s.calls[t].Draining? && n == Min(s.calls[t].size, s.msgSize)
    requires Inv(r) && Moved(s, r, t, d) && d.Draining? && |d.out| == n && d == s.calls[t].(out := d.out)
    ensures CopiedOut(r, t, n, s.calls[t].message)
    ensures Messages(r) == Messages(s) && r.calls - {t} == s.calls - {t}
  {
    assert CallContents(r, r.calls[t]);
  }

  lemma PutBackHolds(s: Mq, t: Tid)
    requires Inv(s) && Enabled(s, PutBackStep(t))
    ensures PutsBack(s, t, Messages(s), s.calls - {t})
  {
    ApplyInv(s, PutBackStep(t));
    PutBackOutcome(s, t);
  }

  /** A receive that finds a message ends with as much of the first one as fits, and the rest of the queue as it was. */
  lemma RecvDelivers(s: Mq, t: Tid, size: nat, timeout: int)
    requires Inv(s) && t !in s.calls && s.queue != []
    ensures var n := Min(size, s.msgSize);
            var r := Run(s, RecvSteps(t, size, timeout, n));
            CopiedOut(r, t, n, Messages(s)[0]) && PutsBack(r, t, Messages(s)[1..], s.calls)
  {
    var q := RecvTakes(s, t, size, timeout, Repeat(CopyOutStep(t), Min(size, s.msgSize)));
    TookLeads(s, q, t, size, Messages(s)[0], Messages(s)[1..]);
  }

  lemma RecvFrom(s: Mq, t: Tid, size: nat, n: nat, message: Message, rest: seq<Message>, calls: map<Tid, Call>)
    requires Holds(s, [message] + rest, calls) && t !in calls && n == Min(size, s.msgSize)
    ensures var r := Run(s, RecvSteps(t, size, 0, n));
            CopiedOut(r, t, n, message) && PutsBack(r, t, rest, calls)
  {
    assert |Messages(s)| == |s.queue|;
    assert ([message] + rest)[1..] == rest;
    RecvDelivers(s, t, size, 0);
  }

  lemma Whole(r: Mq, t: Tid, buf: Message)
    requires CopiedOut(r, t, |buf|, buf)
    ensures Enabled(r, PutBackStep(t)) && r.calls[t].out == buf
  {
  }

  lemma TookLeads(s: Mq, q: Mq, t: Tid, size: nat, message: Message, messages: seq<Message>)
    requires t !in s.calls && Took(s, q, t, size, message, messages)
    ensures var n := Min(size, s.msgSize);
            var r := Run(q, Repeat(CopyOutStep(t), n));
            CopiedOut(r, t, n, message) && PutsBack(r, t, messages, s.calls)
  {
    DrainLeads(q, t);
    assert q.calls - {t} == s.calls;
  }

  /** A message sent through an empty queue comes out as it went in, to a buffer of its length. */
  lemma SendThenRecv(s: Mq, t: Tid, u: Tid, buf: seq<Byte>)
    requires Inv(s) && t !in s.calls && u !in s.calls && |buf| <= s.msgSize && s.free != [] && s.queue == []
    ensures var q := Run(s, SendSteps(t, buf, 0));
            Holds(q, [buf], s.calls)
            && var r := Run(q, RecvSteps(u, |buf|, 0, |buf|));
            Enabled(r, PutBackStep(u)) && r.calls[u].out == buf && PutsBack(r, u, [], s.calls)
  {
    SendArrives(s, t, buf, 0);
    assert Messages(s) + [buf] == [buf];
    RunSame(s, SendSteps(t, buf, 0));
    RecvOnly(Run(s, SendSteps(t, buf, 0)), u, buf, s.calls);
  }

  lemma RecvOnly(s: Mq, t: Tid, buf: seq<Byte>, calls: map<Tid, Call>)
    requires Holds(s, [buf], calls) && t !in calls && |buf| <= s.msgSize
    ensures var r := Run(s, RecvSteps(t, |buf|, 0, |buf|));
            Enabled(r, PutBackStep(t)) && r.calls[t].out == buf && PutsBack(r, t, [], calls)
  {
    assert [buf] + [] == [buf];
    RecvFrom(s, t, |buf|, |buf|, buf, [], calls);
    Whole(Run(s, RecvSteps(t, |buf|, 0, |buf|)), t, buf);
  }

  lemma {:induction false} RunSame(s: Mq, acts: seq<Action>)
    requires Inv(s)
    ensures Run(s, acts).msgSize == s.msgSize
    decreases |acts|
  {
    if acts != [] {
      ApplyInv(s, acts[0]);
      ApplySameSize(s, acts[0]);
      RunSame(Apply(s, acts[0]).0, acts[1..]);
    }
  }
}
