/** The message queue from sender to receiver, over every run: what the completed receives have stored, and that every
    message linked is delivered once, in some receiver's hands, or queued. */
module MessageQueueDelivery {
  import opened Kernel
  import opened WaitList
  import opened MessageQueue
  import opened MessageQueueInv
  import opened MessageQueueRuns

  /** A completed receive: what the caller asked for and got, and the message it was given. */
  datatype Delivery = Delivery(size: nat, out: seq<Byte>, message: Message)

  /** The books of MessageQueueRuns, with the receivers that took a message and have not completed, in the order in
      which they took it, and the completed receives. */
  datatype Ledger = Ledger(w: World, holding: seq<Tid>, delivered: seq<Delivery>)

  ghost function Note(l: Ledger, a: Action): Ledger
    requires Inv(l.w.s)
  {
    var w := Record(l.w, a);
    if Takes(l.w.s, a) then Ledger(w, l.holding + [a.t], l.delivered)
    else if a.PutBackStep? && Enabled(l.w.s, a) then
      var c := l.w.s.calls[a.t];
      Ledger(w, Without(l.holding, a.t), l.delivered + [Delivery(c.size, c.out, c.message)])
    else l.(w := w)
  }

  ghost function NoteRun(l: Ledger, acts: seq<Action>): Ledger
    requires Inv(l.w.s)
    decreases |acts|
  {
    if acts == [] then l else NoteStep(l, acts[0]); NoteRun(Note(l, acts[0]), acts[1..])
  }

  lemma NoteStep(l: Ledger, a: Action)
    requires Inv(l.w.s)
    ensures Note(l, a).w == Record(l.w, a) && Note(l, a).w.s == Apply(l.w.s, a).0
    ensures Inv(Note(l, a).w.s)
  {
    ApplyInv(l.w.s, a);
    RecordTaken(l.w, a);
  }

  lemma RecordTaken(w: World, a: Action)
    requires Inv(w.s)
    ensures var r := Record(w, a);
            && r.s == Apply(w.s, a).0
            && r.taken == if Takes(w.s, a) then w.taken + [InHand(r.s.calls, a.t)] else w.taken
  {
  }

  predicate Holding(calls: map<Tid, Call>, t: Tid) {
    t in calls && calls[t].Draining?
  }

  function InHand(calls: map<Tid, Call>, t: Tid): Message {
    if Holding(calls, t) then calls[t].message else []
  }

  /** The messages in the hands of these receivers. */
  ghost function Held(calls: map<Tid, Call>, q: seq<Tid>): multiset<Message> {
    if q == [] then multiset{} else multiset{InHand(calls, q[0])} + Held(calls, q[1..])
  }

  ghost function Given(ds: seq<Delivery>): multiset<Message> {
    if ds == [] then multiset{} else Given(ds[..|ds| - 1]) + multiset{ds[|ds| - 1].message}
  }

  /** The receive stored as many bytes as fit, and as far as the message goes they are the message. */
  predicate Intact(d: Delivery, msgSize: nat) {
    |d.out| == Min(d.size, msgSize) && Agree(d.out, d.message, Min(|d.message|, |d.out|))
  }

  predicate Agree(a: seq<Byte>, b: seq<Byte>, k: nat) {
    k <= |a| && k <= |b| && a[..k] == b[..k]
  }

  ghost predicate Accounted(l: Ledger) {
    Inv(l.w.s) && Books(l.w.s.calls, l.holding, l.delivered, l.w.taken, l.w.s.msgSize)
  }

  /** holding are the receivers that hold a message; the messages delivered and theirs are the messages taken; and all
      deliveries are intact. */
  ghost predicate Books(calls: map<Tid, Call>, holding: seq<Tid>, ds: seq<Delivery>,
                        taken: seq<Message>, msgSize: nat)
  {
    && Distinct(holding)
    && (forall t :: t in holding <==> Holding(calls, t))
    && Given(ds) + Held(calls, holding) == multiset(taken)
    && (forall d <- ds :: Intact(d, msgSize))
  }

  /** Thread t holds the same message in both, or none. */
  predicate SameHand(c: map<Tid, Call>, d: map<Tid, Call>, t: Tid) {
    (Holding(c, t) <==> Holding(d, t)) && InHand(c, t) == InHand(d, t)
  }

  // ---- Sums over the receivers.

  lemma {:induction false} HeldSame(c: map<Tid, Call>, d: map<Tid, Call>, q: seq<Tid>)
    requires forall t <- q :: SameHand(c, d, t)
    ensures Held(c, q) == Held(d, q)
  {
    if q != [] {
      assert SameHand(c, d, q[0]);
      HeldSame(c, d, q[1..]);
    }
  }

  lemma {:induction false} HeldAppend(c: map<Tid, Call>, q: seq<Tid>, t: Tid)
    ensures Held(c, q + [t]) == Held(c, q) + multiset{InHand(c, t)}
  {
    if q == [] {
      assert q + [t] == [t];
      assert Held(c, [t][1..]) == multiset{};
    } else {
      HeldAppend(c, q[1..], t);
      assert (q + [t])[1..] == q[1..] + [t];
    }
  }

  lemma {:induction false} HeldWithout(c: map<Tid, Call>, q: seq<Tid>, t: Tid)
    requires t in q
    ensures Held(c, Without(q, t)) + multiset{InHand(c, t)} == Held(c, q)
  {
    if q[0] != t {
      HeldWithout(c, q[1..], t);
      var r := [q[0]] + Without(q[1..], t);
      assert r[1..] == Without(q[1..], t);
    }
  }

  // ---- Steps.

  lemma BooksSame(c: map<Tid, Call>, d: map<Tid, Call>,
                  holding: seq<Tid>, ds: seq<Delivery>, taken: seq<Message>, msgSize: nat)
    requires Books(c, holding, ds, taken, msgSize) && forall x :: SameHand(c, d, x)
    ensures Books(d, holding, ds, taken, msgSize)
  {
    forall x ensures Holding(c, x) <==> Holding(d, x) {
      assert SameHand(c, d, x);
    }
    HeldSame(c, d, holding);
  }

  lemma BooksTake(c: map<Tid, Call>, d: map<Tid, Call>, t: Tid,
                  holding: seq<Tid>, ds: seq<Delivery>, taken: seq<Message>, msgSize: nat)
    requires Books(c, holding, ds, taken, msgSize) && forall x :: x != t ==> SameHand(c, d, x)
    requires !Holding(c, t) && Holding(d, t)
    ensures Books(d, holding + [t], ds, taken + [InHand(d, t)], msgSize)
  {
    JoinsHolding(c, d, t, holding);
    HeldSame(c, d, holding);
    HeldAppend(d, holding, t);
    assert multiset(taken + [InHand(d, t)]) == multiset(taken) + multiset{InHand(d, t)};
  }

  lemma JoinsHolding(c: map<Tid, Call>, d: map<Tid, Call>, t: Tid, holding: seq<Tid>)
    requires Distinct(holding) && forall x :: x in holding <==> Holding(c, x)
    requires !Holding(c, t) && Holding(d, t) && forall x :: x != t ==> SameHand(c, d, x)
    ensures Distinct(holding + [t]) && forall x :: x in holding + [t] <==> Holding(d, x)
  {
    forall x ensures x in holding + [t] <==> Holding(d, x) {
      if x != t {
        assert SameHand(c, d, x);
      }
    }
    assert t !in holding;
  }

  lemma BooksPut(c: map<Tid, Call>, d: map<Tid, Call>, t: Tid, e: Delivery,
                 holding: seq<Tid>, ds: seq<Delivery>, taken: seq<Message>, msgSize: nat)
    requires Books(c, holding, ds, taken, msgSize) && forall x :: x != t ==> SameHand(c, d, x)
    requires Holding(c, t) && !Holding(d, t) && e.message == InHand(c, t) && Intact(e, msgSize)
    ensures Books(d, Without(holding, t), ds + [e], taken, msgSize)
  {
    LeavesHolding(c, d, t, holding);
    HeldSame(c, d, Without(holding, t));
    HeldWithout(c, holding, t);
    GivenAppend(ds, e);
    forall x | x in ds + [e] ensures Intact(x, msgSize) {
      assert x in ds || x == e;
    }
  }

  lemma LeavesHolding(c: map<Tid, Call>, d: map<Tid, Call>, t: Tid, holding: seq<Tid>)
    requires Distinct(holding) && forall x :: x in holding <==> Holding(c, x)
    requires Holding(c, t) && !Holding(d, t) && forall x :: x != t ==> SameHand(c, d, x)
    ensures Distinct(Without(holding, t)) && t !in Without(holding, t)
    ensures forall x :: x in Without(holding, t) <==> Holding(d, x)
  {
    WithoutMembers(holding, t);
    forall x ensures x in Without(holding, t) <==> Holding(d, x) {
      if x != t {
        assert SameHand(c, d, x);
      }
    }
  }

  lemma GivenAppend(ds: seq<Delivery>, e: Delivery)
    ensures Given(ds + [e]) == Given(ds) + multiset{e.message}
  {
    assert (ds + [e])[..|ds|] == ds;
  }

  /** Whoever holds a message keeps it, except in his second section. */
  lemma HandKept(s: Mq, a: Action, t: Tid)
    requires Inv(s) && Holding(s.calls, t) && !(a == PutBackStep(t) && Enabled(s, a))
    ensures SameHand(s.calls, Apply(s, a).0.calls, t) && !(Takes(s, a) && a.t == t)
  {
    if a != PutBackStep(t) {
      MessageKept(s, a, t);
    }
  }

  /** Whoever gets one in a step takes it in that step. */
  lemma HandTaken(s: Mq, a: Action, t: Tid)
    requires Inv(s) && !Holding(s.calls, t)
    ensures Holding(Apply(s, a).0.calls, t) <==> Takes(s, a) && a.t == t
  {
    if a.ResetStep? {
      ResetEffect(s);
    } else if !a.RecvStep? && !a.RecvResumeStep? {
      NoHandTaken(s, a, t);
    }
  }

  lemma NoHandTaken(s: Mq, a: Action, t: Tid)
    requires Inv(s) && !Holding(s.calls, t) && !a.RecvStep? && !a.RecvResumeStep? && !a.ResetStep?
    ensures !Holding(Apply(s, a).0.calls, t)
  {
  }

  lemma OthersSame(s: Mq, a: Action, t: Tid)
    requires Inv(s) && !(Takes(s, a) && a.t == t) && !(a == PutBackStep(t) && Enabled(s, a))
    ensures SameHand(s.calls, Apply(s, a).0.calls, t)
  {
    if Holding(s.calls, t) {
      HandKept(s, a, t);
    } else {
      HandTaken(s, a, t);
    }
  }

  /** The end of a receive: its copy is complete. */
  lemma PutBackIntact(s: Mq, t: Tid)
    requires Inv(s) && Enabled(s, PutBackStep(t))
    ensures var c := s.calls[t]; Intact(Delivery(c.size, c.out, c.message), s.msgSize)
    ensures Holding(s.calls, t) && !Holding(Apply(s, PutBackStep(t)).0.calls, t)
  {
    assert CallContents(s, s.calls[t]);
  }

  lemma TakesHolds(s: Mq, a: Action)
    requires Takes(s, a)
    ensures !Holding(s.calls, a.t) && Holding(Apply(s, a).0.calls, a.t)
  {
  }

  lemma StepAccounted(l: Ledger, a: Action)
    requires Accounted(l)
    ensures Accounted(Note(l, a))
  {
    var s := l.w.s;
    var c, d := s.calls, Apply(s, a).0.calls;
    NoteStep(l, a);
    RecordTaken(l.w, a);
    ApplySameSize(s, a);
    if Takes(s, a) {
      TakesHolds(s, a);
      forall x | x != a.t ensures SameHand(c, d, x) {
        OthersSame(s, a, x);
      }
      BooksTake(c, d, a.t, l.holding, l.delivered, l.w.taken, s.msgSize);
    } else if a.PutBackStep? && Enabled(s, a) {
      PutBackIntact(s, a.t);
      forall x | x != a.t ensures SameHand(c, d, x) {
        OthersSame(s, a, x);
      }
      BooksPut(c, d, a.t, Delivery(c[a.t].size, c[a.t].out, c[a.t].message),
               l.holding, l.delivered, l.w.taken, s.msgSize);
    } else {
      forall x ensures SameHand(c, d, x) {
        OthersSame(s, a, x);
      }
      BooksSame(c, d, l.holding, l.delivered, l.w.taken, s.msgSize);
    }
  }

  lemma {:induction false} RunAccounted(l: Ledger, acts: seq<Action>)
    requires Accounted(l)
    ensures Accounted(NoteRun(l, acts))
    decreases |acts|
  {
    if acts != [] {
      StepAccounted(l, acts[0]);
      NoteStep(l, acts[0]);
      RunAccounted(Note(l, acts[0]), acts[1..]);
    }
  }

  ghost predicate Opened(l: Ledger) {
    Fresh(l.w.s) && l.w.linked == l.w.taken == [] && l.holding == [] && l.delivered == []
  }

  /** End to end, over every run: each completed receive stored min(size, msg_size) bytes, which are its message's as
      far as that goes; and the messages delivered, with those in the hands of the receivers between their two sections,
      are the messages taken off the queue, each once. */
  lemma DeliversTaken(l: Ledger, acts: seq<Action>)
    requires Opened(l)
    ensures Inv(l.w.s)
    ensures var r := NoteRun(l, acts);
            && (forall d <- r.delivered :: Intact(d, r.w.s.msgSize))
            && Distinct(r.holding) && (forall t :: t in r.holding <==> Holding(r.w.s.calls, t))
            && Given(r.delivered) + Held(r.w.s.calls, r.holding) == multiset(r.w.taken)
  {
    FreshInv(l.w.s);
    RunAccounted(l, acts);
  }

  /** So without resets every message linked, as its sender passed it, was delivered once, or is in the hands of one
      receiver, or is queued. */
  lemma DeliversLinked(l: Ledger, acts: seq<Action>)
    requires Opened(l) && forall a <- acts :: !a.ResetStep?
    ensures Inv(l.w.s)
    ensures var r := NoteRun(l, acts);
            Given(r.delivered) + Held(r.w.s.calls, r.holding) + multiset(Messages(r.w.s)) == multiset(r.w.linked)
  {
    DeliversTaken(l, acts);
    assert Messages(l.w.s) == [];
    NothingLost(l.w, acts);
    NotesRecord(l, acts);
  }

  lemma {:induction false} NotesRecord(l: Ledger, acts: seq<Action>)
    requires Inv(l.w.s)
    ensures NoteRun(l, acts).w == RecordRun(l.w, acts)
    decreases |acts|
  {
    if acts != [] {
      NoteStep(l, acts[0]);
      NotesRecord(Note(l, acts[0]), acts[1..]);
    }
  }
}
