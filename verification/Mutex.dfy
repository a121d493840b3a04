/** The recursive mutex with priority inheritance: ownership, hand-off, and the priority its owner runs at. */
module Mutex {
  import opened Arithmetic
  import opened Kernel
  import opened WaitList
  import opened IpcObject

  const HOLD_MAX := UINT8_MAX
  const VALUE_MAX := UINT16_MAX
  const NO_PRIORITY := 0xFF

  /** A smaller number is a more urgent priority; parent.prio is the threads' current_priority. */
  datatype State = State(parent: Ipc, value: nat, owner: Option<Tid>, original: nat, hold: nat)

  function SetPrio(c: Ipc, t: Tid, p: nat): Ipc {
    c.(prio := With(c.prio, t, p))
  }

  /** Somebody owns the mutex whenever its value is 0: a waiter may read the owner's priority. */
  predicate Owned(s: State) {
    s.value == 0 ==> s.owner.Some?
  }

  /** The owner o takes over the priority of the blocking thread t if that is more urgent. */
  function Raised(c: Ipc, o: Tid, t: Tid): Ipc {
    if c.prio(t) < c.prio(o) then SetPrio(c, o, c.prio(t)) else c
  }

  /** The owner t gets back the priority it had when it acquired the mutex. */
  function Restored(s: State, t: Tid): Ipc {
    if s.original != s.parent.prio(t) then SetPrio(s.parent, t, s.original) else s.parent
  }

  /** rt_mutex_take up to the point where the caller returns or is suspended. */
  function Take(s: State, t: Tid, timeout: int): (State, Outcome)
    requires Owned(s)
  {
    var c := SetError(s.parent, t, EOK);
    if s.owner == Some(t) then
      if s.hold < HOLD_MAX then (s.(parent := c, hold := s.hold + 1), Returned(EOK))
      else (s.(parent := c), Returned(EFULL))
    else if s.value > 0 then
      var got := s.(parent := c, value := s.value - 1, owner := Some(t), original := c.prio(t));
      if s.hold < HOLD_MAX then (got.(hold := s.hold + 1), Returned(EOK)) else (got, Returned(EFULL))
    else if timeout == 0 then (s.(parent := SetError(c, t, ETIMEOUT)), Returned(ETIMEOUT))
    else
      (s.(parent := Suspend(Raised(c, s.owner.value, t), t)), Running)
  }

  /** The rest of a blocked rt_mutex_take. */
  function TakeReturn(s: State, t: Tid): (State, Outcome) {
    (s.(parent := Leave(s.parent, t)), Returned(s.parent.error(t)))
  }

  function Release(s: State, t: Tid): (State, Outcome)
    requires s.owner == Some(t) ==> s.hold > 0
  {
    if s.owner != Some(t) then (s.(parent := SetError(s.parent, t, ERROR)), Returned(ERROR))
    else if s.hold > 1 then (s.(hold := s.hold - 1), Returned(EOK))
    else
      var c := Restored(s, t);
      if c.waiters != [] then
        var next := c.waiters[0];
        // hold is 0 here, so its overflow test always passes
        (s.(parent := Resume(c), owner := Some(next), original := c.prio(next), hold := 1), Returned(EOK))
      else if s.value < VALUE_MAX then
        (State(c, s.value + 1, None, NO_PRIORITY, 0), Returned(EOK))
      else (s.(parent := c, hold := 0), Returned(EFULL))
  }

  /** struct rt_mutex and its calls, each method one section with interrupts disabled. w is the mutex with its
      books: every section is the action of the machine below of the same name, and keeps its invariant. */
  class Mutex {
    var parent: Ipc
    var value: nat
    var original: nat
    var hold: nat
    var owner: Option<Tid>
    ghost var w: World

    ghost function View(): State
      reads this
    {
      State(parent, value, owner, original, hold)
    }

    ghost predicate Valid()
      reads this
    {
      w.s == View() && Inv(w)
    }

    /** rt_mutex_init: the flag argument is ignored, waiters always queue by priority. */
    constructor (error: Tid -> Err, prio: Tid -> nat)
      ensures View() == State(Ipc(PRIO, [], {}, error, prio), 1, None, NO_PRIORITY, 0)
      ensures Valid() && w == Init(error, prio)
    {
      w := Init(error, prio);
      parent := Ipc(PRIO, [], {}, error, prio);
      value, owner, original, hold := 1, None, NO_PRIORITY, 0;
    }

    method TakeEnter(t: Tid, timeout: int) returns (o: Outcome)
      requires Valid() && Idle(parent, t)
      modifies this
      ensures Owned(old(View())) && (View(), o) == Take(old(View()), t, timeout)
      ensures Valid() && w == Apply(old(w), TakeStep(t, timeout))
    {
      ApplyInv(w, TakeStep(t, timeout));
      w := Apply(w, TakeStep(t, timeout));
      o := TakeSection(t, timeout);
    }

    /** The section on the fields. */
    method TakeSection(t: Tid, timeout: int) returns (o: Outcome)
      requires Owned(View())
      modifies this`parent, this`value, this`owner, this`original, this`hold
      ensures (View(), o) == Take(old(View()), t, timeout)
    {
      parent := SetError(parent, t, EOK);
      if owner == Some(t) {
        if hold < HOLD_MAX {
          hold := hold + 1;
        } else {
          return Returned(EFULL);
        }
      } else if value > 0 {
        value := value - 1;
        owner, original := Some(t), parent.prio(t);
        if hold < HOLD_MAX {
          hold := hold + 1;
        } else {
          return Returned(EFULL);
        }
      } else if timeout == 0 {
        parent := SetError(parent, t, ETIMEOUT);
        return Returned(ETIMEOUT);
      } else {
        if parent.prio(t) < parent.prio(owner.value) {
          parent := SetPrio(parent, owner.value, parent.prio(t));
        }
        parent := Suspend(parent, t);
        return Running;
      }
      return Returned(EOK);
    }

    method TakeLeave(t: Tid) returns (o: Outcome)
      requires Valid() && t in parent.ready
      modifies this
      ensures (View(), o) == TakeReturn(old(View()), t)
      ensures Valid() && w == Apply(old(w), ReturnStep(t))
    {
      ApplyInv(w, ReturnStep(t));
      w := Apply(w, ReturnStep(t));
      parent := Leave(parent, t);
      return Returned(parent.error(t));
    }

    method ReleaseEnter(t: Tid) returns (o: Outcome)
      requires Valid() && Idle(parent, t)
      modifies this
      ensures (old(owner) == Some(t) ==> old(hold) > 0) && (View(), o) == Release(old(View()), t)
      ensures Valid() && w == Apply(old(w), ReleaseStep(t))
    {
      ApplyInv(w, ReleaseStep(t));
      w := Apply(w, ReleaseStep(t));
      o := ReleaseSection(t);
    }

    /** The section on the fields. */
    method ReleaseSection(t: Tid) returns (o: Outcome)
      requires owner == Some(t) ==> hold > 0
      modifies this`parent, this`value, this`owner, this`original, this`hold
      ensures (View(), o) == Release(old(View()), t)
    {
      if owner != Some(t) {
        parent := SetError(parent, t, ERROR);
        return Returned(ERROR);
      }
      hold := hold - 1;
      if hold == 0 {
        if original != parent.prio(t) {
          parent := SetPrio(parent, t, original);
        }
        if parent.waiters != [] {
          var next := parent.waiters[0];
          owner, original := Some(next), parent.prio(next);
          if hold < HOLD_MAX {
            hold := hold + 1;
          } else {
            return Returned(EFULL);
          }
          parent := Resume(parent);
        } else {
          if value < VALUE_MAX {
            value := value + 1;
          } else {
            return Returned(EFULL);
          }
          owner, original := None, NO_PRIORITY;
        }
      }
      return Returned(EOK);
    }

    /** The timer of a suspended thread expires. */
    method TimeOut(t: Tid)
      requires Valid() && t in parent.waiters
      modifies this
      ensures Valid() && w == Apply(old(w), TimeoutStep(t))
    {
      ApplyInv(w, TimeoutStep(t));
      w := Apply(w, TimeoutStep(t));
      parent := Expire(parent, t);
    }
  }

  // ---- Runs: any number of threads, every interleaving of the sections.

  datatype Action =
    | TakeStep(t: Tid, timeout: int)
    | ReturnStep(t: Tid)
    | ReleaseStep(t: Tid)
    | TimeoutStep(t: Tid)

  /** The mutex with its books: base is the priority every thread has when the mutex does not raise it,
      balance is each thread's successful takes minus its successful releases, and pressed the threads
      that suspended on the mutex since its owner acquired it. */
  datatype World = World(s: State, base: Tid -> nat, balance: Tid -> int, pressed: set<Tid>)

  /** A thread calls only while it runs: not while it is suspended, nor before a blocked take has returned. */
  predicate Enabled(s: State, a: Action) {
    match a
    case TakeStep(t, _) => Idle(s.parent, t)
    case ReturnStep(t) => t in s.parent.ready
    case ReleaseStep(t) => Idle(s.parent, t)
    case TimeoutStep(t) => t in s.parent.waiters
  }

  function Apply(w: World, a: Action): World
    requires Owned(w.s) && (w.s.owner.Some? ==> w.s.hold > 0)
  {
    if !Enabled(w.s, a) then w else
    match a
    case TakeStep(t, timeout) =>
      var (s, o) := Take(w.s, t, timeout);
      if o == Running then w.(s := s, pressed := w.pressed + {t})
      else if o == Returned(EOK) then
        w.(s := s, balance := With(w.balance, t, w.balance(t) + 1),
           pressed := if w.s.owner == Some(t) then w.pressed else {})
      else w.(s := s)
    case ReturnStep(t) => w.(s := TakeReturn(w.s, t).0)
    case ReleaseStep(t) =>
      var (s, o) := Release(w.s, t);
      if o != Returned(EOK) then w.(s := s)
      else
        var b := With(w.balance, t, w.balance(t) - 1);
        if s.owner == w.s.owner then w.(s := s, balance := b)
        else if s.owner.None? then w.(s := s, balance := b, pressed := {})
        else // the hand-off completes the take of the thread it goes to
          w.(s := s, balance := With(b, s.owner.value, b(s.owner.value) + 1), pressed := {})
    case TimeoutStep(t) => w.(s := w.s.(parent := Expire(w.s.parent, t)))
  }

  ghost predicate Ownership(w: World) {
    var s, c := w.s, w.s.parent;
    && Valid(c) && c.flag == PRIO
    && s.value <= 1 && s.hold <= HOLD_MAX
    && (s.value == 1 <==> s.owner == None)
    && (s.hold == 0 <==> s.owner == None)
    && (c.waiters != [] ==> s.owner.Some? && s.owner.value !in c.waiters)
    && (forall t <- c.ready :: c.error(t) == EOK <==> s.owner == Some(t))
    && (forall t: Tid :: w.balance(t) == if s.owner == Some(t) then s.hold else 0)
  }

  /** The owner runs at the most urgent of base(o) and the base priorities of pressed. */
  ghost predicate MostUrgent(prio: Tid -> nat, base: Tid -> nat, o: Tid, pressed: set<Tid>) {
    && o !in pressed
    && prio(o) <= base(o)
    && (forall p <- pressed :: prio(o) <= base(p))
    && (prio(o) == base(o) || exists p <- pressed :: prio(o) == base(p))
  }

  /** The owner runs at the most urgent of its own priority and those of the threads that pressed on it. */
  ghost predicate Inherits(w: World) {
    var s, c := w.s, w.s.parent;
    && (forall t: Tid :: s.owner != Some(t) ==> c.prio(t) == w.base(t))
    && (s.owner.Some? ==>
          var o := s.owner.value;
          && s.original == w.base(o)
          && MostUrgent(c.prio, w.base, o, w.pressed)
          && (forall x <- c.waiters :: c.prio(o) <= c.prio(x)))
  }

  ghost predicate Inv(w: World) {
    Ownership(w) && Inherits(w)
  }

  lemma SortedSame(q: seq<Tid>, p: Tid -> nat, r: Tid -> nat)
    requires Sorted(q, p) && forall x <- q :: p(x) == r(x)
    ensures Sorted(q, r)
  {
    forall i, j | 0 <= i < j < |q| ensures r(q[i]) <= r(q[j]) {
      assert q[i] in q && q[j] in q;
    }
  }

  /** The takes that return at once. */
  lemma TakeNowInv(w: World, t: Tid, timeout: int)
    requires Inv(w) && Idle(w.s.parent, t)
    requires w.s.owner == Some(t) || w.s.value > 0 || timeout == 0
    ensures Inv(Apply(w, TakeStep(t, timeout)))
  {
    assert Valid(SetError(w.s.parent, t, EOK));
  }

  lemma TakeBlocksOwnership(w: World, t: Tid, timeout: int)
    requires Inv(w) && Idle(w.s.parent, t)
    requires w.s.owner != Some(t) && w.s.value == 0 && timeout != 0
    ensures Ownership(Apply(w, TakeStep(t, timeout)))
  {
    var c, o := SetError(w.s.parent, t, EOK), w.s.owner.value;
    SortedSame(c.waiters, c.prio, Raised(c, o, t).prio);
    SuspendValid(Raised(c, o, t), t);
  }

  lemma RaisedIsMostUrgent(c: Ipc, base: Tid -> nat, o: Tid, t: Tid, pressed: set<Tid>)
    requires MostUrgent(c.prio, base, o, pressed) && t != o && c.prio(t) == base(t)
    ensures MostUrgent(Raised(c, o, t).prio, base, o, pressed + {t})
  {
    if c.prio(o) != base(o) {
      var p :| p in pressed && c.prio(o) == base(p);
      assert p in pressed + {t};
    }
    assert t in pressed + {t};
  }

  lemma TakeBlocksInherits(w: World, t: Tid, timeout: int)
    requires Inv(w) && Idle(w.s.parent, t)
    requires w.s.owner != Some(t) && w.s.value == 0 && timeout != 0
    ensures Inherits(Apply(w, TakeStep(t, timeout)))
  {
    var c, o := SetError(w.s.parent, t, EOK), w.s.owner.value;
    RaisedIsMostUrgent(c, w.base, o, t, w.pressed);
    SortedSame(c.waiters, c.prio, Raised(c, o, t).prio);
    SuspendValid(Raised(c, o, t), t);
  }

  /** The releases that leave the owner in place. */
  lemma ReleaseKeepsInv(w: World, t: Tid)
    requires Inv(w) && Idle(w.s.parent, t)
    requires w.s.owner != Some(t) || w.s.hold > 1
    ensures Inv(Apply(w, ReleaseStep(t)))
  {
    assert Valid(SetError(w.s.parent, t, ERROR));
  }

  lemma HandOffOwnership(w: World, t: Tid)
    requires Inv(w) && Idle(w.s.parent, t)
    requires w.s.owner == Some(t) && w.s.hold == 1 && w.s.parent.waiters != []
    ensures Ownership(Apply(w, ReleaseStep(t)))
  {
    HandOffValid(w, t);
    var r := Apply(w, ReleaseStep(t));
    assert r.s.parent == Resume(Restored(w.s, t)) && r.s.owner == Some(w.s.parent.waiters[0]);
  }

  /** The wait list the new owner leaves behind. */
  lemma HandOffValid(w: World, t: Tid)
    requires Inv(w) && w.s.owner == Some(t) && w.s.parent.waiters != []
    ensures var c := Restored(w.s, t);
            && c.waiters == w.s.parent.waiters && Valid(Resume(c)) && c.waiters[0] !in Resume(c).waiters
            && c.error(c.waiters[0]) == EOK && t != c.waiters[0]
  {
    var c := Restored(w.s, t);
    SortedSame(c.waiters, w.s.parent.prio, c.prio);
    ResumeValid(c);
    assert c.waiters[0] in c.waiters;
  }

  lemma FreeOwnership(w: World, t: Tid)
    requires Inv(w) && Idle(w.s.parent, t)
    requires w.s.owner == Some(t) && w.s.hold == 1 && w.s.parent.waiters == []
    ensures Ownership(Apply(w, ReleaseStep(t)))
  {
    SortedSame([], w.s.parent.prio, Restored(w.s, t).prio);
  }

  lemma FinalReleaseInherits(w: World, t: Tid)
    requires Inv(w) && Idle(w.s.parent, t)
    requires w.s.owner == Some(t) && w.s.hold == 1
    ensures Inherits(Apply(w, ReleaseStep(t)))
  {
    var c := Restored(w.s, t);
    SortedSame(c.waiters, w.s.parent.prio, c.prio);
    if c.waiters != [] {
      ResumeValid(c);
    }
  }

  lemma TimeoutInv(w: World, t: Tid)
    requires Inv(w) && t in w.s.parent.waiters
    ensures Inv(Apply(w, TimeoutStep(t)))
  {
    ResumeThreadValid(w.s.parent, t);
  }

  lemma ApplyInv(w: World, a: Action)
    requires Inv(w)
    ensures Inv(Apply(w, a))
  {
    if Enabled(w.s, a) {
      match a
      case TakeStep(t, timeout) =>
        if w.s.owner == Some(t) || w.s.value > 0 || timeout == 0 {
          TakeNowInv(w, t, timeout);
        } else {
          TakeBlocksOwnership(w, t, timeout);
          TakeBlocksInherits(w, t, timeout);
        }
      case ReturnStep(t) =>
      case ReleaseStep(t) =>
        if w.s.owner != Some(t) || w.s.hold > 1 {
          ReleaseKeepsInv(w, t);
        } else {
          if w.s.parent.waiters != [] {
            HandOffOwnership(w, t);
          } else {
            FreeOwnership(w, t);
          }
          FinalReleaseInherits(w, t);
        }
      case TimeoutStep(t) => TimeoutInv(w, t);
    }
  }

  ghost function Init(error: Tid -> Err, prio: Tid -> nat): (w: World)
    ensures Inv(w)
  {
    World(State(Ipc(PRIO, [], {}, error, prio), 1, None, NO_PRIORITY, 0), prio, (_: Tid) => 0, {})
  }

  /** Every state reachable from w. */
  ghost function Run(w: World, acts: seq<Action>): World
    requires Inv(w)
    decreases |acts|
  {
    if acts == [] then w else ApplyInv(w, acts[0]); Run(Apply(w, acts[0]), acts[1..])
  }

  lemma {:induction false} RunInv(w: World, acts: seq<Action>)
    requires Inv(w)
    ensures Inv(Run(w, acts)) && Run(w, acts).base == w.base
    decreases |acts|
  {
    if acts != [] {
      ApplyInv(w, acts[0]);
      RunInv(Apply(w, acts[0]), acts[1..]);
    }
  }

  /** Mutual exclusion and accounting in every reachable state: value is 0 or 1, it is 1 exactly when
      nobody owns the mutex and exactly when hold is 0, only an owned mutex has waiters, and the owner is
      the one thread whose takes exceed its releases, by hold. */
  lemma OwnershipHolds(error: Tid -> Err, prio: Tid -> nat, acts: seq<Action>, t: Tid)
    ensures var w := Run(Init(error, prio), acts);
            var s := w.s;
            && s.value <= 1
            && (s.value == 1 <==> s.owner.None?) && (s.hold == 0 <==> s.owner.None?)
            && (s.parent.waiters != [] ==> s.owner.Some?)
            && w.balance(t) == (if s.owner == Some(t) then s.hold else 0)
  {
    RunInv(Init(error, prio), acts);
  }

  /** A blocked take returns RT_EOK only, and always, to the thread the mutex was handed to. */
  lemma BlockedTakeResult(error: Tid -> Err, prio: Tid -> nat, acts: seq<Action>, t: Tid)
    requires t in Run(Init(error, prio), acts).s.parent.ready
    ensures var s := Run(Init(error, prio), acts).s;
            TakeReturn(s, t).1 == Returned(EOK) <==> s.owner == Some(t)
  {
    RunInv(Init(error, prio), acts);
  }

  /** -RT_EFULL comes out of one exit only, the recursive take of an owner that holds it 255 times,
      and that take changes neither the ownership nor the queue. */
  lemma OverflowOnlyRecursive(error: Tid -> Err, prio: Tid -> nat, acts: seq<Action>, t: Tid, timeout: int)
    ensures Inv(Run(Init(error, prio), acts))
    ensures var s := Run(Init(error, prio), acts).s;
            var (s', o) := Take(s, t, timeout);
            && (o == Returned(EFULL) <==> s.owner == Some(t) && s.hold == HOLD_MAX)
            && (o == Returned(EFULL) ==>
                  s' == s.(parent := s'.parent) && s'.parent.waiters == s.parent.waiters)
            && Release(s, t).1 != Returned(EFULL)
  {
    RunInv(Init(error, prio), acts);
  }

  /** Priority inheritance in every reachable state: nobody waits for a less urgent owner, the owner runs at
      exactly the most urgent of its own priority and those that pressed on it, and every thread
      that does not own the mutex runs at its own priority, so the last release has restored it. */
  lemma PriorityInheritance(error: Tid -> Err, prio: Tid -> nat, acts: seq<Action>, t: Tid)
    ensures var w := Run(Init(error, prio), acts);
            var c := w.s.parent;
            && (w.s.owner != Some(t) ==> c.prio(t) == prio(t))
            && (w.s.owner == Some(t) ==>
                  && w.s.original == prio(t)
                  && (forall x <- c.waiters :: c.prio(t) <= c.prio(x) == prio(x))
                  && MostUrgent(c.prio, prio, t, w.pressed))
  {
    RunInv(Init(error, prio), acts);
  }

  /** The last release of the owner hands the mutex to the most urgent waiter and puts the releasing
      thread back to the priority it had when it acquired the mutex. */
  lemma FinalRelease(w: World, t: Tid)
    requires Inv(w) && w.s.owner == Some(t) && w.s.hold == 1
    ensures var (s', o) := Release(w.s, t);
            && o == Returned(EOK)
            && s'.parent.prio(t) == w.s.original == w.base(t)
            && (w.s.parent.waiters == [] ==> s'.owner == None && s'.value == 1)
            && (w.s.parent.waiters != [] ==>
                  && s'.owner == Some(w.s.parent.waiters[0]) && s'.value == 0 && s'.hold == 1
                  && s'.parent.waiters == w.s.parent.waiters[1..]
                  && forall x <- w.s.parent.waiters :: w.s.parent.prio(w.s.parent.waiters[0]) <= w.s.parent.prio(x))
  {
    var q := w.s.parent.waiters;
    if q != [] {
      assert q[0] in q;
      assert forall x <- q :: x != t;
    }
  }

  // ---- What each call does, by what its caller can see.

  /** Thread t owns the mutex. */
  predicate Owns(s: State, t: Tid) {
    s.owner == Some(t)
  }

  /** A take succeeds at once exactly when the mutex is free, or the caller's with room in its hold count. Another's is
      refused when the call does not wait, and waited for when it does. */
  lemma TakeOutcome(w: World, t: Tid, timeout: int)
    requires Inv(w) && Idle(w.s.parent, t)
    ensures var s := w.s;
            var o := Take(s, t, timeout).1;
            && (o == Returned(EOK) <==> s.owner.None? || (Owns(s, t) && s.hold < HOLD_MAX))
            && (o == Returned(EFULL) <==> Owns(s, t) && s.hold == HOLD_MAX)
            && (o == Returned(ETIMEOUT) <==> s.owner.Some? && !Owns(s, t) && timeout == 0)
            && (o == Running <==> s.owner.Some? && !Owns(s, t) && timeout != 0)
  {
  }

  /** A free mutex becomes the caller's, held once, with the priority the caller has of its own to go back to. */
  lemma TakeFree(w: World, t: Tid, timeout: int)
    requires Inv(w) && Idle(w.s.parent, t) && w.s.owner.None?
    ensures var r := Take(w.s, t, timeout).0;
            && Owns(r, t) && r.hold == 1 && r.value == 0 && r.original == w.base(t) == r.parent.prio(t)
            && Told(w.s.parent, r.parent, t, EOK)
  {
  }

  /** The owner's own counts once more, up to 255, and changes nothing else. */
  lemma TakeOwn(w: World, t: Tid, timeout: int)
    requires Inv(w) && Idle(w.s.parent, t) && Owns(w.s, t)
    ensures var (r, o) := Take(w.s, t, timeout);
            && r.hold == w.s.hold + (if o == Returned(EOK) then 1 else 0)
            && Owns(r, t) && r.value == w.s.value && r.original == w.s.original
            && Told(w.s.parent, r.parent, t, EOK)
  {
  }

  /** Another's stays the other's, and a caller that does not wait leaves no trace but its error. */
  lemma TakeRefused(w: World, t: Tid)
    requires Inv(w) && Idle(w.s.parent, t) && w.s.owner.Some? && !Owns(w.s, t)
    ensures var s, r := w.s, Take(w.s, t, 0).0;
            r == s.(parent := r.parent) && Told(s.parent, r.parent, t, ETIMEOUT)
  {
  }

  /** A caller that waits joins the list, and the owner runs from then on at the more urgent of the two priorities. */
  lemma TakeWaits(w: World, t: Tid, timeout: int)
    requires Inv(w) && Idle(w.s.parent, t) && w.s.owner.Some? && !Owns(w.s, t) && timeout != 0
    ensures var s, r := w.s, Take(w.s, t, timeout).0;
            && r == s.(parent := r.parent)
            && Joined(s.parent.(prio := r.parent.prio), r.parent, t)
            && Lends(s.parent.prio, r.parent.prio, s.owner.value, t)
  {
    var c, o := SetError(w.s.parent, t, EOK), w.s.owner.value;
    SortedSame(c.waiters, c.prio, Raised(c, o, t).prio);
    SuspendJoins(Raised(c, o, t), t);
    JoinedAnyway(w.s.parent, Raised(c, o, t), Suspend(Raised(c, o, t), t), t);
  }

  /** Thread o runs at the more urgent of its own priority and t's, everybody else at the old one. */
  ghost predicate Lends(p: Tid -> nat, r: Tid -> nat, o: Tid, t: Tid) {
    r(o) == (if p(t) < p(o) then p(t) else p(o)) && forall x: Tid :: x != o ==> r(x) == p(x)
  }

  lemma JoinedAnyway(c: Ipc, d: Ipc, r: Ipc, t: Tid)
    requires Joined(d, r, t) && d == c.(prio := d.prio, error := d.error)
    requires forall x :: d.error(x) == if x == t then EOK else c.error(x)
    ensures Joined(c.(prio := r.prio), r, t)
  {
    var k :| JoinedAt(d, r, t, k);
    assert JoinedAt(c.(prio := r.prio), r, t, k);
  }

  /** A release is the owner's alone, and always succeeds for it; a stranger's is refused and changes nothing. */
  lemma ReleaseOutcome(w: World, t: Tid)
    requires Inv(w) && Idle(w.s.parent, t)
    ensures var s, (r, o) := w.s, Release(w.s, t);
            && o == Returned(if Owns(s, t) then EOK else ERROR)
            && (!Owns(s, t) ==> Told(s.parent, r.parent, t, ERROR) && r == s.(parent := r.parent))
            && (Owns(s, t) && s.hold > 1 ==> r == s.(hold := r.hold) && r.hold == s.hold - 1)
  {
  }

  /** The last release of the owner restores its priority and nobody else's, and hands the mutex to the first waiter,
      who is held to have taken it at its own priority, or leaves it free. */
  lemma LastRelease(w: World, t: Tid)
    requires Inv(w) && Idle(w.s.parent, t) && Owns(w.s, t) && w.s.hold == 1
    ensures var s, r := w.s, Release(w.s, t).0;
            && (forall x: Tid :: r.parent.prio(x) == w.base(x))
            && (s.parent.waiters == [] ==>
                  && r.owner.None? && r.hold == 0 && r.value == 1 && r.original == NO_PRIORITY
                  && r.parent == s.parent.(prio := r.parent.prio))
            && (s.parent.waiters != [] ==>
                  && HeadWoken(s.parent.(prio := r.parent.prio), r.parent)
                  && Owns(r, s.parent.waiters[0]) && r.hold == 1 && r.value == 0
                  && r.original == w.base(s.parent.waiters[0]))
  {
    if w.s.parent.waiters != [] {
      assert w.s.parent.waiters[0] in w.s.parent.waiters;
    }
  }

  lemma ReturnOutcome(w: World, t: Tid)
    requires Inv(w) && t in w.s.parent.ready
    ensures var (r, o) := TakeReturn(w.s, t);
            && o == Returned(w.s.parent.error(t)) && (o == Returned(EOK) <==> Owns(w.s, t))
            && RanOn(w.s.parent, r.parent, t) && r == w.s.(parent := r.parent)
  {
  }

  /** A mutex given back is there to be taken: over every run, after the last release with nobody waiting, the take of
      any thread outside a call succeeds, whatever its timeout. */
  lemma ReleasedIsTaken(error: Tid -> Err, prio: Tid -> nat, acts: seq<Action>, t: Tid, u: Tid, timeout: int)
    ensures Inv(Run(Init(error, prio), acts))
    ensures var w := Run(Init(error, prio), acts);
            Owns(w.s, t) && Idle(w.s.parent, t) && w.s.hold == 1 && w.s.parent.waiters == [] && Idle(w.s.parent, u) ==>
              var r := Apply(w, ReleaseStep(t)).s;
              Owned(r) && Take(r, u, timeout).1 == Returned(EOK) && Owns(Take(r, u, timeout).0, u)
  {
    RunInv(Init(error, prio), acts);
    var w := Run(Init(error, prio), acts);
    if Owns(w.s, t) && Idle(w.s.parent, t) && w.s.hold == 1 && w.s.parent.waiters == [] && Idle(w.s.parent, u) {
      ApplyInv(w, ReleaseStep(t));
      LastRelease(w, t);
      var r := Apply(w, ReleaseStep(t));
      TakeOutcome(r, u, timeout);
      TakeFree(r, u, timeout);
    }
  }

  /** Takes and releases count each other off: n more takes of the owner and as many releases leave it as it was. */
  lemma {:induction false} TakesAndReleases(w: World, t: Tid, n: nat)
    requires Inv(w) && Idle(w.s.parent, t) && Owns(w.s, t) && w.s.hold + n <= HOLD_MAX
    ensures var r := Times(Times(w, TakeStep(t, 0), n), ReleaseStep(t), n);
            r.s.hold == w.s.hold && Owns(r.s, t) && r.s.parent.waiters == w.s.parent.waiters
  {
    TakeTimes(w, t, n);
    ReleaseTimes(Times(w, TakeStep(t, 0), n), t, n);
  }

  ghost function Times(w: World, a: Action, n: nat): World
    requires Inv(w)
    ensures Inv(Times(w, a, n))
    decreases n
  {
    if n == 0 then w else ApplyInv(w, a); Times(Apply(w, a), a, n - 1)
  }

  lemma {:induction false} TakeTimes(w: World, t: Tid, n: nat)
    requires Inv(w) && Idle(w.s.parent, t) && Owns(w.s, t) && w.s.hold + n <= HOLD_MAX
    ensures var r := Times(w, TakeStep(t, 0), n).s;
            && r.hold == w.s.hold + n && Owns(r, t) && Idle(r.parent, t)
            && r.parent.waiters == w.s.parent.waiters
    decreases n
  {
    if n > 0 {
      ApplyInv(w, TakeStep(t, 0));
      TakeOutcome(w, t, 0);
      TakeOwn(w, t, 0);
      TakeTimes(Apply(w, TakeStep(t, 0)), t, n - 1);
    }
  }

  lemma {:induction false} ReleaseTimes(w: World, t: Tid, n: nat)
    requires Inv(w) && Idle(w.s.parent, t) && Owns(w.s, t) && w.s.hold > n
    ensures var r := Times(w, ReleaseStep(t), n).s;
            && r.hold == w.s.hold - n && Owns(r, t) && r.parent.waiters == w.s.parent.waiters
    decreases n
  {
    if n > 0 {
      ApplyInv(w, ReleaseStep(t));
      ReleaseOutcome(w, t);
      ReleaseTimes(Apply(w, ReleaseStep(t)), t, n - 1);
    }
  }

  /** A take whose time is up returns -RT_ETIMEOUT, whatever any thread does before it runs on. */
  lemma TimedOutTake(w: World, acts: seq<Action>, t: Tid)
    requires Inv(w) && t in w.s.parent.waiters && ReturnStep(t) !in acts
    ensures Inv(Apply(w, TimeoutStep(t)))
    ensures var r := Run(Apply(w, TimeoutStep(t)), acts).s;
            t in r.parent.ready && TakeReturn(r, t).1 == Returned(ETIMEOUT)
  {
    ApplyInv(w, TimeoutStep(t));
    ExpireTimesOut(w.s.parent, t);
    StaysReady(Apply(w, TimeoutStep(t)), acts, t);
  }

  /** Nobody but the thread itself touches what a resumed thread is to return. */
  lemma {:induction false} StaysReady(w: World, acts: seq<Action>, t: Tid)
    requires Inv(w) && t in w.s.parent.ready && ReturnStep(t) !in acts
    ensures var r := Run(w, acts).s.parent; t in r.ready && r.error(t) == w.s.parent.error(t)
    decreases |acts|
  {
    if acts != [] {
      ApplyInv(w, acts[0]);
      StepStaysReady(w, acts[0], t);
      StaysReady(Apply(w, acts[0]), acts[1..], t);
    }
  }

  lemma StepStaysReady(w: World, a: Action, t: Tid)
    requires Inv(w) && t in w.s.parent.ready && a != ReturnStep(t)
    ensures var r := Apply(w, a).s.parent; t in r.ready && r.error(t) == w.s.parent.error(t)
  {
  }
}
