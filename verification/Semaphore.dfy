/** The counting semaphore: units handed straight to waiters, conservation over every run. */
module Semaphore {
  import opened Arithmetic
  import opened Kernel
  import opened IpcObject

  const VALUE_MAX := UINT16_MAX

  datatype State = State(parent: Ipc, value: nat)

  /** rt_sem_take up to the point where the caller returns or is suspended. */
  function Take(s: State, t: Tid, timeout: int): (State, Outcome) {
    if s.value > 0 then (s.(value := s.value - 1), Returned(EOK))
    else if timeout == 0 then (s, Returned(ETIMEOUT))
    else (s.(parent := Suspend(s.parent, t)), Running)
  }

  /** The rest of a blocked rt_sem_take. */
  function TakeReturn(s: State, t: Tid): (State, Outcome) {
    (s.(parent := Leave(s.parent, t)), Returned(s.parent.error(t)))
  }

  function Release(s: State): (State, Outcome) {
    if s.parent.waiters != [] then (s.(parent := Resume(s.parent)), Returned(EOK))
    else if s.value < VALUE_MAX then (s.(value := s.value + 1), Returned(EOK))
    else (s, Returned(EFULL))
  }

  /** rt_sem_control with RT_IPC_CMD_RESET; the new value is truncated to 16 bits. */
  function Reset(s: State, value: nat): State {
    State(ResumeAll(s.parent), value % 0x1_0000)
  }

  /** struct rt_semaphore and its calls, each method one section with interrupts disabled. w is the semaphore with
      its books: every section is the action of the machine below of the same name, and keeps its invariant. */
  class Semaphore {
    var parent: Ipc
    var value: nat
    ghost var w: World
    ghost const init: nat

    ghost function View(): State
      reads this
    {
      State(parent, value)
    }

    ghost predicate Valid()
      reads this
    {
      w.s == View() && Inv(w, init)
    }

    constructor (flag: Flag, value: nat, error: Tid -> Err, prio: Tid -> nat)
      requires value < 0x1_0000
      ensures View() == State(Ipc(flag, [], {}, error, prio), value)
      ensures Valid() && w == Init(flag, value, error, prio) && init == value
    {
      parent := Ipc(flag, [], {}, error, prio);
      this.value := value;
      w, init := Init(flag, value, error, prio), value;
    }

    method TakeEnter(t: Tid, timeout: int) returns (o: Outcome)
      requires Valid() && Idle(parent, t)
      modifies this
      ensures (View(), o) == Take(old(View()), t, timeout)
      ensures Valid() && w == Apply(old(w), TakeStep(t, timeout))
    {
      TakeInv(w, t, timeout, init);
      w := Apply(w, TakeStep(t, timeout));
      if value > 0 {
        value := value - 1;
        return Returned(EOK);
      }
      if timeout == 0 {
        return Returned(ETIMEOUT);
      }
      parent := Suspend(parent, t);
      return Running;
    }

    method TakeLeave(t: Tid) returns (o: Outcome)
      requires Valid() && t in parent.ready
      modifies this
      ensures (View(), o) == TakeReturn(old(View()), t)
      ensures Valid() && w == Apply(old(w), ReturnStep(t))
    {
      ReturnInv(w, t, init);
      w := Apply(w, ReturnStep(t));
      parent := Leave(parent, t);
      if parent.error(t) != EOK {
        return Returned(parent.error(t));
      }
      return Returned(EOK);
    }

    method Put() returns (o: Outcome)
      requires Valid()
      modifies this
      ensures (View(), o) == Release(old(View()))
      ensures Valid() && w == Apply(old(w), ReleaseStep)
    {
      ReleaseInv(w, init);
      w := Apply(w, ReleaseStep);
      if parent.waiters != [] {
        parent := Resume(parent);
      } else if value < VALUE_MAX {
        value := value + 1;
      } else {
        return Returned(EFULL);
      }
      return Returned(EOK);
    }

    method Control(newValue: nat)
      requires Valid()
      modifies this
      ensures View() == Reset(old(View()), newValue)
      ensures Valid() && w == Apply(old(w), ResetStep(newValue))
    {
      ApplyInv(w, ResetStep(newValue), init);
      w := Apply(w, ResetStep(newValue));
      parent := ResumeAllLoop(parent);
      value := newValue % 0x1_0000;
    }

    /** The timer of a suspended thread expires. */
    method TimeOut(t: Tid)
      requires Valid() && t in parent.waiters
      modifies this
      ensures Valid() && w == Apply(old(w), TimeoutStep(t))
    {
      ApplyInv(w, TimeoutStep(t), init);
      w := Apply(w, TimeoutStep(t));
      parent := Expire(parent, t);
    }
  }

  // ---- Runs: any number of threads, every interleaving of the sections.

  datatype Action =
    | TakeStep(t: Tid, timeout: int)
    | ReturnStep(t: Tid)
    | ReleaseStep
    | TimeoutStep(t: Tid)
    | ResetStep(value: nat)

  /** The semaphore with its books: units put in by releases and taken out by grants since init,
      the net amount resets wrote into the value, the takes that returned RT_EOK, and the
      threads a release handed a unit to that have not returned yet. */
  datatype World = World(s: State, released: nat, granted: nat, adjusted: int, served: nat, handed: set<Tid>)

  /** A thread starts a call only outside a call; a timer expires only for a suspended thread. */
  predicate Enabled(s: State, a: Action) {
    match a
    case TakeStep(t, _) => Idle(s.parent, t)
    case ReturnStep(t) => t in s.parent.ready
    case TimeoutStep(t) => t in s.parent.waiters
    case ReleaseStep => true
    case ResetStep(_) => true
  }

  function Apply(w: World, a: Action): World {
    if !Enabled(w.s, a) then w else
    match a
    case TakeStep(t, timeout) =>
      var (s, o) := Take(w.s, t, timeout);
      if o == Returned(EOK) then w.(s := s, granted := w.granted + 1, served := w.served + 1) else w.(s := s)
    case ReturnStep(t) =>
      var (s, o) := TakeReturn(w.s, t);
      w.(s := s, served := w.served + (if o == Returned(EOK) then 1 else 0), handed := w.handed - {t})
    case ReleaseStep =>
      var (s, o) := Release(w.s);
      if o != Returned(EOK) then w.(s := s)
      else if w.s.parent.waiters == [] then w.(s := s, released := w.released + 1)
      else w.(s := s, released := w.released + 1, granted := w.granted + 1,
              handed := w.handed + {w.s.parent.waiters[0]})
    case TimeoutStep(t) => w.(s := w.s.(parent := Expire(w.s.parent, t)))
    case ResetStep(v) =>
      var s := Reset(w.s, v);
      w.(s := s, adjusted := w.adjusted + s.value - w.s.value)
  }

  function Run(w: World, acts: seq<Action>): World
    decreases |acts|
  {
    if acts == [] then w else Run(Apply(w, acts[0]), acts[1..])
  }

  function Init(flag: Flag, value: nat, error: Tid -> Err, prio: Tid -> nat): World {
    World(State(Ipc(flag, [], {}, error, prio), value), 0, 0, 0, 0, {})
  }

  ghost predicate Inv(w: World, init: nat) {
    var c := w.s.parent;
    && Valid(c)
    && w.s.value <= VALUE_MAX
    && (w.s.value > 0 ==> c.waiters == [])
    && init + w.released + w.adjusted == w.s.value + w.granted
    && w.granted == w.served + |w.handed|
    && w.handed <= c.ready
    && (forall t <- c.ready :: c.error(t) == EOK <==> t in w.handed)
  }

  lemma TakeInv(w: World, t: Tid, timeout: int, init: nat)
    requires Inv(w, init) && Idle(w.s.parent, t)
    ensures Inv(Apply(w, TakeStep(t, timeout)), init)
  {
    SuspendValid(w.s.parent, t);
  }

  lemma ReturnInv(w: World, t: Tid, init: nat)
    requires Inv(w, init) && t in w.s.parent.ready
    ensures Inv(Apply(w, ReturnStep(t)), init)
  {
    if t in w.handed {
      assert |w.handed - {t}| == |w.handed| - 1;
    } else {
      assert w.handed - {t} == w.handed;
    }
  }

  lemma ReleaseInv(w: World, init: nat)
    requires Inv(w, init)
    ensures Inv(Apply(w, ReleaseStep), init)
  {
    var c := w.s.parent;
    if c.waiters != [] {
      ResumeValid(c);
      assert c.waiters[0] !in w.handed;
      assert |w.handed + {c.waiters[0]}| == |w.handed| + 1;
    }
  }

  lemma ApplyInv(w: World, a: Action, init: nat)
    requires Inv(w, init)
    ensures Inv(Apply(w, a), init)
  {
    if Enabled(w.s, a) {
      match a
      case TakeStep(t, timeout) => TakeInv(w, t, timeout, init);
      case ReturnStep(t) => ReturnInv(w, t, init);
      case ReleaseStep => ReleaseInv(w, init);
      case TimeoutStep(t) => ResumeThreadValid(w.s.parent, t);
      case ResetStep(v) => ResumeAllEffect(w.s.parent);
    }
  }

  lemma {:induction false} RunInv(w: World, acts: seq<Action>, init: nat)
    requires Inv(w, init)
    ensures Inv(Run(w, acts), init)
    decreases |acts|
  {
    if acts != [] {
      ApplyInv(w, acts[0], init);
      RunInv(Apply(w, acts[0]), acts[1..], init);
    }
  }

  /** Conservation, in every reachable state: what was put in is what is there plus what was granted;
      the grants are the takes that returned RT_EOK plus the units still on their way to a resumed
      thread; no thread sleeps while a unit is available. */
  lemma Conservation(flag: Flag, value: nat, error: Tid -> Err, prio: Tid -> nat, acts: seq<Action>)
    requires value <= VALUE_MAX
    ensures var w := Run(Init(flag, value, error, prio), acts);
            && value + w.released + w.adjusted == w.s.value + w.granted
            && w.granted == w.served + |w.handed|
            && (w.s.value > 0 ==> w.s.parent.waiters == [])
            && w.s.value <= VALUE_MAX
  {
    RunInv(Init(flag, value, error, prio), acts, value);
  }

  /** A blocked take returns RT_EOK exactly when a release handed it a unit; otherwise it returns the
      error of its timer or of the reset that woke it. */
  lemma BlockedTakeResult(flag: Flag, value: nat, error: Tid -> Err, prio: Tid -> nat, acts: seq<Action>, t: Tid)
    requires value <= VALUE_MAX
    requires t in Run(Init(flag, value, error, prio), acts).s.parent.ready
    ensures var w := Run(Init(flag, value, error, prio), acts);
            TakeReturn(w.s, t).1 == Returned(EOK) <==> t in w.handed
  {
    RunInv(Init(flag, value, error, prio), acts, value);
  }

  // ---- What each call does, by what its caller can see.

  /** A take gets a unit at once exactly when there is one. Otherwise it is refused, changing nothing, when it does not
      wait, and joins the wait list when it does. */
  lemma TakeOutcome(w: World, init: nat, t: Tid, timeout: int)
    requires Inv(w, init) && Idle(w.s.parent, t)
    ensures var s, (r, o) := w.s, Take(w.s, t, timeout);
            && (o == Returned(EOK) <==> s.value > 0)
            && (o == Returned(ETIMEOUT) <==> s.value == 0 && timeout == 0)
            && (o == Running <==> s.value == 0 && timeout != 0)
            && (o == Returned(EOK) ==> r.value + 1 == s.value && r.parent == s.parent)
            && (o == Returned(ETIMEOUT) ==> r == s)
            && (o == Running ==> r.value == 0 && Joined(s.parent, r.parent, t))
  {
    SuspendJoins(w.s.parent, t);
  }

  /** A release succeeds unless nobody waits and the value is at its limit. It hands its unit to the first waiter, or
      adds it to the value when there is none. */
  lemma ReleaseOutcome(w: World, init: nat)
    requires Inv(w, init)
    ensures var s, (r, o) := w.s, Release(w.s);
            && (o == Returned(EOK) <==> s.parent.waiters != [] || s.value < VALUE_MAX)
            && (o == Returned(EFULL) <==> s.parent.waiters == [] && s.value == VALUE_MAX)
            && (s.parent.waiters != [] ==> r.value == s.value && HeadWoken(s.parent, r.parent))
            && (s.parent.waiters == [] && o == Returned(EOK) ==> r.value == s.value + 1 && r.parent == s.parent)
            && (o == Returned(EFULL) ==> r == s)
  {
  }

  lemma ReturnOutcome(w: World, init: nat, t: Tid)
    requires Inv(w, init) && t in w.s.parent.ready
    ensures var (r, o) := TakeReturn(w.s, t);
            && o == Returned(w.s.parent.error(t)) && (o == Returned(EOK) <==> t in w.handed)
            && r.value == w.s.value && RanOn(w.s.parent, r.parent, t)
  {
  }

  lemma ResetOutcome(w: World, init: nat, value: nat)
    requires Inv(w, init)
    ensures AllWoken(w.s.parent, Reset(w.s, value).parent)
    ensures value <= VALUE_MAX ==> Reset(w.s, value).value == value
    ensures 0 <= Reset(w.s, value).value <= VALUE_MAX && (Reset(w.s, value).value - value) % 0x1_0000 == 0
  {
    ResumeAllWakes(w.s.parent);
    Truncated(value);
  }

  lemma Truncated(value: nat)
    ensures (value % 0x1_0000 - value) % 0x1_0000 == 0
  {
    var q := value / 0x1_0000;
    assert value % 0x1_0000 - value == -q * 0x1_0000;
  }

  /** A unit released is there to be taken: over every run, after a release that nobody waited for and that succeeded,
      the take of any thread outside a call succeeds at once, whatever its timeout. */
  lemma ReleasedUnitIsTaken(flag: Flag, value: nat, error: Tid -> Err, prio: Tid -> nat, acts: seq<Action>,
                            t: Tid, timeout: int)
    requires value <= VALUE_MAX
    ensures var w := Run(Init(flag, value, error, prio), acts);
            var (s, o) := Release(w.s);
            w.s.parent.waiters == [] && Idle(w.s.parent, t) && o == Returned(EOK) ==>
              Take(s, t, timeout) == (w.s, Returned(EOK))
  {
    RunInv(Init(flag, value, error, prio), acts, value);
  }

  /** And one handed over is received: over every run, the first waiter's take returns RT_EOK after a release, whatever
      any thread does before it runs on. */
  lemma HandedUnitIsReceived(w: World, init: nat, acts: seq<Action>)
    requires Inv(w, init) && w.s.parent.waiters != []
    requires ReturnStep(w.s.parent.waiters[0]) !in acts
    ensures var t, r := w.s.parent.waiters[0], Run(Apply(w, ReleaseStep), acts).s;
            t in r.parent.ready && TakeReturn(r, t).1 == Returned(EOK)
  {
    ReleaseInv(w, init);
    ResumeValid(w.s.parent);
    StaysReady(Apply(w, ReleaseStep), init, acts, w.s.parent.waiters[0]);
  }

  /** A take whose time is up returns -RT_ETIMEOUT, whatever any thread does before it runs on. */
  lemma TimedOutTake(w: World, init: nat, acts: seq<Action>, t: Tid)
    requires Inv(w, init) && t in w.s.parent.waiters && ReturnStep(t) !in acts
    ensures var r := Run(Apply(w, TimeoutStep(t)), acts).s;
            t in r.parent.ready && TakeReturn(r, t).1 == Returned(ETIMEOUT)
  {
    ApplyInv(w, TimeoutStep(t), init);
    ExpireTimesOut(w.s.parent, t);
    StaysReady(Apply(w, TimeoutStep(t)), init, acts, t);
  }

  /** Nobody but the thread itself touches what a resumed thread is to return. */
  lemma {:induction false} StaysReady(w: World, init: nat, acts: seq<Action>, t: Tid)
    requires Inv(w, init) && t in w.s.parent.ready && ReturnStep(t) !in acts
    ensures var r := Run(w, acts).s.parent; t in r.ready && r.error(t) == w.s.parent.error(t)
    decreases |acts|
  {
    if acts != [] {
      ApplyInv(w, acts[0], init);
      StepStaysReady(w, init, acts[0], t);
      StaysReady(Apply(w, acts[0]), init, acts[1..], t);
    }
  }

  lemma StepStaysReady(w: World, init: nat, a: Action, t: Tid)
    requires Inv(w, init) && t in w.s.parent.ready && a != ReturnStep(t)
    ensures var r := Apply(w, a).s.parent; t in r.ready && r.error(t) == w.s.parent.error(t)
  {
    if a.ResetStep? {
      ResumeAllEffect(w.s.parent);
    }
  }
}
