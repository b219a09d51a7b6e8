/** The take-and-put lock around the store and the gate: an inner mutex protects
    a slot, a condition variable wakes one waiter per release. Each step below is
    one critical section of the inner mutex, or one wake-up. */
module StateLock {
  import opened Domain

  datatype Phase<T> =
    | Checking(timed: bool)    // about to look at the slot
    | Sleeping(timed: bool)    // parked on the condition variable
    | Holding(value: T)        // owns a guard

  datatype Lock<T> = Lock(slot: Option<T>, threads: map<int, Phase<T>>)

  datatype Step<T> =
    | Arrive(t: int, timed: bool)
    | Check(t: int, expired: bool)
    | Wake(t: int)
    | Write(t: int, value: T)
    | Drop(t: int, woken: Option<int>)

  predicate Asleep<T>(s: Lock<T>, t: int) {
    t in s.threads && s.threads[t].Sleeping?
  }

  /** `Drop` notifies one sleeper if there is any; `Wake` is a timeout or a
      spurious return. Only a waiter with a deadline can find it expired. */
  ghost predicate Enabled<T>(s: Lock<T>, a: Step<T>) {
    match a
    case Arrive(t, _) => t !in s.threads
    case Check(t, expired) => t in s.threads && s.threads[t].Checking? && (expired ==> s.threads[t].timed)
    case Wake(t) => Asleep(s, t)
    case Write(t, _) => t in s.threads && s.threads[t].Holding?
    case Drop(t, woken) =>
      && t in s.threads && s.threads[t].Holding?
      && (if woken.Some? then Asleep(s, woken.value) else forall u :: !Asleep(s, u))
  }

  ghost function Next<T>(s: Lock<T>, a: Step<T>): Lock<T>
    requires Enabled(s, a)
  {
    match a
    case Arrive(t, timed) => s.(threads := s.threads[t := Checking(timed)])
    case Check(t, expired) =>
      if s.slot.Some? then Lock(None, s.threads[t := Holding(s.slot.value)])
      else if expired then s.(threads := s.threads - {t})
      else s.(threads := s.threads[t := Sleeping(s.threads[t].timed)])
    case Wake(t) => s.(threads := s.threads[t := Checking(s.threads[t].timed)])
    case Write(t, value) => s.(threads := s.threads[t := Holding(value)])
    case Drop(t, woken) =>
      var rest := s.threads - {t};
      Lock(Some(s.threads[t].value),
           if woken.Some? then rest[woken.value := Checking(rest[woken.value].timed)] else rest)
  }

  function Initial<T>(value: T): Lock<T> {
    Lock(Some(value), map[])
  }

  // ---- Invariant ------------------------------------------------------------

  predicate Holds<T>(s: Lock<T>, t: int) {
    t in s.threads && s.threads[t].Holding?
  }

  /** The value is in the slot or in exactly one guard. */
  ghost predicate OnePlace<T>(s: Lock<T>) {
    if s.slot.Some? then forall t :: !Holds(s, t)
    else exists t :: SoleHolder(s, t)
  }

  ghost predicate SoleHolder<T>(s: Lock<T>, t: int) {
    Holds(s, t) && forall u :: Holds(s, u) ==> u == t
  }

  ghost predicate SomeoneChecks<T>(s: Lock<T>) {
    exists t :: t in s.threads && s.threads[t].Checking?
  }

  /** A full slot with a sleeper always has a waiter that has yet to recheck. */
  ghost predicate NoLostWakeUp<T>(s: Lock<T>) {
    s.slot.Some? && (exists t :: Asleep(s, t)) ==> SomeoneChecks(s)
  }

  ghost predicate Inv<T>(s: Lock<T>) {
    OnePlace(s) && NoLostWakeUp(s)
  }

  /** The protected value, wherever it is. */
  ghost function Value<T>(s: Lock<T>): T
    requires OnePlace(s)
  {
    if s.slot.Some? then s.slot.value
    else var t :| Holds(s, t); s.threads[t].value
  }

  /** Where the value is after a step, and what it is. */
  lemma StepKeepsOnePlace<T>(s: Lock<T>, a: Step<T>)
    requires OnePlace(s) && Enabled(s, a)
    ensures OnePlace(Next(s, a))
    ensures Value(Next(s, a)) == if a.Write? then a.value else Value(s)
  {
    var after := Next(s, a);
    forall u | u != a.t ensures Holds(after, u) <==> Holds(s, u) {
    }
    assert Holds(s, a.t) <==> a.Write? || a.Drop?;
    if s.slot.Some? {
      if after.slot.None? {
        assert !Holds(s, a.t);
        assert SoleHolder(after, a.t);
        assert after.threads[a.t].value == s.slot.value;
      } else {
        forall u ensures !Holds(after, u) {
          assert !Holds(s, u);
        }
      }
    } else {
      var t :| SoleHolder(s, t);
      assert Value(s) == s.threads[t].value;
      if after.slot.None? {
        assert Holds(after, a.t) <==> a.t == t;
        assert SoleHolder(after, t);
      } else {
        assert a.Drop? && Holds(s, a.t);
        forall u ensures !Holds(after, u) {
          assert Holds(s, u) ==> u == a.t;
        }
      }
    }
  }

  lemma StepKeepsWakeUp<T>(s: Lock<T>, a: Step<T>)
    requires OnePlace(s) && NoLostWakeUp(s) && Enabled(s, a)
    ensures NoLostWakeUp(Next(s, a))
  {
    var after := Next(s, a);
    if after.slot.Some? && exists t :: Asleep(after, t) {
      var t :| Asleep(after, t);
      match a {
        case Drop(_, woken) =>
          if woken.Some? {
            assert woken.value in after.threads && after.threads[woken.value].Checking?;
          } else {
            assert Asleep(s, t);
          }
        case Arrive(u, _) => assert u in after.threads && after.threads[u].Checking?;
        case Wake(u) => assert u in after.threads && after.threads[u].Checking?;
        case Check(_, _) => assert s.slot.Some?;
        case Write(u, _) => assert Holds(s, u);
      }
    }
  }

  lemma StepKeepsInv<T>(s: Lock<T>, a: Step<T>)
    requires Inv(s) && Enabled(s, a)
    ensures Inv(Next(s, a))
  {
    StepKeepsOnePlace(s, a);
    StepKeepsWakeUp(s, a);
  }

  /** Only a writing holder changes the value; nobody loses or copies it. */
  lemma StepConservesValue<T>(s: Lock<T>, a: Step<T>)
    requires Inv(s) && Enabled(s, a)
    ensures OnePlace(Next(s, a))
    ensures Value(Next(s, a)) == if a.Write? then a.value else Value(s)
  {
    StepKeepsOnePlace(s, a);
  }

  /** Giving up happens only on an empty slot and takes nothing along. */
  lemma TimeoutTakesNothing<T>(s: Lock<T>, t: int)
    requires Inv(s) && Enabled(s, Check(t, true)) && t !in Next(s, Check(t, true)).threads
    ensures s.slot.None? && Next(s, Check(t, true)).slot.None?
    ensures exists u :: u != t && Holds(s, u) && Next(s, Check(t, true)).threads[u] == s.threads[u]
  {
    var u :| Holds(s, u);
    assert u != t;
  }

  ghost predicate Legal<T>(value: T, steps: seq<Step<T>>)
    decreases |steps|, 0
  {
    steps != [] ==>
      var before := steps[..|steps| - 1];
      Legal(value, before) && Enabled(Reached(value, before), steps[|steps| - 1])
  }

  ghost function Reached<T>(value: T, steps: seq<Step<T>>): Lock<T>
    requires Legal(value, steps)
    decreases |steps|, 1
  {
    if steps == [] then Initial(value)
    else Next(Reached(value, steps[..|steps| - 1]), steps[|steps| - 1])
  }

  function LastWrite<T>(value: T, steps: seq<Step<T>>): T {
    if steps == [] then value
    else if steps[|steps| - 1].Write? then steps[|steps| - 1].value
    else LastWrite(value, steps[..|steps| - 1])
  }

  /** In every run the one value is the last one written. */
  lemma {:induction false} EveryRunConserves<T>(value: T, steps: seq<Step<T>>)
    requires Legal(value, steps)
    ensures Inv(Reached(value, steps))
    ensures Value(Reached(value, steps)) == LastWrite(value, steps)
  {
    if steps != [] {
      EveryRunConserves(value, steps[..|steps| - 1]);
      StepKeepsInv(Reached(value, steps[..|steps| - 1]), steps[|steps| - 1]);
      StepConservesValue(Reached(value, steps[..|steps| - 1]), steps[|steps| - 1]);
    }
  }

  /** Waking one waiter per release is enough: whenever anyone waits, a holder
      will release or a waiter is awake, and an awake waiter takes a full slot. */
  lemma NeverStuck<T>(s: Lock<T>, t: int)
    requires Inv(s) && t in s.threads
    ensures (exists u :: Holds(s, u)) || exists u ::
              && Enabled(s, Check(u, false)) && s.slot.Some?
              && Holds(Next(s, Check(u, false)), u)
  {
    if s.slot.Some? {
      if s.threads[t].Sleeping? {
        assert Asleep(s, t);
      } else {
        assert s.threads[t].Checking? || Holds(s, t);
      }
      var u :| u in s.threads && s.threads[u].Checking?;
      assert Enabled(s, Check(u, false));
      assert Holds(Next(s, Check(u, false)), u);
    }
  }

  // ---- The lock in memory ------------------------------------------------------

  /** The shared slot; `threads` says where each thread stands. */
  class StateSlot<T> {
    var slot: Option<T>
    ghost var threads: map<int, Phase<T>>

    ghost function State(): Lock<T>
      reads this
    {
      Lock(slot, threads)
    }

    constructor (value: T)
      ensures State() == Initial(value) && Inv(State())
    {
      slot, threads := Some(value), map[];
    }

    /** One turn of a waiter's loop under the inner mutex: take the value, give
        up, or go to sleep. */
    method TakeOrWait(t: int, expired: bool) returns (guard: Option<T>)
      requires Inv(State()) && Enabled(State(), Check(t, expired))
      modifies this
      ensures State() == Next(old(State()), Check(t, expired)) && Inv(State())
      ensures guard == old(slot) && slot.None?
      ensures guard.Some? <==> Holds(State(), t)
      ensures guard.None? ==> if expired then t !in State().threads else Asleep(State(), t)
    {
      StepKeepsInv(State(), Check(t, expired));
      guard := slot;
      if slot.Some? {
        slot := None;
        threads := threads[t := Holding(guard.value)];
      } else if expired {
        threads := threads - {t};
      } else {
        threads := threads[t := Sleeping(threads[t].timed)];
      }
    }

    /** Dropping a guard puts its value back and notifies one sleeper, if any. */
    method Release(t: int, value: T, ghost woken: Option<int>)
      requires Inv(State()) && Enabled(State(), Drop(t, woken)) && threads[t] == Holding(value)
      modifies this
      ensures State() == Next(old(State()), Drop(t, woken)) && Inv(State())
      ensures slot == Some(value)
    {
      StepKeepsInv(State(), Drop(t, woken));
      slot := Some(value);
      threads := threads - {t};
      if woken.Some? {
        threads := threads[woken.value := Checking(threads[woken.value].timed)];
      }
    }
  }

  // ---- Who waits and who leaves --------------------------------------------------

  /** One look at the slot: a full one is taken, an empty one is waited for unless
      the waiter's time is over; nobody else is affected. */
  lemma CheckExactly<T>(s: Lock<T>, t: int, expired: bool, u: int)
    requires Enabled(s, Check(t, expired))
    ensures var after := Next(s, Check(t, expired));
            && (s.slot.Some? ==>
                  after.slot.None? && t in after.threads && after.threads[t] == Holding(s.slot.value))
            && (s.slot.None? && !expired ==>
                  after.slot.None? && t in after.threads && after.threads[t] == Sleeping(s.threads[t].timed))
            && (t !in after.threads <==> expired && s.slot.None?)
            && (s.slot.None? ==> after.slot.None?)
            && (u != t ==> (u in after.threads <==> u in s.threads)
                           && (u in s.threads ==> after.threads[u] == s.threads[u]))
  {
  }

  /** A thread that arrives or wakes looks at the slot next, with its own deadline. */
  lemma LooksNext<T>(s: Lock<T>, t: int, timed: bool, u: int)
    ensures Enabled(s, Arrive(t, timed)) ==> Next(s, Arrive(t, timed)) == s.(threads := s.threads[t := Checking(timed)])
    ensures Asleep(s, t) ==>
              && Enabled(s, Wake(t)) && Enabled(Next(s, Wake(t)), Check(t, s.threads[t].timed))
              && Next(s, Wake(t)).slot == s.slot
              && (u != t ==> (u in Next(s, Wake(t)).threads <==> u in s.threads)
                             && (u in s.threads ==> Next(s, Wake(t)).threads[u] == s.threads[u]))
  {
  }

  /** Dropping a guard refills the slot, and wakes one sleeper if there is any. */
  lemma DropExactly<T>(s: Lock<T>, t: int, woken: Option<int>, u: int)
    requires Enabled(s, Drop(t, woken))
    ensures var after := Next(s, Drop(t, woken));
            && after.slot == Some(s.threads[t].value) && t !in after.threads
            && (woken.Some? ==>
                  woken.value in after.threads && after.threads[woken.value] == Checking(s.threads[woken.value].timed))
            && (woken.None? ==> !Asleep(s, u))
            && (u != t && woken != Some(u) ==> (u in after.threads <==> u in s.threads)
                                               && (u in s.threads ==> after.threads[u] == s.threads[u]))
  {
  }

  /** Whether thread `t` is inside, and with a deadline: it came and has neither
      released its guard nor found an empty slot when its time was over. */
  ghost function Inside<T>(value: T, steps: seq<Step<T>>, t: int): Option<bool>
    requires Legal(value, steps)
  {
    if steps == [] then None
    else
      var before, last := steps[..|steps| - 1], steps[|steps| - 1];
      match last
      case Arrive(u, timed) => if u == t then Some(timed) else Inside(value, before, t)
      case Drop(u, _) => if u == t then None else Inside(value, before, t)
      case Check(u, expired) =>
        if u == t && expired && Reached(value, before).slot.None? then None else Inside(value, before, t)
      case _ => Inside(value, before, t)
  }

  predicate KeepsDeadline<T>(phase: Phase<T>, timed: bool) {
    !phase.Holding? ==> phase.timed == timed
  }

  /** In every run exactly the threads inside are known to the lock, each with the
      deadline it came with. */
  lemma {:induction false} ThreadsAreInside<T>(value: T, steps: seq<Step<T>>, t: int)
    requires Legal(value, steps)
    ensures var threads := Reached(value, steps).threads;
            && (t in threads <==> Inside(value, steps, t).Some?)
            && (t in threads ==> KeepsDeadline(threads[t], Inside(value, steps, t).value))
  {
    if steps != [] {
      ThreadsAreInside(value, steps[..|steps| - 1], t);
    }
  }

  /** In every run a thread that waits without a deadline leaves only by releasing
      the value it was given; one with a deadline may also leave an empty slot. */
  lemma LeavesOnlyByRelease<T>(value: T, steps: seq<Step<T>>, a: Step<T>, t: int)
    requires Legal(value, steps) && Enabled(Reached(value, steps), a)
    requires t in Reached(value, steps).threads && t !in Next(Reached(value, steps), a).threads
    ensures var s := Reached(value, steps);
            && a.t == t && (a.Drop? || (a == Check(t, true) && s.slot.None? && Inside(value, steps, t) == Some(true)))
            && (Inside(value, steps, t) == Some(false) ==> a.Drop? && Holds(s, t))
  {
    ThreadsAreInside(value, steps, t);
  }
}
