/**
 * The single-slot wakeup register as a value: the slot that holds at most one
 * wakeup handle, and the log of handles invoked so far. Each operation of the
 * register is a function from the state before the call to the state after it.
 */
module WakerModel {

  datatype Option<T> = None | Some(value: T)

  /** The task a wakeup handle schedules for re-polling when it is invoked. */
  type TaskId = nat

  /**
   * An opaque wakeup handle. `task` is the task that invoking it schedules;
   * `handle` tells apart distinct handles that may exist for one task. Cloning
   * a handle yields the same value.
   */
  datatype Waker = Waker(task: TaskId, handle: nat)

  /**
   * `Waker::will_wake(self, other)`: a best-effort answer to "would invoking
   * `self` wake the same task as invoking `other`?". The standard library
   * compares the two wakers' raw data and vtable pointers, which come from
   * the executor; the model keeps it abstract.
   */
  type WillWake = (Waker, Waker) -> bool

  /**
   * All that the standard library promises of `will_wake`: a `true` answer
   * means both handles wake the same task. A `false` answer means nothing, as
   * it may be given for two handles of one task.
   */
  ghost predicate Sound(willWake: WillWake)
  {
    forall a, b :: willWake(a, b) ==> a.task == b.task
  }

  /**
   * The observable state of a register: its slot, and every handle it has
   * invoked so far, oldest first.
   */
  datatype State = State(slot: Option<Waker>, woken: seq<Waker>)

  /** The handles invoked when the content of `slot` is taken out and woken. */
  function Invoked(slot: Option<Waker>): seq<Waker>
  {
    match slot
    case None => []
    case Some(w) => [w]
  }

  /** `occupied`: whether the slot holds a handle, that is, whether taking it out would invoke one. */
  function Occupied(s: State): (r: bool)
    ensures r <==> |Invoked(s.slot)| == 1
  {
    s.slot.Some?
  }

  /** `new`: a register with nothing in its slot, that has invoked nothing. */
  function New(): (r: State)
    ensures !Occupied(r) && r.woken == []
  {
    State(None, [])
  }

  /**
   * `register(w)`: keep the stored handle when it will_wake `w`; otherwise
   * store `w` and invoke the handle it displaces, if any.
   */
  function Register(s: State, w: Waker, willWake: WillWake): (r: State)
    ensures Occupied(r)
    // nothing at all changes when the stored handle will_wake `w`;
    // otherwise `w` is stored
    ensures s.slot.Some? && willWake(s.slot.value, w) ==> r == s
    ensures !(s.slot.Some? && willWake(s.slot.value, w)) ==> r.slot == Some(w)
    // the log only grows, by at most one handle
    ensures s.woken <= r.woken && |r.woken| <= |s.woken| + 1
    // a handle is invoked exactly when a stored handle is displaced by one it
    // does not will_wake, and the handle invoked is the displaced one
    ensures |r.woken| == |s.woken| + 1 <==> s.slot.Some? && !willWake(s.slot.value, w)
    ensures |r.woken| == |s.woken| + 1 ==> r.woken[|s.woken|] == s.slot.value
  {
    if s.slot.Some? && willWake(s.slot.value, w) then
      s
    else
      State(Some(w), s.woken + Invoked(s.slot))
  }

  /** `wake`: take the stored handle out of the slot and invoke it, if there is one. */
  function Wake(s: State): (r: State)
    ensures !Occupied(r)
    ensures s.slot.Some? ==> r.woken == s.woken + [s.slot.value]
    ensures s.slot.None? ==> r == s
  {
    State(None, s.woken + Invoked(s.slot))
  }

  /** Registering on an empty register stores the handle and invokes nothing. */
  lemma RegisterWhenEmpty(s: State, w: Waker, willWake: WillWake)
    requires !Occupied(s)
    ensures Register(s, w, willWake) == State(Some(w), s.woken)
  {
  }

  /** Registering a handle the stored one will_wake changes nothing and invokes nothing. */
  lemma RegisterSameTask(s: State, w: Waker, willWake: WillWake)
    requires s.slot.Some? && willWake(s.slot.value, w)
    ensures Register(s, w, willWake) == s
  {
  }

  /**
   * Registering a handle the stored one does not will_wake stores the new
   * handle and invokes the displaced one, once, and nothing else.
   */
  lemma RegisterDisplaces(s: State, w: Waker, willWake: WillWake)
    requires s.slot.Some? && !willWake(s.slot.value, w)
    ensures Register(s, w, willWake) == State(Some(w), s.woken + [s.slot.value])
  {
  }

  /**
   * With a sound will_wake, whatever handle the register holds after
   * `register(w)` wakes the task of `w`: a later `wake` schedules that task.
   */
  lemma RegisterThenWakeSchedulesTask(s: State, w: Waker, willWake: WillWake)
    requires Sound(willWake)
    ensures var r := Wake(Register(s, w, willWake));
            |r.woken| >= 1 && r.woken[|r.woken| - 1].task == w.task
  {
  }

  /** A second consecutive `wake` invokes nothing. */
  lemma WakeTwice(s: State)
    ensures Wake(Wake(s)) == Wake(s)
  {
  }

  /**
   * `register(h1); register(h2)` for handles of distinct tasks, then `wake`:
   * `h1` is invoked during the second register, `h2` by the wake, each once.
   */
  lemma DisplacementScenario(h1: Waker, h2: Waker, willWake: WillWake)
    requires Sound(willWake) && h1.task != h2.task
    ensures var s1 := Register(New(), h1, willWake);
            var s2 := Register(s1, h2, willWake);
            s1.woken == [] && s2.woken == [h1] && Wake(s2).woken == [h1, h2]
  {
  }

  /**
   * `register(h1); register(h2)` where `h1` will_wake `h2`, then `wake`: the
   * second register invokes nothing and the wake invokes the stored `h1` once.
   */
  lemma SameTaskScenario(h1: Waker, h2: Waker, willWake: WillWake)
    requires willWake(h1, h2)
    ensures var s2 := Register(Register(New(), h1, willWake), h2, willWake);
            s2.woken == [] && Wake(s2).woken == [h1]
  {
  }

  /**
   * `register(h1); wake(); register(h2); wake()`: each handle is invoked once,
   * by its own wake, and the register goes occupied, empty, occupied, empty.
   */
  lemma ReuseAcrossCycles(h1: Waker, h2: Waker, willWake: WillWake)
    ensures var s1 := Register(New(), h1, willWake);
            var s2 := Wake(s1);
            var s3 := Register(s2, h2, willWake);
            var s4 := Wake(s3);
            && Occupied(s1) && s1.woken == []
            && !Occupied(s2) && s2.woken == [h1]
            && Occupied(s3) && s3.woken == [h1]
            && !Occupied(s4) && s4.woken == [h1, h2]
  {
  }
}
