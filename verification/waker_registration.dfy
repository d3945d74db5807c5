/**
 * The register as an object: a mutable slot for at most one wakeup handle.
 * Invoking a handle is recorded by appending it to the ghost log `woken`.
 */
module Registration {
  import opened WakerModel

  class WakerRegistration {
    var waker: Option<Waker>
    /** Every handle this register has invoked so far, oldest first. */
    ghost var woken: seq<Waker>

    /** The register's state as a value of the functional model. */
    ghost function Snapshot(): State
      reads this
    {
      State(waker, woken)
    }

    /** `new`: an empty register that has invoked nothing. */
    constructor ()
      ensures Snapshot() == New()
    {
      waker := None;
      woken := [];
    }

    /**
     * `register(w)`: keeps the stored handle when it will_wake `w`; otherwise
     * stores `w` and invokes the displaced handle, if any, before returning.
     */
    method Register(w: Waker, willWake: WillWake)
      modifies this
      ensures Snapshot() == WakerModel.Register(old(Snapshot()), w, willWake)
    {
      if waker.Some? && willWake(waker.value, w) {
        // the stored handle wakes the same task: keep it
      } else {
        var displaced := waker;
        waker := Some(w);
        if displaced.Some? {
          woken := woken + [displaced.value];
        }
      }
    }

    /** `wake`: takes the stored handle out of the slot and invokes it, if any. */
    method Wake()
      modifies this
      ensures Snapshot() == WakerModel.Wake(old(Snapshot()))
    {
      var taken := waker;
      waker := None;
      if taken.Some? {
        woken := woken + [taken.value];
      }
    }

    /** `occupied`: whether a handle is currently stored. */
    function Occupied(): (r: bool)
      reads this
      ensures r <==> WakerModel.Occupied(Snapshot())
    {
      waker.Some?
    }
  }
}
