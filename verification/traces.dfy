/**
 * Sequences of calls on one register, from a given state, and what holds of
 * every such sequence: the log of invoked handles only grows, no handle is
 * invoked that was never registered, invocations never outnumber
 * registrations, and no registered task is left without a wakeup.
 */
module Traces {
  import opened WakerModel

  /** One call on the register (`occupied` changes nothing and is left out). */
  datatype Call = CallRegister(w: Waker) | CallWake

  function Step(s: State, c: Call, willWake: WillWake): State
  {
    match c
    case CallRegister(w) => Register(s, w, willWake)
    case CallWake => Wake(s)
  }

  /**
   * The state after the calls `calls`, in order, starting from `s`; the log
   * of the state before is kept, and each call adds at most one handle to it.
   */
  function Run(s: State, calls: seq<Call>, willWake: WillWake): (r: State)
    ensures s.woken <= r.woken && |r.woken| <= |s.woken| + |calls|
    decreases |calls|
  {
    if calls == [] then s
    else Step(Run(s, calls[..|calls| - 1], willWake), calls[|calls| - 1], willWake)
  }

  /** The number of `register` calls among `calls`. */
  function Registrations(calls: seq<Call>): nat
    decreases |calls|
  {
    if calls == [] then 0
    else Registrations(calls[..|calls| - 1]) + (if calls[|calls| - 1].CallRegister? then 1 else 0)
  }

  /** The log after a prefix of the calls is a prefix of the log after all of them. */
  lemma {:induction false} RunPrefix(s: State, calls: seq<Call>, k: nat, willWake: WillWake)
    requires k <= |calls|
    ensures Run(s, calls[..k], willWake).woken <= Run(s, calls, willWake).woken
  {
    if k == |calls| {
      assert calls[..k] == calls;
    } else {
      var pre := calls[..|calls| - 1];
      assert calls[..k] == pre[..k];
      RunPrefix(s, pre, k, willWake);
    }
  }

  /**
   * From a new register, the handles invoked plus the one still held never
   * outnumber the `register` calls: invocations never outnumber registrations.
   */
  lemma {:induction false} WakesBoundedByRegistrations(calls: seq<Call>, willWake: WillWake)
    ensures var r := Run(New(), calls, willWake);
            |r.woken| + (if Occupied(r) then 1 else 0) <= Registrations(calls)
  {
    if calls != [] {
      WakesBoundedByRegistrations(calls[..|calls| - 1], willWake);
    }
  }

  /**
   * From a new register, every handle invoked, and the handle held, was
   * passed to some `register` call.
   */
  lemma {:induction false} OnlyRegisteredWoken(calls: seq<Call>, willWake: WillWake)
    ensures var r := Run(New(), calls, willWake);
            && (forall j :: 0 <= j < |r.woken| ==> CallRegister(r.woken[j]) in calls)
            && (r.slot.Some? ==> CallRegister(r.slot.value) in calls)
  {
    if calls != [] {
      var pre := calls[..|calls| - 1];
      OnlyRegisteredWoken(pre, willWake);
      assert forall c :: c in pre ==> c in calls;
    }
  }

  /** Some handle at position `from` or later of `log` wakes `task`. */
  ghost predicate WokenFrom(log: seq<Waker>, from: nat, task: TaskId)
  {
    exists j :: from <= j < |log| && log[j].task == task
  }

  /**
   * `task` still has a wakeup coming: the register holds a handle for it, or
   * it was woken at position `from` of the log or later.
   */
  ghost predicate Served(s: State, from: nat, task: TaskId)
  {
    (s.slot.Some? && s.slot.value.task == task) || WokenFrom(s.woken, from, task)
  }

  /**
   * No lost wakeup: with a sound will_wake, the task of every `register` call
   * is, after any further calls, either still held by the register or was
   * woken after that `register` call returned.
   */
  lemma {:induction false} NoLostWakeup(s: State, calls: seq<Call>, i: nat, willWake: WillWake)
    requires Sound(willWake)
    requires i < |calls| && calls[i].CallRegister?
    ensures Served(Run(s, calls, willWake), |Run(s, calls[..i + 1], willWake).woken|, calls[i].w.task)
  {
    var n := |calls| - 1;
    var pre := calls[..n];
    var task := calls[i].w.task;
    var from := |Run(s, calls[..i + 1], willWake).woken|;
    var before := Run(s, pre, willWake);
    var after := Run(s, calls, willWake);
    assert after == Step(before, calls[n], willWake);
    if i == n {
      assert calls[..i + 1] == calls;
      assert after == Register(before, calls[i].w, willWake);
      assert after.slot.Some? && after.slot.value.task == task;
    } else {
      assert calls[..i + 1] == pre[..i + 1];
      NoLostWakeup(s, pre, i, willWake);
      if WokenFrom(before.woken, from, task) {
        var j :| from <= j < |before.woken| && before.woken[j].task == task;
        assert after.woken[j] == before.woken[j];
      } else {
        RunPrefix(s, pre, i + 1, willWake);
        var k := |before.woken|;
        match calls[n]
        case CallWake =>
          assert after.woken[k] == before.slot.value;
        case CallRegister(w) =>
          if !willWake(before.slot.value, w) {
            assert after.woken[k] == before.slot.value;
          }
      }
    }
  }
}
