# WakerRegistration, modelled in Dafny

`WakerRegistration` is a single-slot register for task wakeup handles
(`core::task::Waker`). A resource such as a queue embeds one. A task that must
suspend calls `register` with its waker. When the awaited condition becomes
true, the resource calls `wake`, which takes the stored waker out and invokes
it. The register holds at most one waker. A task that registers while another
task's waker is stored displaces it, and the displaced waker is invoked at
once, so its task re-polls instead of hanging. If the stored waker
`will_wake` the new one, `register` keeps the stored one and skips the clone.

The model has three parts:

- `waker_model.dfy` (module `WakerModel`) gives the register's state as a
  value. `State` holds the slot and the log of wakers invoked so far.
  `New`, `Register` and `Wake` map the state before a call to the state after
  it. Lemmas state what each call does in each of its cases, plus three short
  call sequences: a task displaced by another task, a task registering twice,
  and a register reused over two register-then-wake cycles.
- `traces.dfy` (module `Traces`) runs any sequence of calls. It proves four
  things about every sequence. The log only grows. Only registered wakers are
  invoked. Invocations never outnumber registrations. No registered task is
  left without a wakeup.
- `waker_registration.dfy` (module `Registration`) is the class
  `WakerRegistration`. It has the mutable field `waker: Option<Waker>` and a
  ghost log `woken`. Each method's postcondition equates the object's new
  state with the functional model applied to its old state.

A waker is abstracted as `Waker(task, handle)`. `task` is the task that
invoking it schedules. `handle` tells apart distinct wakers for one task. A
clone is the same value. `Waker::will_wake` is a best-effort test: the
standard library compares the two wakers' raw data and vtable pointers, which
the executor supplies. It is a parameter of type `(Waker, Waker) -> bool`. The
only thing ever assumed of it is `Sound`: a `true` answer means both wakers
wake the same task. It is never assumed to be exact, because it may answer
`false` for two wakers of the same task. Invoking a waker (`Waker::wake`)
appends it to the log.

The comment at core/src/walker_registration.rs:28 speaks of a displaced waker
"for another task". The code at lines 25-37 invokes the displaced waker
whenever `will_wake` answered `false`, which can happen for a waker of the
same task. The model follows the code (`WakerModel.Register`,
`WakerModel.RegisterDisplaces`).

## Model

| member | source | states |
|---|---|---|
| `WakerModel.New` | core/src/walker_registration.rs:14-16 | a new register is not occupied and has invoked no waker |
| `WakerModel.Occupied` | core/src/walker_registration.rs:51-53 | true exactly when the slot holds a waker, that is, when taking it out would invoke exactly one waker |
| `WakerModel.Register` | core/src/walker_registration.rs:19-41 | afterwards the register is occupied; when the stored waker `will_wake` the new one nothing changes, and otherwise the new waker is stored; the log only grows, by one waker exactly when a stored waker that does not `will_wake` the new one is displaced, and that waker is the displaced one |
| `WakerModel.Wake` | core/src/walker_registration.rs:44-48 | afterwards the register is empty; a stored waker is invoked once, and an empty register stays as it was |
| `WakerModel.RegisterWhenEmpty` | core/src/walker_registration.rs:25-27 | on an empty register, `register` stores the new waker and invokes nothing |
| `WakerModel.RegisterSameTask` | core/src/walker_registration.rs:21-24 | when the stored waker `will_wake` the new one, `register` changes neither the slot nor the log |
| `WakerModel.RegisterDisplaces` | core/src/walker_registration.rs:27-38 | when the stored waker does not `will_wake` the new one, `register` stores the new one and invokes the displaced waker exactly once, and nothing else |
| `WakerModel.RegisterThenWakeSchedulesTask` | core/src/walker_registration.rs:19-48 | with a sound `will_wake`, a `wake` after `register(w)` invokes a waker of `w`'s task |
| `WakerModel.WakeTwice` | core/src/walker_registration.rs:44-48 | a second consecutive `wake` invokes nothing and changes nothing |
| `WakerModel.DisplacementScenario` | core/src/walker_registration.rs:27-38 | `register(h1); register(h2)` for distinct tasks invokes `h1` during the second call; a following `wake` invokes `h2` and not `h1` again |
| `WakerModel.SameTaskScenario` | core/src/walker_registration.rs:21-24 | `register(h1); register(h2)` when `h1` `will_wake` `h2` invokes nothing; a following `wake` invokes `h1` once |
| `WakerModel.ReuseAcrossCycles` | core/src/walker_registration.rs:14-53 | `register(h1); wake(); register(h2); wake()` invokes each waker once, in its own `wake`, and `occupied` alternates true, false, true, false |
| `Traces.Run` | core/src/walker_registration.rs:19-48 | over any sequence of calls, the log before is kept as a prefix and grows by at most one waker per call |
| `Traces.RunPrefix` | core/src/walker_registration.rs:19-48 | the log after some of the calls is a prefix of the log after all of them: invocations are never undone |
| `Traces.WakesBoundedByRegistrations` | core/src/walker_registration.rs:19-48 | from a new register, the number of wakers invoked plus the one still held is at most the number of `register` calls |
| `Traces.OnlyRegisteredWoken` | core/src/walker_registration.rs:19-48 | from a new register, every waker invoked or held was passed to some `register` call |
| `Traces.NoLostWakeup` | core/src/walker_registration.rs:27-38 | with a sound `will_wake`, the task of every `register` call is, after any further calls, either still held by the register or woken after that call returned |
| `Registration.WakerRegistration.constructor` | core/src/walker_registration.rs:14-16 | a new object is empty and has invoked nothing, as `WakerModel.New` |
| `Registration.WakerRegistration.Register` | core/src/walker_registration.rs:19-41 | the object's slot and log afterwards are those `WakerModel.Register` gives for its slot and log before |
| `Registration.WakerRegistration.Wake` | core/src/walker_registration.rs:44-48 | the object's slot and log afterwards are those `WakerModel.Wake` gives for its slot and log before |
| `Registration.WakerRegistration.Occupied` | core/src/walker_registration.rs:51-53 | true exactly when the slot holds a waker; a function that reads the object, so it changes neither slot nor log |

## Left out

- `core::task::Waker` itself and its executor: cloning, the vtable and what invoking a waker schedules. A waker is a task identifier plus a handle number, a clone is the same value, `will_wake` is a parameter, and invoking appends to a log.
- What an invoked waker runs: invoking one is recorded in the ghost log `woken`; foreign code that the invocation might run is not modelled.
- The `Debug` and `Default` derives (core/src/walker_registration.rs:7): language-generated code, not logic of this file.
- Dropping a register: a waker still held is dropped without being invoked. This is Rust drop behaviour; the model never invokes a held waker except through `Wake` or displacement.
- Concurrency: the type does no synchronisation and every mutation goes through `&mut self`, so calls are modelled one after another.
- The cost of cloning a waker, which the `will_wake` shortcut avoids: cost is not a behavioural property.
