# ext-fiber: the fiber state machine and its await/continue/when protocol

This project models the core of the PHP extension ext-fiber (`src/fiber.c`) in Dafny.
A `Fiber` object has the following parts:

- a `status`: INIT, SUSPENDED, RUNNING, FINISHED or DEAD;
- a transient `state`: READY, or SUSPENDING while `await` registers its continuation;
- two pending slots, `error` and `value`;
- a two-slot `result` holding (error, value);
- an ordered table of completion callbacks.

The extension also keeps two process-wide globals: the current fiber and a lazily created root context.

The project has five files:

- `throwables.dfy`: the values passed through a fiber and the exceptions the core raises. It covers their `previous` chains and the engine's `zend_exception_set_previous`.
- `observers.dfy`: what draining the callback table raises. A callback is an abstract id, and an `Invoker` function says whether calling it returns or throws.
- `fiber_model.dfy`: the fiber record as a value, with one step function per operation. Each function's `ensures` states what the protocol promises. Lemmas relate several operations: terminal states absorb every operation, observers are drained in registration order, the continue→await round trip, and the synchronous-resolution quirk.
- `fiber.dfy`: the `Fiber` class, with the fields of `zend_fiber` that `fiber.c` uses, and the `Scheduler` class (`FIBER_G`). Each method is proved to change the fields exactly as its step function says. `InvokeCallbacks` is the drain loop, with its invariants.
- `wrappers.dfy`: `Option`, used for the C pointers that may be NULL.

The native stack switch is an opaque primitive. `Scheduler.SwitchTo` covers only what surrounds it:

- the root context is created at most once;
- the previous current fiber is saved, and restored afterwards;
- a ghost log records each switch, together with the status the fiber was switched in with.

The fiber body that runs on the other stack is not executed. Where `await` gets control back, the resumer is a parameter (`Resumption`):

- A resumer that calls `continue` runs the same pre-switch part of continue (`Fiber.Resume`) that `Continue` uses.
- Destruction sets DEAD.

Registering the continuation on the awaitable is also a parameter (`Registration`). There are three cases:

- the engine could not call `when` at all (it reports FAILURE before anything runs);
- the awaitable invoked the continuation before returning, and with what;
- the awaitable kept the continuation for later.

`Fiber::inFiber` is the null test of the current fiber (`Scheduler.InFiber`). The current fiber is only ever changed by the save and restore in `SwitchTo`.

Destroying a SUSPENDED fiber switches into it once more. If that switch runs, the pending `await` throws "Fiber has been destroyed" and the body unwinds. How the body then ends is a parameter: the error escapes, or the body catches it and returns. Completion then runs as for any fiber: the fiber ends DEAD or FINISHED, and every observer is invoked once.

Points where the code behaves in ways worth knowing, all modelled as written:

- **Header out of date.** The struct in `include/fiber.h:29-57` has no `state`, `error` or `callbacks` field and a one-element `result`. The fields are taken from their use in `src/fiber.c`. The header does not define the `ZEND_FIBER_STATE_*` values either. READY is taken as the state of a freshly zeroed fiber. No behaviour depends on that choice, because `continue` needs SUSPENDED, which only `await` sets, and `await` sets SUSPENDING.
- **Synchronous resolution leaves SUSPENDED.** When the awaitable resolves synchronously, `await` returns with `status` still SUSPENDED, and the same holds after a failed registration. A subsequent `await` from the same fiber is then refused with "Cannot await from a fiber that is not running" (`SyncResolutionLeavesSuspended`). The status therefore does not strictly alternate RUNNING⇄SUSPENDED.
- **Failed registration changes state.** When the engine cannot call `when` on the awaitable, `await` returns null but leaves the fiber SUSPENDED. This protocol failure does change state.
- **Destroying before the end drops observers.** Destroying a fiber that is not SUSPENDED and not yet complete (INIT, for instance) frees its callback table without invoking anything. The same happens when the final switch into a SUSPENDED fiber does not run.
- **Method name.** The Awaitable interface declares `onResolve` (`src/awaitable.c:25`). `await` calls `when` on the awaitable. The model keeps the registration abstract.
- **`when` before the end.** `when` on a fiber that has not finished appends to the table, INIT included. The model follows that.

## Model

| member | source | states |
|---|---|---|
| `Throwables.SetPrevious` | src/fiber.c:155-159 | the chain of the result is the new exception's chain followed by the earlier captured one's: the earlier exception becomes the innermost `previous` |
| `Throwables.Raise` | src/fiber.c:168-174 | an exception thrown while another is pending has that one as its `previous`; with none pending it stands alone |
| `Observers.CapturedIffSomeThrew` | src/fiber.c:152-166 | the drain loop has captured an exception exactly when at least one callback threw |
| `Observers.CapturedChain` | src/fiber.c:155-163 | the captured chain holds every thrown exception's chain, the most recently thrown first; nothing is captured when nothing was thrown |
| `Observers.DrainRaised` | src/fiber.c:146-176 | draining raises iff some callback threw; what it raises is "Exception thrown in when() callback", chained over all thrown exceptions, newest first |
| `FiberModel.ContinueStep` | src/fiber.c:346-364 | refused with no change unless SUSPENDED; the exception takes priority over the value and neither given leaves both slots; while SUSPENDING it only sets READY and keeps the status; otherwise it sets RUNNING before the switch; result and callbacks untouched |
| `FiberModel.AwaitStep` | src/fiber.c:413-471 | refused with no change unless RUNNING; switches out exactly when the awaitable kept the continuation for later; without a switch the status stays SUSPENDED; resumed by destruction it throws "Fiber has been destroyed"; from empty slots it delivers exactly the resolution it got and leaves both slots empty; when `when` could not be called it returns null with the slots untouched |
| `FiberModel.CompleteStep` | src/fiber.c:203-217 | an escaped exception makes DEAD with result[0] set, a return makes FINISHED with result[1] set; every callback is invoked once, in table order, with the final (error, value); the table is freed |
| `FiberModel.WhenStep` | src/fiber.c:490-505 | on FINISHED/DEAD the callback runs at once with (result[0], result[1]) and nothing is stored; what it throws is wrapped in "Exception thrown in when callback"; any other fiber gets the callback appended to the end of its table |
| `FiberModel.DestroyStep` | src/fiber.c:248-257 | a SUSPENDED fiber becomes DEAD; if the final switch runs, the fiber is completed as `CompleteStep` says with the body's ending, so it ends DEAD or FINISHED and every observer is invoked once, in order; if the switch does not run it stays DEAD and its observers are dropped; any other fiber keeps its status and its table is freed without calling anything |
| `FiberModel.Step` | src/fiber.c:332-506 | continue, await and when each keep the table present unless the fiber is terminal |
| `FiberModel.Apply` | src/fiber.c:332-506 | any sequence of continue/await/when keeps that invariant and never changes the result slots |
| `FiberModel.TerminalIsAbsorbing` | src/fiber.c:346-496 | on a FINISHED or DEAD fiber any sequence of continue, await and when leaves the fiber exactly as it was |
| `FiberModel.WhenAppendsInOrder` | src/fiber.c:498-505 | `when` calls on a live fiber leave the table as the old table followed by the callbacks in call order |
| `FiberModel.ObserversDrainedInOrder` | src/fiber.c:152-166 | callbacks registered on a live fiber are invoked at completion after those already in the table, exactly in registration order, each once, whatever they throw |
| `FiberModel.DestroyDrainsObservers` | src/fiber.c:248-251 | destroying a suspended fiber whose final switch runs invokes every observer registered before, once each, in registration order |
| `FiberModel.SyncResolutionLeavesSuspended` | src/fiber.c:422-462 | after a synchronously resolved await there was no switch, the status is still SUSPENDED, and the next await from that fiber is refused as "not running" |
| `FiberModel.ContinueAwaitRoundTrip` | src/fiber.c:351-462 | a continue reaching a really suspended fiber takes the switching path, and the value it passes is the value await returns |
| `Fibers.Scheduler.constructor` | src/fiber.c:64-74 | the globals start empty: no fiber is current and no root context exists until `SwitchTo` creates it |
| `Fibers.Scheduler.SwitchTo` | src/fiber.c:60-94 | the root context is created at most once and kept; without it nothing is switched and the call fails; otherwise the switch is logged with the fiber's status and the previous current fiber, and the previous current fiber is current again afterwards |
| `Fibers.Fiber.constructor` | src/fiber.c:223-239 | a new fiber is INIT with empty slots, null results and an empty table |
| `Fibers.Fiber.Run` | src/fiber.c:284-326 | context or native creation failure throws its error and returns no fiber without touching the globals; otherwise the root is created at most once, the current fiber is restored, and when a root exists exactly one switch is logged: into the freshly created RUNNING fiber (the returned one on success), from the fiber current before; a failed switch throws "Failed switching to fiber" |
| `Fibers.Fiber.Resume` | src/fiber.c:346-364 | changes the fields exactly as `ContinueStep` says, keeps the table-present invariant, and reports its effect |
| `Fibers.Fiber.Continue` | src/fiber.c:332-370 | as `ContinueStep`; refusal throws FiberError and synchronous resolution returns, both without touching the globals; otherwise the logged switch has the fiber RUNNING, the root is created at most once, and the current fiber is restored; a valid fiber stays valid |
| `Fibers.Fiber.Await` | src/fiber.c:389-472 | with no current fiber it throws "Cannot await from outside a fiber" and changes nothing; otherwise the current fiber changes and the result is as `AwaitStep` says, and a valid fiber stays valid |
| `Fibers.Fiber.When` | src/fiber.c:477-506 | as `WhenStep`, keeping the table-present invariant |
| `Fibers.Fiber.InvokeCallbacks` | src/fiber.c:146-176 | invokes the whole table in order, each once; raises iff some callback threw, with the chained exception of `DrainRaised` |
| `Fibers.Fiber.Complete` | src/fiber.c:187-220 | as `CompleteStep`, from the point where the body has ended; afterwards the fiber is terminal and its table is gone |
| `Fibers.Fiber.Destroy` | src/fiber.c:242-266 | as `DestroyStep`: only a SUSPENDED fiber is switched into once more, already DEAD, and is completed when that switch runs; the root is created at most once and the current fiber is restored |

## Left out

- Native context primitives (`zend_fiber_create_context`, `zend_fiber_create`, `zend_fiber_switch_context`, `zend_fiber_suspend`, `zend_fiber_destroy`, `zend_fiber_create_root_context`) are platform stack switching implemented outside `src/fiber.c`. Their results appear only as parameters: `contextCreated`, `nativeCreated`, `newRoot`, `switched`.
- The host VM register save and restore (`ZEND_FIBER_BACKUP_EG`/`RESTORE_EG`), the VM stack set-up in `zend_fiber_run` and `Fiber::run`, and the `abort()` after the final suspend are interpreter memory layout.
- The `opline` adjustment around the throw at the end of await is modelled only as "await throws the pending error".
- Reference counting, parameter parsing, closure creation, the FiberError and Fiber constructors that refuse manual use, class and opcode registration, unregister and shutdown, and the arginfo tables are not modelled. `src/awaitable.c` and the stubs only declare interfaces.
- Fibers.Scheduler.SwitchTo: does not run the fiber body on the other stack. What the body does while switched in (awaits, completion, other switches) is modelled by the separate operations, not as an effect of the switch.
- Fibers.Fiber.Await: the resumer is a parameter. `when` calls or other changes made to the fiber while it is suspended are not modelled. A registration can invoke the continuation at most once before returning. A second synchronous invocation would switch into the running fiber itself.
- Fibers.Fiber.Complete: the body's run between setting RUNNING and its outcome is abstract. Callbacks added by the body are not modelled.
- Fibers.Fiber.Run: returns the fiber as it is when switched into. The body's run up to its first suspension is not applied.
- Fibers.Fiber.Destroy: does not model releasing result[0]/result[1] or destroying the native context. It does not keep `Valid()`, because the object is gone afterwards. The body's unwinding after "Fiber has been destroyed" is abstract: only how it ends is a parameter.
- FiberModel.AwaitStep: if the awaitable's `when` throws, the engine still reports success with the exception pending; the fiber then suspends with it pending and it surfaces in the resumer. `Registration` has no case for this.
- FiberModel.AwaitStep: the pending slots hold pointers to `continue`'s own argument values, and on the synchronous path that call's frame is already released when `await` reads the value. The model stores the values themselves, so it does not capture that lifetime hazard.
- FiberModel.CompleteStep: `zend_exception_set_previous` changes the thrown exception object in place, and every callback receives the same result[0] object. A callback that rethrows its error argument after an earlier callback threw therefore lengthens result[0]'s own chain during the drain, and later callbacks, and later `when` calls on the dead fiber, see that longer chain. The model's result slots are values that the drain does not change, so every callback sees result[0] as the body left it.
- Fibers.Fiber.Complete: inherits the same simplification: result[0] is a value, not a shared object that the drain's chaining can change.
- Throwables.SetPrevious: the engine's guard against making a chain cyclic compares object identity. Exceptions here are values without identity, so that guard is not modelled.
- PHP values other than null are opaque tokens. Callbacks and the fiber body are abstract: an `Invoker` function and an `Outcome` parameter.
