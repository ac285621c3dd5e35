/**
 * The Fiber object of src/fiber.c and the process-wide fiber globals.
 *
 * The native stack switch is an opaque primitive. `Scheduler.SwitchTo` keeps
 * only the bookkeeping around it (the lazily created root context and the
 * save/restore of the current fiber) and records each switch in a ghost log;
 * the fiber body that runs on the other stack is not executed by the model.
 * Where await gets control back, the resumer's action is a parameter.
 */
module Fibers {
  import opened Wrappers
  import opened Throwables
  import opened Observers
  import opened FiberModel

  /** A native context handle. */
  type ContextId = nat

  /** One switch into `target`: its status at that moment, and the fiber that
      was current before (null for the root context). */
  datatype SwitchRecord = SwitchRecord(target: Fiber, status: Status, from: Fiber?)

  /** FIBER_G: the current fiber and the root context. */
  class Scheduler {
    var current: Fiber?
    var root: Option<ContextId>
    ghost var switches: seq<SwitchRecord>

    constructor ()
      ensures current == null && root == None && switches == []
    {
      current := null;
      root := None;
      switches := [];
    }

    /** Fiber::inFiber. */
    method InFiber() returns (inside: bool)
      ensures inside <==> current != null
    {
      inside := current != null;
    }

    /** zend_fiber_switch_to. `newRoot` is what creating the root context yields
        (None when it fails); `switched` is what the native switch reports. */
    method SwitchTo(fiber: Fiber, newRoot: Option<ContextId>, switched: bool) returns (ok: bool)
      modifies this
      // the root context is created at most once and then kept
      ensures old(root).Some? ==> root == old(root)
      ensures old(root).None? ==> root == newRoot
      ensures ok <==> root.Some? && switched
      // the fiber that was current before the switch is current again afterwards
      ensures current == old(current)
      ensures root.Some? ==> switches == old(switches) + [SwitchRecord(fiber, fiber.status, old(current))]
      ensures root.None? ==> switches == old(switches)
    {
      if root.None? {
        if newRoot.None? {
          return false;
        }
        root := newRoot;
      }
      var prev := current;
      current := fiber;
      switches := switches + [SwitchRecord(fiber, fiber.status, prev)];
      ok := switched;
      current := prev;
    }
  }

  class Fiber {
    var status: Status
    var state: SwitchState
    var error: Option<Throwable>
    var value: Option<Value>
    var resultError: Option<Throwable>
    var resultValue: Value
    var callbacks: Option<seq<CallbackId>>

    function Record(): FiberRecord
      reads this
    {
      FiberRecord(status, state, error, value, resultError, resultValue, callbacks)
    }

    predicate Valid()
      reads this
    {
      Consistent(Record())
    }

    /** zend_fiber_object_create. */
    constructor ()
      ensures Record() == Created() && Valid()
    {
      status := Init;
      state := Ready;
      error := None;
      value := None;
      resultError := None;
      resultValue := Null;
      callbacks := Some([]);
    }

    /** Fiber::run: create the fiber, its native context and stack, mark it
        RUNNING and switch into it. The flags say whether the native context
        and the native fiber could be created. */
    static method Run(sched: Scheduler, contextCreated: bool, nativeCreated: bool,
                      newRoot: Option<ContextId>, switched: bool)
      returns (fiber: Fiber?, thrown: Option<Throwable>)
      modifies sched
      ensures fiber != null <==> thrown.None?
      ensures !contextCreated ==> thrown == Some(Throwable(Error(FailedContext), None)) && unchanged(sched)
      ensures contextCreated && !nativeCreated ==> thrown == Some(Throwable(Error(FailedNative), None)) && unchanged(sched)
      ensures contextCreated && nativeCreated ==>
        && sched.current == old(sched.current)
        && sched.root == (if old(sched.root).Some? then old(sched.root) else newRoot)
        && (old(sched.root).None? && newRoot.None? ==> sched.switches == old(sched.switches))
        && (old(sched.root).Some? || newRoot.Some? ==>
              && |sched.switches| == |old(sched.switches)| + 1
              && sched.switches[..|old(sched.switches)|] == old(sched.switches)
              // the switch went into a freshly created RUNNING fiber, from the fiber current before
              && var last := sched.switches[|sched.switches| - 1];
                 && last.status == Running && last.from == old(sched.current) && fresh(last.target)
                 && last.target.Record() == Created().(status := Running))
        && (thrown.None? <==> sched.root.Some? && switched)
        && (thrown.Some? ==> thrown.value == Throwable(Error(FailedSwitching), None))
      ensures fiber != null ==> fresh(fiber) && fiber.Record() == Created().(status := Running) && fiber.Valid()
      ensures fiber != null ==> sched.switches == old(sched.switches) + [SwitchRecord(fiber, Running, old(sched.current))]
    {
      var created := new Fiber();
      if !contextCreated {
        return null, Some(Throwable(Error(FailedContext), None));
      }
      if !nativeCreated {
        return null, Some(Throwable(Error(FailedNative), None));
      }
      created.status := Running;
      var ok := sched.SwitchTo(created, newRoot, switched);
      if !ok {
        return null, Some(Throwable(Error(FailedSwitching), None));
      }
      fiber, thrown := created, None;
    }

    /** The part of Fiber::continue before the switch: the status check, the
        pending slot, and the synchronous-resolution shortcut. */
    method Resume(exception: Option<Throwable>, value: Option<Value>) returns (effect: ContinueEffect)
      modifies this
      ensures old(Valid()) ==> Valid()
      ensures Record() == ContinueStep(old(Record()), exception, value).fiber
      ensures effect == ContinueStep(old(Record()), exception, value).effect
    {
      if status != Suspended {
        return Rejected(ProtocolError(CannotResumeRunning));
      }
      if exception.Some? {
        error := exception;
      } else if value.Some? {
        this.value := value;
      }
      if state == Suspending {
        state := Ready;
        return ResolvedSynchronously;
      }
      status := Running;
      effect := SwitchIn;
    }

    /** Fiber::continue(exception, value). */
    method Continue(sched: Scheduler, exception: Option<Throwable>, value: Option<Value>,
                    newRoot: Option<ContextId>, switched: bool)
      returns (thrown: Option<Throwable>)
      modifies this, sched
      ensures old(Valid()) ==> Valid()
      ensures Record() == ContinueStep(old(Record()), exception, value).fiber
      ensures ContinueStep(old(Record()), exception, value).effect.Rejected? ==>
        thrown == Some(ProtocolError(CannotResumeRunning)) && unchanged(sched)
      ensures ContinueStep(old(Record()), exception, value).effect == ResolvedSynchronously ==>
        thrown == None && unchanged(sched)
      ensures ContinueStep(old(Record()), exception, value).effect == SwitchIn ==>
        && sched.current == old(sched.current)
        && sched.root == (if old(sched.root).Some? then old(sched.root) else newRoot)
        && (old(sched.root).None? && newRoot.None? ==> sched.switches == old(sched.switches))
        && (old(sched.root).Some? || newRoot.Some? ==>
              sched.switches == old(sched.switches) + [SwitchRecord(this, Running, old(sched.current))])
        && (thrown.None? <==> sched.root.Some? && switched)
        && (thrown.Some? ==> thrown.value == Throwable(Error(FailedSwitching), None))
    {
      var effect := Resume(exception, value);
      match effect {
        case Rejected(e) =>
          thrown := Some(e);
        case ResolvedSynchronously =>
          thrown := None;
        case SwitchIn =>
          var ok := sched.SwitchTo(this, newRoot, switched);
          thrown := if ok then None else Some(Throwable(Error(FailedSwitching), None));
      }
    }

    /** Fiber::await(awaitable). `reg` is what calling `when` on the awaitable
        with the continuation did; `resumption` is who gives control back if
        the fiber suspends. `switchedOut` tells whether it suspended. */
    static method Await(sched: Scheduler, reg: Registration, resumption: Resumption)
      returns (result: Outcome, switchedOut: bool)
      modifies sched.current
      ensures sched.current == null ==> result == Threw(ProtocolError(AwaitOutsideFiber)) && !switchedOut
      ensures sched.current != null ==>
        var a := AwaitStep(old(sched.current.Record()), reg, resumption);
        sched.current.Record() == a.fiber && result == a.result && switchedOut == a.switchedOut
      ensures sched.current != null && old(sched.current.Valid()) ==> sched.current.Valid()
    {
      var fiber := sched.current;
      if fiber == null {
        return Threw(ProtocolError(AwaitOutsideFiber)), false;
      }
      if fiber.status != Running {
        return Threw(ProtocolError(AwaitNotRunning)), false;
      }
      fiber.status := Suspended;
      fiber.state := Suspending;
      if reg.CalledBack? {
        // the continuation is Fiber::continue; while SUSPENDING it returns before any switch
        var effect := fiber.Resume(reg.resolution.exception, reg.resolution.value);
      }
      if reg.NotCalled? {
        fiber.state := Ready;
        return Returned(Null), false;
      }
      switchedOut := false;
      if fiber.state == Suspending {
        fiber.state := Ready;
        switchedOut := true;
        // zend_fiber_suspend: control returns here once a resumer switches back in
        match resumption {
          case ContinuedWith(res) =>
            var effect := fiber.Resume(res.exception, res.value);
          case DestroyedWhileSuspended =>
            fiber.status := Dead;
        }
        if fiber.status == Dead {
          return Threw(ProtocolError(FiberDestroyed)), true;
        }
      }
      if fiber.error.None? {
        result := Returned(Null);
        if fiber.value.Some? {
          result := Returned(fiber.value.value);
          fiber.value := None;
        }
        return;
      }
      result := Threw(fiber.error.value);
      fiber.error := None;
    }

    /** Fiber::when(cb). */
    method When(cb: CallbackId, invoke: Invoker) returns (invoked: seq<CallbackId>, raised: Option<Throwable>)
      requires Valid()
      modifies this
      ensures Valid()
      ensures Record() == WhenStep(old(Record()), cb, invoke).fiber
      ensures invoked == WhenStep(old(Record()), cb, invoke).invoked
      ensures raised == WhenStep(old(Record()), cb, invoke).raised
    {
      if status == Finished || status == Dead {
        var thrown := invoke(cb, resultError, resultValue);
        invoked := [cb];
        raised := if thrown.Some? then Some(Raise(Error(WhenCallbackThrew), thrown)) else None;
        return;
      }
      callbacks := Some(callbacks.value + [cb]);
      invoked, raised := [], None;
    }

    /** fiber_invoke_callbacks: call every callback with (result[0], result[1]),
        in order, chaining what they throw, and raise once at the end. */
    method InvokeCallbacks(invoke: Invoker) returns (invoked: seq<CallbackId>, raised: Option<Throwable>)
      requires callbacks.Some?
      ensures invoked == callbacks.value
      ensures raised.Some? <==> exists i :: 0 <= i < |callbacks.value| && invoke(callbacks.value[i], resultError, resultValue).Some?
      ensures raised == DrainRaised(callbacks.value, invoke, resultError, resultValue)
    {
      var cbs := callbacks.value;
      var captured: Option<Throwable> := None;
      invoked := [];
      var i := 0;
      while i < |cbs|
        invariant 0 <= i <= |cbs|
        invariant invoked == cbs[..i]
        invariant captured == Captured(cbs[..i], invoke, resultError, resultValue)
      {
        var thrown := invoke(cbs[i], resultError, resultValue);
        if thrown.Some? {
          if captured.Some? {
            captured := Some(SetPrevious(thrown.value, captured.value));
          } else {
            captured := thrown;
          }
        }
        assert cbs[..i + 1][..i] == cbs[..i];
        invoked := invoked + [cbs[i]];
        i := i + 1;
      }
      assert cbs[..i] == cbs;
      raised := if captured.Some? then Some(Raise(Error(WhenCallbacksThrew), captured)) else None;
      assert raised == DrainRaised(cbs, invoke, resultError, resultValue);
    }

    /** The end of fiber_run_opcode_handler: once the body has ended with
        `body`, record the terminal status and result, drain and free the table.
        The RUNNING status set when the body starts belongs to `Run`/`Resume`. */
    method Complete(body: Outcome, invoke: Invoker) returns (invoked: seq<CallbackId>, raised: Option<Throwable>)
      requires callbacks.Some?
      modifies this
      ensures Valid()
      ensures Record() == CompleteStep(old(Record()), body, invoke).fiber
      ensures invoked == CompleteStep(old(Record()), body, invoke).invoked
      ensures raised == CompleteStep(old(Record()), body, invoke).raised
    {
      match body {
        case Threw(e) =>
          status := Dead;
          resultError := Some(e);
        case Returned(v) =>
          status := Finished;
          resultValue := v;
      }
      invoked, raised := InvokeCallbacks(invoke);
      callbacks := None;
    }

    /** zend_fiber_object_destroy: a SUSPENDED fiber is marked DEAD and switched
        into once more. If that switch runs, the pending await throws "Fiber has
        been destroyed", the body unwinds and ends with `body`, and the
        completion of fiber_run_opcode_handler drains and frees the table;
        `raised` is what that drain leaves pending. Then whatever is left of
        the table is freed. */
    method Destroy(sched: Scheduler, newRoot: Option<ContextId>, switched: bool, body: Outcome, invoke: Invoker)
      returns (invoked: seq<CallbackId>, raised: Option<Throwable>)
      requires Valid()
      modifies this, sched
      ensures var d := DestroyStep(old(Record()), old(status) == Suspended && sched.root.Some? && switched, body, invoke);
        Record() == d.fiber && invoked == d.invoked && raised == d.raised
      ensures old(status) != Suspended ==> unchanged(sched)
      ensures old(status) == Suspended ==>
        && sched.current == old(sched.current)
        && sched.root == (if old(sched.root).Some? then old(sched.root) else newRoot)
        && (old(sched.root).None? && newRoot.None? ==> sched.switches == old(sched.switches))
        && (sched.root.Some? ==>
              sched.switches == old(sched.switches) + [SwitchRecord(this, Dead, old(sched.current))])
    {
      invoked, raised := [], None;
      if status == Suspended {
        status := Dead;
        var ok := sched.SwitchTo(this, newRoot, switched);
        if ok {
          // the resumed body unwinds and fiber_run_opcode_handler completes the fiber
          invoked, raised := Complete(body, invoke);
        }
      }
      if callbacks.Some? {
        callbacks := None;
      }
    }
  }
}
