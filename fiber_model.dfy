/**
 * The fiber record of src/fiber.c and its transitions, as values.
 *
 * Each operation of the Fiber class (fiber.dfy) is proved to change its
 * fields exactly as the step function here says; the properties of the
 * protocol are stated on these functions and proved in the lemmas below.
 */
module FiberModel {
  import opened Wrappers
  import opened Throwables
  import opened Observers

  /** ZEND_FIBER_STATUS_* (include/fiber.h), in the order of their codes 0..4;
      a zeroed fiber is INIT. */
  datatype Status = Init | Suspended | Running | Finished | Dead

  predicate Terminal(s: Status)
  {
    s == Finished || s == Dead
  }

  /** ZEND_FIBER_STATE_*: SUSPENDING while await is registering its continuation. */
  datatype SwitchState = Ready | Suspending

  /** The fields of zend_fiber that fiber.c reads and writes. `error` and `value`
      are the pending slots (NULL pointers are None); `resultError` and
      `resultValue` are result[0] and result[1]; `callbacks` is the hash table,
      None once it has been freed. */
  datatype FiberRecord = FiberRecord(
    status: Status,
    state: SwitchState,
    error: Option<Throwable>,
    value: Option<Value>,
    resultError: Option<Throwable>,
    resultValue: Value,
    callbacks: Option<seq<CallbackId>>)

  /** zend_fiber_object_create: zeroed memory, null results, an empty table. */
  function Created(): FiberRecord
  {
    FiberRecord(Init, Ready, None, None, None, Null, Some([]))
  }

  /** The callback table is freed only when the fiber is terminal. */
  predicate Consistent(f: FiberRecord)
  {
    f.callbacks.None? ==> Terminal(f.status)
  }

  // ----- continue -----

  datatype ContinueEffect = Rejected(error: Throwable) | ResolvedSynchronously | SwitchIn

  datatype Continued = Continued(fiber: FiberRecord, effect: ContinueEffect)

  /** Fiber::continue up to (not including) the switch into the fiber. */
  function ContinueStep(f: FiberRecord, exception: Option<Throwable>, value: Option<Value>): (r: Continued)
    // only a SUSPENDED fiber may be continued; otherwise nothing changes
    ensures r.effect.Rejected? <==> f.status != Suspended
    ensures r.effect.Rejected? ==> r.fiber == f && r.effect.error == ProtocolError(CannotResumeRunning)
    // the exception wins over the value; with neither the slots are left alone
    ensures !r.effect.Rejected? ==> r.fiber.error == (if exception.Some? then exception else f.error)
    ensures !r.effect.Rejected? ==> r.fiber.value == (if exception.None? && value.Some? then value else f.value)
    // a continuation arriving during registration only flips the state
    ensures r.effect == ResolvedSynchronously <==> f.status == Suspended && f.state == Suspending
    ensures r.effect == ResolvedSynchronously ==> r.fiber.status == Suspended && r.fiber.state == Ready
    // otherwise the fiber is marked RUNNING before it is switched into
    ensures r.effect == SwitchIn ==> r.fiber.status == Running && r.fiber.state == Ready
    ensures r.fiber.resultError == f.resultError && r.fiber.resultValue == f.resultValue
    ensures r.fiber.callbacks == f.callbacks
  {
    if f.status != Suspended then
      Continued(f, Rejected(ProtocolError(CannotResumeRunning)))
    else
      var filled :=
        if exception.Some? then f.(error := exception)
        else if value.Some? then f.(value := value)
        else f;
      if f.state == Suspending then Continued(filled.(state := Ready), ResolvedSynchronously)
      else
        assert filled.state == f.state == Ready;
        Continued(filled.(status := Running), SwitchIn)
  }

  // ----- await -----

  /** The (error, value) a continuation is called with; None is an argument not passed. */
  datatype Resolution = Resolution(exception: Option<Throwable>, value: Option<Value>)

  /** What calling `when` on the awaitable with the continuation did: the
      engine could not make the call at all (it then reports FAILURE before
      running anything), the awaitable invoked the continuation before
      returning, or it kept the continuation for later. */
  datatype Registration = NotCalled | CalledBack(resolution: Resolution) | Pending

  /** How a suspended await gets control back: some resumer called continue,
      or the fiber object was destroyed. */
  datatype Resumption = ContinuedWith(resolution: Resolution) | DestroyedWhileSuspended

  /** Returning a value or throwing: how await, and a fiber body, end. */
  datatype Outcome = Returned(value: Value) | Threw(error: Throwable)

  datatype Awaited = Awaited(fiber: FiberRecord, result: Outcome, switchedOut: bool)

  /** What await makes of one resolution delivered into empty slots. */
  function ResolutionOutcome(res: Resolution): Outcome
  {
    if res.exception.Some? then Threw(res.exception.value)
    else if res.value.Some? then Returned(res.value.value)
    else Returned(Null)
  }

  /** The end of await: a pending error is cleared and thrown; otherwise a
      pending value is cleared and returned; otherwise null. */
  function TakePending(f: FiberRecord, switchedOut: bool): Awaited
  {
    if f.error.Some? then Awaited(f.(error := None), Threw(f.error.value), switchedOut)
    else if f.value.Some? then Awaited(f.(value := None), Returned(f.value.value), switchedOut)
    else Awaited(f, Returned(Null), switchedOut)
  }

  /** Fiber::await called from the fiber `f`, when current_fiber is not NULL. */
  function AwaitStep(f: FiberRecord, reg: Registration, resumption: Resumption): (r: Awaited)
    // only a RUNNING fiber may await; otherwise nothing changes
    ensures f.status != Running ==> r == Awaited(f, Threw(ProtocolError(AwaitNotRunning)), false)
    // it switches out exactly when no continuation arrived during a successful registration
    ensures r.switchedOut <==> f.status == Running && reg.Pending?
    // without a switch the status is left SUSPENDED
    ensures f.status == Running && !r.switchedOut ==> r.fiber.status == Suspended && r.fiber.state == Ready
    // resumed by destruction: "Fiber has been destroyed", no value
    ensures r.switchedOut && resumption.DestroyedWhileSuspended? ==>
      r.fiber.status == Dead && r.result == Threw(ProtocolError(FiberDestroyed))
    ensures r.switchedOut && resumption.ContinuedWith? ==> r.fiber.status == Running
    // a failed registration returns null
    ensures f.status == Running && reg.NotCalled? ==> r.result == Returned(Null) && r.fiber.error == f.error && r.fiber.value == f.value
    // from empty slots, a successful await delivers exactly what it was resolved with and empties both slots
    ensures f.status == Running && f.error.None? && f.value.None? ==>
      && r.fiber.error.None? && r.fiber.value.None?
      && (reg.CalledBack? ==> r.result == ResolutionOutcome(reg.resolution))
      && (r.switchedOut && resumption.ContinuedWith? ==> r.result == ResolutionOutcome(resumption.resolution))
    ensures r.fiber.resultError == f.resultError && r.fiber.resultValue == f.resultValue
    ensures r.fiber.callbacks == f.callbacks
  {
    if f.status != Running then
      Awaited(f, Threw(ProtocolError(AwaitNotRunning)), false)
    else
      var registering := f.(status := Suspended, state := Suspending);
      var registered :=
        if reg.CalledBack? then ContinueStep(registering, reg.resolution.exception, reg.resolution.value).fiber
        else registering;
      if reg.NotCalled? then
        Awaited(registered.(state := Ready), Returned(Null), false)
      else if registered.state == Suspending then
        var suspended := registered.(state := Ready);
        var resumed :=
          match resumption
          case ContinuedWith(res) => ContinueStep(suspended, res.exception, res.value).fiber
          case DestroyedWhileSuspended => suspended.(status := Dead);
        if resumed.status == Dead then Awaited(resumed, Threw(ProtocolError(FiberDestroyed)), true)
        else TakePending(resumed, true)
      else
        TakePending(registered, false)
  }

  // ----- completion -----

  datatype Completed = Completed(fiber: FiberRecord, invoked: seq<CallbackId>, raised: Option<Throwable>)

  /** fiber_run_opcode_handler after the body returned (`body`): the terminal
      status and result, then the drain of the callbacks and the freeing of the table. */
  function CompleteStep(f: FiberRecord, body: Outcome, invoke: Invoker): (r: Completed)
    requires f.callbacks.Some?
    ensures r.fiber.status == (if body.Threw? then Dead else Finished)
    ensures body.Threw? ==> r.fiber.resultError == Some(body.error) && r.fiber.resultValue == f.resultValue
    ensures body.Returned? ==> r.fiber.resultValue == body.value && r.fiber.resultError == f.resultError
    ensures r.fiber.callbacks == None && Consistent(r.fiber)
    // every callback, in insertion order, each once, with the final (error, value)
    ensures r.invoked == f.callbacks.value
    ensures r.raised == DrainRaised(f.callbacks.value, invoke, r.fiber.resultError, r.fiber.resultValue)
    ensures r.fiber.error == f.error && r.fiber.value == f.value && r.fiber.state == f.state
  {
    var done :=
      match body
      case Threw(e) => f.(status := Dead, resultError := Some(e))
      case Returned(v) => f.(status := Finished, resultValue := v);
    Completed(done.(callbacks := None), f.callbacks.value,
              DrainRaised(f.callbacks.value, invoke, done.resultError, done.resultValue))
  }

  // ----- when -----

  datatype Registered = Registered(fiber: FiberRecord, invoked: seq<CallbackId>, raised: Option<Throwable>)

  /** Fiber::when(cb). */
  function WhenStep(f: FiberRecord, cb: CallbackId, invoke: Invoker): (r: Registered)
    requires Consistent(f)
    // a terminal fiber calls back at once with (result[0], result[1]) and keeps nothing
    ensures Terminal(f.status) ==> r.fiber == f && r.invoked == [cb]
    ensures r.raised.Some? <==> Terminal(f.status) && invoke(cb, f.resultError, f.resultValue).Some?
    ensures r.raised.Some? ==>
      Chain(r.raised.value) == [Error(WhenCallbackThrew)] + Chain(invoke(cb, f.resultError, f.resultValue).value)
    // any other fiber appends the callback to the end of its table
    ensures !Terminal(f.status) ==> r.fiber == f.(callbacks := Some(f.callbacks.value + [cb])) && r.invoked == []
    ensures Consistent(r.fiber)
  {
    if Terminal(f.status) then
      var thrown := invoke(cb, f.resultError, f.resultValue);
      Registered(f, [cb], if thrown.Some? then Some(Raise(Error(WhenCallbackThrew), thrown)) else None)
    else
      Registered(f.(callbacks := Some(f.callbacks.value + [cb])), [], None)
  }

  // ----- destruction -----

  /** zend_fiber_object_destroy, as far as the fiber goes. A SUSPENDED fiber
      is marked DEAD and switched into once more; when that switch runs
      (`switchRan`), its pending await throws "Fiber has been destroyed", the
      body unwinds and ends with `body` (the error escaping, or whatever the
      body does after catching it), and fiber_run_opcode_handler completes
      the fiber, draining the table. Whatever is left of the table is then freed. */
  function DestroyStep(f: FiberRecord, switchRan: bool, body: Outcome, invoke: Invoker): (r: Completed)
    requires Consistent(f)
    // a suspended fiber that is switched into is completed: every observer runs once, in order
    ensures f.status == Suspended && switchRan ==>
      r == CompleteStep(f.(status := Dead), body, invoke)
    ensures f.status == Suspended && switchRan ==> r.invoked == f.callbacks.value && Terminal(r.fiber.status)
    // a suspended fiber whose switch failed stays DEAD and its observers are dropped
    ensures f.status == Suspended && !switchRan ==>
      r.fiber == f.(status := Dead, callbacks := None) && r.invoked == [] && r.raised.None?
    // any other fiber keeps its status; its table is freed without calling anything
    ensures f.status != Suspended ==>
      r.fiber == f.(callbacks := None) && r.invoked == [] && r.raised.None?
    ensures r.fiber.callbacks == None
  {
    if f.status == Suspended && switchRan then
      CompleteStep(f.(status := Dead), body, invoke)
    else
      var marked := if f.status == Suspended then f.(status := Dead) else f;
      Completed(marked.(callbacks := None), [], None)
  }

  // ----- sequences of operations on a live fiber -----

  /** The operations user code can apply to a fiber that is still alive. */
  datatype Op =
    | ContinueOp(exception: Option<Throwable>, value: Option<Value>)
    | AwaitOp(registration: Registration, resumption: Resumption)
    | WhenOp(callback: CallbackId)

  function Step(f: FiberRecord, op: Op, invoke: Invoker): (r: FiberRecord)
    requires Consistent(f)
    ensures Consistent(r)
  {
    match op
    case ContinueOp(e, v) => ContinueStep(f, e, v).fiber
    case AwaitOp(reg, res) => AwaitStep(f, reg, res).fiber
    case WhenOp(cb) => WhenStep(f, cb, invoke).fiber
  }

  function Apply(f: FiberRecord, ops: seq<Op>, invoke: Invoker): (r: FiberRecord)
    requires Consistent(f)
    ensures Consistent(r)
    ensures r.resultError == f.resultError && r.resultValue == f.resultValue
    decreases |ops|
  {
    if ops == [] then f else Apply(Step(f, ops[0], invoke), ops[1..], invoke)
  }

  function Whens(ids: seq<CallbackId>): (ops: seq<Op>)
    ensures |ops| == |ids|
    ensures forall i :: 0 <= i < |ids| ==> ops[i] == WhenOp(ids[i])
  {
    seq(|ids|, i requires 0 <= i < |ids| => WhenOp(ids[i]))
  }

  /** A FINISHED or DEAD fiber is never changed again by continue, await or when. */
  lemma {:induction false} TerminalIsAbsorbing(f: FiberRecord, ops: seq<Op>, invoke: Invoker)
    requires Terminal(f.status)
    ensures Apply(f, ops, invoke) == f
    decreases |ops|
  {
    if ops != [] {
      assert Step(f, ops[0], invoke) == f;
      TerminalIsAbsorbing(f, ops[1..], invoke);
    }
  }

  /** when on a live fiber appends in call order. */
  lemma {:induction false} WhenAppendsInOrder(f: FiberRecord, ids: seq<CallbackId>, invoke: Invoker)
    requires !Terminal(f.status) && f.callbacks.Some?
    ensures Apply(f, Whens(ids), invoke) == f.(callbacks := Some(f.callbacks.value + ids))
    decreases |ids|
  {
    if ids == [] {
      assert f.callbacks.value + ids == f.callbacks.value;
      assert f.(callbacks := Some(f.callbacks.value)) == f;
    } else {
      var g := f.(callbacks := Some(f.callbacks.value + [ids[0]]));
      assert Step(f, WhenOp(ids[0]), invoke) == g;
      assert Whens(ids)[1..] == Whens(ids[1..]);
      WhenAppendsInOrder(g, ids[1..], invoke);
      assert g.callbacks.value + ids[1..] == f.callbacks.value + ids;
    }
  }

  /** Observers registered one after another on a live fiber are each invoked
      once, after those already in the table, in registration order, when the
      fiber completes, whatever they throw. */
  lemma {:induction false} ObserversDrainedInOrder(f: FiberRecord, ids: seq<CallbackId>, body: Outcome, invoke: Invoker)
    requires !Terminal(f.status) && f.callbacks.Some?
    ensures Apply(f, Whens(ids), invoke).callbacks.Some?
    ensures CompleteStep(Apply(f, Whens(ids), invoke), body, invoke).invoked == f.callbacks.value + ids
  {
    WhenAppendsInOrder(f, ids, invoke);
  }

  /** Destroying a suspended fiber whose final switch runs invokes every
      observer registered before, once each, in registration order. */
  lemma {:induction false} DestroyDrainsObservers(f: FiberRecord, ids: seq<CallbackId>, body: Outcome, invoke: Invoker)
    requires f.status == Suspended && f.callbacks.Some?
    ensures Apply(f, Whens(ids), invoke).status == Suspended
    ensures DestroyStep(Apply(f, Whens(ids), invoke), true, body, invoke).invoked == f.callbacks.value + ids
  {
    WhenAppendsInOrder(f, ids, invoke);
  }

  /** As written, a synchronously resolved await returns with the status still
      SUSPENDED, so the next await from the same running fiber is refused. */
  lemma SyncResolutionLeavesSuspended(f: FiberRecord, res: Resolution, resumption: Resumption,
                                      next: Registration, nextResumption: Resumption)
    requires f.status == Running
    ensures !AwaitStep(f, CalledBack(res), resumption).switchedOut
    ensures AwaitStep(f, CalledBack(res), resumption).fiber.status == Suspended
    ensures AwaitStep(AwaitStep(f, CalledBack(res), resumption).fiber, next, nextResumption).result
      == Threw(ProtocolError(AwaitNotRunning))
  {
  }

  /** A continue arriving after a real suspension always takes the switching
      path, and the value it passes is what await returns. */
  lemma ContinueAwaitRoundTrip(f: FiberRecord, v: Value)
    requires f.status == Running && f.error.None? && f.value.None?
    ensures var suspendedAt := f.(status := Suspended, state := Ready);
      ContinueStep(suspendedAt, None, Some(v)).effect == SwitchIn
    ensures AwaitStep(f, Pending, ContinuedWith(Resolution(None, Some(v)))).result == Returned(v)
  {
  }
}
