/**
 * Values handed through a fiber and the exceptions the fiber core raises.
 *
 * An exception carries a `previous` link, as PHP's Throwable does; the core
 * builds chains of them when several completion callbacks throw.
 */
module Throwables {
  import opened Wrappers

  /** A PHP value passed into or out of a fiber. Only null is told apart; any
      other value is an opaque token, compared by identity. */
  datatype Value = Null | Opaque(id: nat)

  /** The fixed messages the core raises (src/fiber.c). */
  datatype Message =
    | CannotResumeRunning     // "Cannot resume running fiber"
    | AwaitOutsideFiber       // "Cannot await from outside a fiber"
    | AwaitNotRunning         // "Cannot await from a fiber that is not running"
    | FiberDestroyed          // "Fiber has been destroyed"
    | FailedSwitching         // "Failed switching to fiber"
    | FailedContext           // "Failed to create native fiber context"
    | FailedNative            // "Failed to create native fiber"
    | WhenCallbackThrew       // "Exception thrown in when callback" (when() on a terminal fiber)
    | WhenCallbacksThrew      // "Exception thrown in when() callback" (draining the table)

  /** The class of a throwable: FiberError, plain Error, or one thrown by user code. */
  datatype Kind = FiberError(message: Message) | Error(message: Message) | UserThrowable(id: nat)

  datatype Throwable = Throwable(kind: Kind, previous: Option<Throwable>)

  /** A FiberError raised with no exception pending. */
  function ProtocolError(m: Message): Throwable
  {
    Throwable(FiberError(m), None)
  }

  /** The kinds along the `previous` links, outermost first. */
  function Chain(t: Throwable): (c: seq<Kind>)
    ensures |c| >= 1 && c[0] == t.kind
  {
    match t.previous
    case None => [t.kind]
    case Some(p) => [t.kind] + Chain(p)
  }

  /** Engine helper zend_exception_set_previous: follows `exception`'s previous
      links to the innermost one and hangs `add` below it. */
  function SetPrevious(exception: Throwable, add: Throwable): (r: Throwable)
    ensures r.kind == exception.kind
    ensures Chain(r) == Chain(exception) + Chain(add)
  {
    match exception.previous
    case None => Throwable(exception.kind, Some(add))
    case Some(p) => Throwable(exception.kind, Some(SetPrevious(p, add)))
  }

  /** Throwing a new exception of `kind` while `pending` is the engine's current
      exception: the pending one becomes its previous. */
  function Raise(kind: Kind, pending: Option<Throwable>): (r: Throwable)
    ensures r.kind == kind
    ensures pending.None? ==> Chain(r) == [kind]
    ensures pending.Some? ==> Chain(r) == [kind] + Chain(pending.value)
  {
    var thrown := Throwable(kind, None);
    if pending.Some? then SetPrevious(thrown, pending.value) else thrown
  }
}
