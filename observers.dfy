/**
 * The completion-observer registry: what draining a fiber's callbacks raises.
 *
 * A callback is an abstract id. What calling it with the fiber's
 * (result[0], result[1]) does is given by an `Invoker`: None when it returns
 * normally, Some(e) when it throws e.
 */
module Observers {
  import opened Wrappers
  import opened Throwables

  type CallbackId = nat

  type Invoker = (CallbackId, Option<Throwable>, Value) -> Option<Throwable>

  /** The accumulator `error` of the drain loop after calling `cbs` in order:
      each newly thrown exception gets the one captured so far as its previous. */
  function Captured(cbs: seq<CallbackId>, invoke: Invoker, resultError: Option<Throwable>, resultValue: Value): Option<Throwable>
    decreases |cbs|
  {
    if cbs == [] then None
    else
      var earlier := Captured(cbs[..|cbs| - 1], invoke, resultError, resultValue);
      match invoke(cbs[|cbs| - 1], resultError, resultValue)
      case None => earlier
      case Some(e) => if earlier.None? then Some(e) else Some(SetPrevious(e, earlier.value))
  }

  /** Reference description of the captured chain: the chains of the thrown
      exceptions, the most recently thrown first. */
  function ThrownChains(cbs: seq<CallbackId>, invoke: Invoker, resultError: Option<Throwable>, resultValue: Value): seq<Kind>
    decreases |cbs|
  {
    if cbs == [] then []
    else
      var last := match invoke(cbs[|cbs| - 1], resultError, resultValue)
        case None => []
        case Some(e) => Chain(e);
      last + ThrownChains(cbs[..|cbs| - 1], invoke, resultError, resultValue)
  }

  /** Something is captured exactly when some callback threw. */
  lemma {:induction false} CapturedIffSomeThrew(cbs: seq<CallbackId>, invoke: Invoker, resultError: Option<Throwable>, resultValue: Value)
    ensures Captured(cbs, invoke, resultError, resultValue).Some?
        <==> exists i :: 0 <= i < |cbs| && invoke(cbs[i], resultError, resultValue).Some?
    decreases |cbs|
  {
    if cbs != [] {
      var init := cbs[..|cbs| - 1];
      CapturedIffSomeThrew(init, invoke, resultError, resultValue);
      if exists i :: 0 <= i < |init| && invoke(init[i], resultError, resultValue).Some? {
        var i :| 0 <= i < |init| && invoke(init[i], resultError, resultValue).Some?;
        assert cbs[i] == init[i];
      }
      if exists i :: 0 <= i < |cbs| && invoke(cbs[i], resultError, resultValue).Some? {
        var i :| 0 <= i < |cbs| && invoke(cbs[i], resultError, resultValue).Some?;
        if i < |init| {
          assert init[i] == cbs[i];
        }
      }
    }
  }

  /** The captured exception's chain lists every thrown exception's chain, newest first. */
  lemma {:induction false} CapturedChain(cbs: seq<CallbackId>, invoke: Invoker, resultError: Option<Throwable>, resultValue: Value)
    ensures Captured(cbs, invoke, resultError, resultValue).None? ==> ThrownChains(cbs, invoke, resultError, resultValue) == []
    ensures Captured(cbs, invoke, resultError, resultValue).Some? ==>
      Chain(Captured(cbs, invoke, resultError, resultValue).value) == ThrownChains(cbs, invoke, resultError, resultValue)
    decreases |cbs|
  {
    if cbs != [] {
      CapturedChain(cbs[..|cbs| - 1], invoke, resultError, resultValue);
    }
  }

  /** What fiber_invoke_callbacks raises after calling every callback: nothing
      when none threw, otherwise an Error whose previous is the captured chain. */
  function DrainRaised(cbs: seq<CallbackId>, invoke: Invoker, resultError: Option<Throwable>, resultValue: Value): (r: Option<Throwable>)
    ensures r.Some? <==> exists i :: 0 <= i < |cbs| && invoke(cbs[i], resultError, resultValue).Some?
    ensures r.Some? ==> r.value.kind == Error(WhenCallbacksThrew)
    ensures r.Some? ==> Chain(r.value) == [Error(WhenCallbacksThrew)] + ThrownChains(cbs, invoke, resultError, resultValue)
  {
    CapturedIffSomeThrew(cbs, invoke, resultError, resultValue);
    CapturedChain(cbs, invoke, resultError, resultValue);
    var captured := Captured(cbs, invoke, resultError, resultValue);
    if captured.None? then None else Some(Raise(Error(WhenCallbacksThrew), captured))
  }
}
