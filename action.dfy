/**
 * `UDASAction`: one step an action point runs (play an animation, wait, ...). It is
 * started by `Execute` or `AsyncExecute`, does its work in user code, and ends with
 * `FinishExecute`, which reports Success or Failed to the delegate bound at start.
 */
module Actions {
  import opened Wrappers
  import opened Types

  /** A completion delegate that was called, and the result it was given. */
  datatype Report = Report(callback: CallbackId, result: ExecutionResult)

  /** The result a finish reports: Success exactly when the work succeeded. */
  function ResultOf(success: bool): (r: ExecutionResult)
    ensures r == Success <==> success
    ensures r == Failed <==> !success
  {
    if success then Success else Failed
  }

  /**
   * A call into the user-implemented events `ReceiveExecute` and `ReceiveFinishExecute`.
   * An action's finish event gets the component and the result; an action point's gets
   * only the result (`ReceivePointFinish`).
   */
  datatype ActionHook = ReceiveExecute(component: Option<ComponentId>)
                      | ReceiveFinishExecute(component: Option<ComponentId>, result: ExecutionResult)
                      | ReceivePointFinish(result: ExecutionResult)

  class Action {
    var executing: bool
    /** `ActiveDASComponent`: the agent running the action, `None` for a null pointer. */
    var activeComponent: Option<ComponentId>
    /** `ActiveFinishExecutionDelegate`, `None` while unbound. */
    var callback: Option<CallbackId>

    /** Every report delivered to a completion delegate, in order. */
    ghost var reports: seq<Report>
    /** Every call into the user events, in order. */
    ghost var hooks: seq<ActionHook>

    constructor ()
      ensures !executing && activeComponent == None && callback == None
      ensures reports == [] && hooks == []
    {
      executing := false;
      activeComponent := None;
      callback := None;
      reports := [];
      hooks := [];
    }

    /**
     * Starts the action for `component` unless it is already running; there is no
     * authority check here, unlike on an action point.
     */
    method Execute(component: Option<ComponentId>)
      modifies this`executing, this`activeComponent, this`hooks
      ensures old(executing) ==> executing == old(executing) && activeComponent == old(activeComponent) && hooks == old(hooks)
      ensures !old(executing) ==> executing && activeComponent == component && hooks == old(hooks) + [ReceiveExecute(component)]
    {
      if !executing {
        activeComponent := component;
        executing := true;
        hooks := hooks + [ReceiveExecute(component)];
      }
    }

    /**
     * While running, a new request is refused at once with Failed (to its own delegate, if
     * bound) and the running request keeps its delegate and component. Otherwise the
     * delegate is stored and the action starts.
     */
    method AsyncExecute(component: Option<ComponentId>, cb: Option<CallbackId>)
      modifies this`executing, this`activeComponent, this`callback, this`hooks, this`reports
      ensures old(executing) ==>
        executing && activeComponent == old(activeComponent) && callback == old(callback) && hooks == old(hooks)
        && reports == old(reports) + (if cb.Some? then [Report(cb.value, Failed)] else [])
      ensures !old(executing) ==>
        executing && activeComponent == component && callback == cb && reports == old(reports)
        && hooks == old(hooks) + [ReceiveExecute(component)]
    {
      if executing {
        if cb.Some? {
          reports := reports + [Report(cb.value, Failed)];
        }
      } else {
        callback := cb;
        Execute(component);
      }
    }

    /**
     * Ends a running action: it stops, the user event gets the component and the result,
     * the component is cleared, and the bound delegate gets the result. The delegate stays
     * bound. Without a running action nothing happens.
     */
    method FinishExecute(success: bool)
      modifies this`executing, this`activeComponent, this`hooks, this`reports
      ensures !old(executing) ==>
        !executing && activeComponent == old(activeComponent) && hooks == old(hooks) && reports == old(reports)
      ensures old(executing) ==>
        !executing && activeComponent == None
        && hooks == old(hooks) + [ReceiveFinishExecute(old(activeComponent), ResultOf(success))]
        && reports == old(reports) + (if callback.Some? then [Report(callback.value, ResultOf(success))] else [])
    {
      if executing {
        executing := false;
        var result := ResultOf(success);
        hooks := hooks + [ReceiveFinishExecute(activeComponent, result)];
        activeComponent := None;
        if callback.Some? {
          reports := reports + [Report(callback.value, result)];
        }
      }
    }
  }

  /**
   * A full run: an idle action started asynchronously and then finished reports the
   * finish's result to the delegate, once, and is idle again, so it can be started anew.
   */
  method RunToCompletion(a: Action, component: Option<ComponentId>, cb: CallbackId, success: bool)
    requires !a.executing
    modifies a
    ensures !a.executing && a.activeComponent == None && a.callback == Some(cb)
    ensures a.reports == old(a.reports) + [Report(cb, ResultOf(success))]
  {
    a.AsyncExecute(component, Some(cb));
    a.FinishExecute(success);
  }
}
