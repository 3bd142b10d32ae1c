/**
 * `ADASActionPoint`: a place where an agent runs a list of actions. One agent at a time
 * takes the point and executes it; only the server (the authority) may start or finish
 * an execution; a successful finish puts the point on cooldown for every agent.
 *
 * Time is the world clock passed in as a `Clock`; cooldown arithmetic is exact here.
 */
module ActionPoints {
  import opened Wrappers
  import opened Types
  import opened Conditions
  import opened ConditionQueries
  import opened BasePoints
  import opened Actions

  /** `IsOnCooldown`: there is a world and its time is before the end of the cooldown. */
  predicate OnCooldown(clock: Clock, cooldownEnd: real)
  {
    clock.WorldTime? && clock.seconds < cooldownEnd
  }

  /** `GetCooldownRemainingTime`: how long until the cooldown ends, and 0 when it is over or there is no world. */
  function CooldownRemaining(clock: Clock, cooldownEnd: real): (r: real)
    ensures r >= 0.0
    ensures r > 0.0 <==> OnCooldown(clock, cooldownEnd)
    ensures r > 0.0 ==> clock.seconds + r == cooldownEnd
  {
    if clock.WorldTime? && cooldownEnd > clock.seconds then cooldownEnd - clock.seconds else 0.0
  }

  /** The end time a cooldown of `length` seconds sets: only a positive length in a world changes it. */
  function CooldownEndAfter(clock: Clock, length: real, cooldownEnd: real): (r: real)
    ensures length > 0.0 && clock.WorldTime? ==> OnCooldown(clock, r) && CooldownRemaining(clock, r) == length
    ensures length <= 0.0 || clock.NoWorld? ==> r == cooldownEnd
  {
    if length > 0.0 && clock.WorldTime? then clock.seconds + length else cooldownEnd
  }

  /** After `ResetCooldown` (end time 0) no world time from 0 on is on cooldown. */
  lemma ResetMeansReady(clock: Clock)
    requires clock.WorldTime? ==> clock.seconds >= 0.0
    ensures !OnCooldown(clock, 0.0) && CooldownRemaining(clock, 0.0) == 0.0
  {
  }

  /** A cooldown, once applied, is over exactly `length` seconds later. */
  lemma CooldownExpires(now: real, length: real, later: real)
    requires length > 0.0 && later >= now
    ensures OnCooldown(WorldTime(later), now + length) <==> later < now + length
    ensures CooldownRemaining(WorldTime(later), now + length) == if later < now + length then now + length - later else 0.0
  {
  }

  class ActionPoint {
    // the base point's fields
    var pointId: Guid
    /** The point as an actor: the owner its condition query is initialized with. */
    const actorId: ActorId
    var tag: Tag
    const query: QueryWrapper

    /** `HasAuthority()`: this copy of the point runs on the server. */
    const hasAuthority: bool
    var executing: bool
    var taken: bool
    /** `ActiveDASComponent`, `None` for a null pointer. */
    var activeComponent: Option<ComponentId>
    /** `ActiveFinishExecutionDelegate`, `None` while unbound. */
    var callback: Option<CallbackId>
    /** `Cooldown`, in seconds. */
    var cooldown: real
    /** `CooldownEndWorldTime`. */
    var cooldownEnd: real
    /** Advanced by the code that runs the point's actions one by one. */
    var currentActionIndex: int

    /** Every broadcast of `OnIsExecutingChanged`, with its argument. */
    ghost var executingEvents: seq<bool>
    /** Every broadcast of `OnIsTakenChanged`, with its argument. */
    ghost var takenEvents: seq<bool>
    /** How many times a replicated flag was marked dirty and a network update forced. */
    ghost var netUpdates: nat
    /** Every report delivered to a completion delegate, in order. */
    ghost var reports: seq<Report>
    /** Every call into the user events `ReceiveExecute` and `ReceiveFinishExecute`. */
    ghost var hooks: seq<ActionHook>

    constructor (actorId: ActorId, query: QueryWrapper, hasAuthority: bool)
      ensures this.actorId == actorId && this.query == query && this.hasAuthority == hasAuthority
      ensures pointId == 0 && tag == Tag([])
      ensures !executing && !taken && activeComponent == None && callback == None
      ensures cooldown == 0.0 && cooldownEnd == 0.0 && currentActionIndex == 0
      ensures executingEvents == [] && takenEvents == [] && netUpdates == 0 && reports == [] && hooks == []
    {
      this.actorId := actorId;
      this.query := query;
      this.hasAuthority := hasAuthority;
      pointId := 0;
      tag := Tag([]);
      executing := false;
      taken := false;
      activeComponent := None;
      callback := None;
      cooldown := 0.0;
      cooldownEnd := 0.0;
      currentActionIndex := 0;
      executingEvents := [];
      takenEvents := [];
      netUpdates := 0;
      reports := [];
      hooks := [];
    }

    predicate IsOnCooldown(clock: Clock)
      reads this
    {
      OnCooldown(clock, cooldownEnd)
    }

    method ApplyCooldown(clock: Clock)
      modifies this`cooldownEnd
      ensures cooldownEnd == CooldownEndAfter(clock, cooldown, old(cooldownEnd))
    {
      if cooldown > 0.0 {
        if clock.WorldTime? {
          cooldownEnd := clock.seconds + cooldown;
        }
      }
    }

    method ApplyCustomCooldown(clock: Clock, length: real)
      modifies this`cooldownEnd
      ensures cooldownEnd == CooldownEndAfter(clock, length, old(cooldownEnd))
    {
      if length > 0.0 {
        if clock.WorldTime? {
          cooldownEnd := clock.seconds + length;
        }
      }
    }

    method ResetCooldown()
      modifies this`cooldownEnd
      ensures cooldownEnd == 0.0
    {
      cooldownEnd := 0.0;
    }

    /** Changes the taken flag; only a real change is replicated and broadcast. */
    method SetIsTaken(newTaken: bool)
      modifies this`taken, this`takenEvents, this`netUpdates
      ensures taken == newTaken
      ensures takenEvents == old(takenEvents) + (if old(taken) != newTaken then [newTaken] else [])
      ensures netUpdates == old(netUpdates) + (if old(taken) != newTaken then 1 else 0)
    {
      if taken != newTaken {
        taken := newTaken;
        takenEvents := takenEvents + [taken];
        netUpdates := netUpdates + 1;
      }
    }

    /** Changes the executing flag; only a real change is replicated. It broadcasts nothing. */
    method SetIsExecuting(newExecuting: bool)
      modifies this`executing, this`netUpdates
      ensures executing == newExecuting
      ensures netUpdates == old(netUpdates) + (if old(executing) != newExecuting then 1 else 0)
    {
      if executing != newExecuting {
        executing := newExecuting;
        netUpdates := netUpdates + 1;
      }
    }

    /**
     * On cooldown the point cannot run, and the condition query is not even evaluated;
     * otherwise the base rule applies: the query's result, true without a query.
     */
    method CanRun(clock: Clock, outcome: Condition -> bool) returns (r: bool)
      requires query.instance != null ==> NoNulls(query.instance.conditions)
      modifies QueryOf(query)`cached, QueryOf(query)`changeEvents, QueryOf(query)`lastEvaluated, QueryOf(query)`evaluations
      modifies WrappedConditions(query)`cached, WrappedConditions(query)`changeEvents
      ensures IsOnCooldown(clock) ==> !r && (query.instance != null ==> unchanged(query.instance) && unchanged(query.instance.Instances()))
      ensures !IsOnCooldown(clock) && query.instance == null ==> r
      ensures !IsOnCooldown(clock) && query.instance != null ==> Evaluated(query.instance, outcome, r)
    {
      if IsOnCooldown(clock) {
        return false;
      }
      r := WrapperIsConditionFulfilled(query, outcome);
    }

    /**
     * Starts an execution, on the server and only when idle: the component is recorded,
     * the flag set, and the change broadcast. Otherwise nothing changes.
     */
    method Execute(component: Option<ComponentId>)
      modifies this`executing, this`activeComponent, this`executingEvents, this`netUpdates, this`hooks
      ensures old(executing) || !hasAuthority ==>
        executing == old(executing) && activeComponent == old(activeComponent)
        && executingEvents == old(executingEvents) && netUpdates == old(netUpdates) && hooks == old(hooks)
      ensures !old(executing) && hasAuthority ==>
        executing && activeComponent == component && executingEvents == old(executingEvents) + [true]
        && netUpdates == old(netUpdates) + 1 && hooks == old(hooks) + [ReceiveExecute(component)]
    {
      if !executing && hasAuthority {
        activeComponent := component;
        SetIsExecuting(true);
        executingEvents := executingEvents + [executing];
        hooks := hooks + [ReceiveExecute(activeComponent)];
      }
    }

    /**
     * On the server and when idle, stores the delegate and starts; otherwise (already
     * running, or a client) reports Failed to the given delegate at once, if bound, and
     * changes nothing else.
     */
    method AsyncExecute(component: Option<ComponentId>, cb: Option<CallbackId>)
      modifies this`executing, this`activeComponent, this`callback, this`executingEvents, this`netUpdates
      modifies this`hooks, this`reports
      ensures old(executing) || !hasAuthority ==>
        executing == old(executing) && activeComponent == old(activeComponent) && callback == old(callback)
        && executingEvents == old(executingEvents) && netUpdates == old(netUpdates) && hooks == old(hooks)
        && reports == old(reports) + (if cb.Some? then [Report(cb.value, Failed)] else [])
      ensures !old(executing) && hasAuthority ==>
        executing && activeComponent == component && callback == cb && reports == old(reports)
        && executingEvents == old(executingEvents) + [true] && netUpdates == old(netUpdates) + 1
        && hooks == old(hooks) + [ReceiveExecute(component)]
    {
      if !executing && hasAuthority {
        callback := cb;
        Execute(component);
      } else {
        if cb.Some? {
          reports := reports + [Report(cb.value, Failed)];
        }
      }
    }

    /**
     * Ends a running execution: the flag is cleared, the user event gets the result, a
     * success applies the cooldown, the component is cleared, the change is broadcast,
     * and the bound delegate gets the result. The delegate is never unbound. Without a
     * running execution nothing happens. There is no authority check.
     */
    method FinishExecute(success: bool, clock: Clock)
      modifies this`executing, this`activeComponent, this`cooldownEnd, this`executingEvents
      modifies this`netUpdates, this`hooks, this`reports
      ensures !old(executing) ==>
        !executing && activeComponent == old(activeComponent) && cooldownEnd == old(cooldownEnd)
        && executingEvents == old(executingEvents) && netUpdates == old(netUpdates)
        && hooks == old(hooks) && reports == old(reports)
      ensures old(executing) ==>
        !executing && activeComponent == None
        && cooldownEnd == (if success then CooldownEndAfter(clock, cooldown, old(cooldownEnd)) else old(cooldownEnd))
        && executingEvents == old(executingEvents) + [false] && netUpdates == old(netUpdates) + 1
        && hooks == old(hooks) + [ReceivePointFinish(ResultOf(success))]
        && reports == old(reports) + (if callback.Some? then [Report(callback.value, ResultOf(success))] else [])
    {
      if executing {
        var result := ResultOf(success);
        SetIsExecuting(false);
        hooks := hooks + [ReceivePointFinish(result)];
        if success {
          ApplyCooldown(clock);
        }
        activeComponent := None;
        executingEvents := executingEvents + [executing];
        if callback.Some? {
          reports := reports + [Report(callback.value, result)];
        }
      }
    }

    /** The base `ValidateData`: forwards to the condition query. */
    method ValidateData()
      modifies WrappedConditions(query)`hooks
      ensures query.instance != null ==> forall k | 0 <= k < |query.instance.conditions| && query.instance.conditions[k].instance != null ::
        query.instance.conditions[k].instance.hooks
        == old(query.instance.conditions[k].instance.hooks)
           + Seqs.Repeat(Hook.ValidateData, Occurrences(query.instance.conditions, query.instance.conditions[k].instance))
    {
      ValidateQuery(query);
    }

    /**
     * `BeginPlay`: initializes the condition query with this point as owner, then validates.
     * Each condition's hooks are those of the initialization, then one `ValidateData` per
     * entry that holds it.
     */
    method BeginPlay(outcome: Condition -> bool)
      modifies QueryOf(query), WrappedConditions(query)
      ensures query.instance != null ==> SetUp(query.instance, Some(actorId), outcome)
      ensures query.instance != null ==> forall c | c in query.instance.Instances() ::
        c.hooks == old(c.hooks) + InitHooks(old(query.instance.initialized), old(c.initialized))
                   + Seqs.Repeat(Hook.ValidateData, Occurrences(query.instance.conditions, c))
    {
      BeginPlayQuery(query, actorId, outcome);
    }

    method PostActorCreated(withEditor: bool, isTemplate: bool, freshId: Guid)
      requires IsValidGuid(freshId)
      modifies this`pointId
      ensures pointId == IdAfterActorCreated(old(pointId), withEditor, isTemplate, freshId)
    {
      if withEditor && !isTemplate && !IsValidGuid(pointId) {
        pointId := freshId;
      }
    }

    method PostDuplicate(mode: DuplicateMode, withEditor: bool, isTemplate: bool, freshId: Guid)
      modifies this`pointId
      ensures pointId == IdAfterDuplicate(mode, old(pointId), withEditor, isTemplate, freshId)
    {
      if withEditor && mode == Normal && !isTemplate {
        pointId := freshId;
      }
    }
  }

  /**
   * A successful run on the server: an idle point started and then finished with success
   * reports Success to the delegate, is idle again, and with a positive cooldown cannot
   * run until `cooldown` seconds after the finish.
   */
  method SuccessfulRun(p: ActionPoint, component: ComponentId, cb: CallbackId, now: real)
    requires !p.executing && p.hasAuthority && p.cooldown > 0.0
    modifies p
    ensures !p.executing && p.activeComponent == None && p.callback == Some(cb)
    ensures p.reports == old(p.reports) + [Report(cb, Success)]
    ensures p.IsOnCooldown(WorldTime(now)) && !p.IsOnCooldown(WorldTime(now + p.cooldown))
  {
    p.AsyncExecute(Some(component), Some(cb));
    p.FinishExecute(true, WorldTime(now));
  }
}
