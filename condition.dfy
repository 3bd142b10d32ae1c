/**
 * `UDASCondition`: a predicate on the world whose last result is cached, with a
 * change event that fires when the cached result changes.
 *
 * The predicate itself (`IsConditionFulfilled_Internal`) is user code. The model
 * passes its current outcome in as a parameter. The change event's broadcasts are
 * recorded in the ghost log `changeEvents`, one entry (the new result) per broadcast.
 */
module Conditions {
  import opened Wrappers
  import Types

  /** `ECachedConditionResult`: the last result, or Undefined before the first evaluation. */
  datatype CachedResult = Undefined | True | False

  function ToCached(b: bool): (c: CachedResult)
    ensures c != Undefined
    ensures c == True <==> b
  {
    if b then True else False
  }

  /**
   * The guard that decides whether an evaluation broadcasts: the first result after
   * the cache was cleared, or a result opposite to the cached one.
   */
  predicate IsTransition(previous: CachedResult, result: bool)
  {
    previous == Undefined || (result && previous == False) || (!result && previous == True)
  }

  /** The guard fires exactly when the cache takes a new value. */
  lemma TransitionIffCacheChanges(previous: CachedResult, result: bool)
    ensures IsTransition(previous, result) <==> previous != ToCached(result)
  {
  }

  /** When the cache is cleared, the next evaluation always broadcasts, whatever its result. */
  lemma ClearedCacheAlwaysTransitions(result: bool)
    ensures IsTransition(Undefined, result)
  {
  }

  /** The broadcasts that successive evaluations with these outcomes produce, starting from `cache`. */
  function EventsOf(cache: CachedResult, outcomes: seq<bool>): (events: seq<bool>)
    decreases |outcomes|
  {
    if outcomes == [] then []
    else (if IsTransition(cache, outcomes[0]) then [outcomes[0]] else [])
         + EventsOf(ToCached(outcomes[0]), outcomes[1..])
  }

  /**
   * Re-evaluating with an unchanged outcome is silent: a run of equal outcomes broadcasts
   * at most once, and not at all if the cache already holds that outcome.
   */
  lemma {:induction false} RepeatedOutcomeBroadcastsOnce(cache: CachedResult, b: bool, n: nat)
    ensures EventsOf(cache, seq(n, _ => b)) == if n > 0 && cache != ToCached(b) then [b] else []
    decreases n
  {
    if n > 0 {
      var s := seq(n, _ => b);
      assert s[1..] == seq(n - 1, _ => b);
      RepeatedOutcomeBroadcastsOnce(ToCached(b), b, n - 1);
    }
  }

  /** The overridable no-op hooks of a condition. */
  datatype Hook = ValidateData | AddObservers | RemoveObservers

  class Condition {
    var cached: CachedResult
    var initialized: bool
    /** The owning object (`OwnerObject`); `None` is a null pointer. */
    var owner: Option<Types.ActorId>
    /** Objects subscribed to `OnConditionResultChanged`. */
    var listeners: set<object>

    /** Every broadcast of `ConditionResultChanged` / `OnConditionResultChanged`, with its argument. */
    ghost var changeEvents: seq<bool>
    /** The overridable hooks that ran, in order. */
    ghost var hooks: seq<Hook>

    constructor ()
      ensures cached == Undefined && !initialized && owner == None && listeners == {}
      ensures changeEvents == [] && hooks == []
    {
      cached := Undefined;
      initialized := false;
      owner := None;
      listeners := {};
      changeEvents := [];
      hooks := [];
    }

    /**
     * Evaluates the predicate (whose current outcome is `outcome`), caches the result and
     * broadcasts it when it differs from the previously cached one.
     */
    method IsConditionFulfilled(outcome: bool) returns (r: bool)
      modifies this`cached, this`changeEvents
      ensures r == outcome
      ensures cached == ToCached(r)
      ensures changeEvents == old(changeEvents) + EventsOf(old(cached), [r])
    {
      var previous := cached;
      r := outcome;
      cached := ToCached(r);
      if IsTransition(previous, r) {
        changeEvents := changeEvents + [r];
      }
    }

    /** `UpdateCondition`: an evaluation whose result is discarded. */
    method UpdateCondition(outcome: bool)
      modifies this`cached, this`changeEvents
      ensures cached == ToCached(outcome)
      ensures changeEvents == old(changeEvents) + EventsOf(old(cached), [outcome])
    {
      var _ := IsConditionFulfilled(outcome);
    }

    /** Validates, records the owner and starts observing; a second call does nothing. */
    method Initialize(newOwner: Option<Types.ActorId>)
      modifies this`initialized, this`owner, this`hooks
      ensures initialized
      ensures owner == if old(initialized) then old(owner) else newOwner
      ensures hooks == old(hooks) + if old(initialized) then [] else [Hook.ValidateData, AddObservers]
    {
      if !initialized {
        hooks := hooks + [Hook.ValidateData];
        owner := newOwner;
        initialized := true;
        hooks := hooks + [AddObservers];
      }
    }

    /** Stops observing and clears the cache, so that the next evaluation broadcasts again. */
    method Uninitialize()
      modifies this`initialized, this`cached, this`hooks
      ensures !initialized
      ensures cached == if old(initialized) then CachedResult.Undefined else old(cached)
      ensures hooks == old(hooks) + if old(initialized) then [RemoveObservers] else []
    {
      if initialized {
        initialized := false;
        cached := CachedResult.Undefined;
        hooks := hooks + [RemoveObservers];
      }
    }

    /** The `ValidateData` hook, a no-op unless a subclass overrides it. */
    method ValidateData()
      modifies this`hooks
      ensures hooks == old(hooks) + [Hook.ValidateData]
    {
      hooks := hooks + [Hook.ValidateData];
    }
  }

  /** The predicate of the base class, which holds for a condition no subclass overrides. */
  function BaseOutcome(c: Condition): bool
  {
    true
  }

  /**
   * Evaluating twice with the same outcome broadcasts once at most; evaluating again
   * after `Uninitialize` broadcasts again even though the outcome did not change.
   * A worked trace on real objects; `RepeatedOutcomeBroadcastsOnce` is the general fact.
   */
  method ReevaluationScenario(b: bool) returns (ghost events: seq<bool>)
    ensures events == [b, b]
  {
    var c := new Condition();
    c.Initialize(Some(1));
    var _ := c.IsConditionFulfilled(b);
    var _ := c.IsConditionFulfilled(b);
    c.Uninitialize();
    var _ := c.IsConditionFulfilled(b);
    events := c.changeEvents;
  }
}
