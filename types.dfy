/**
 * The plugin's shared value types: enumerations, the spot record that an agent
 * claims on a path point, and the abstractions for engine values (identifiers,
 * gameplay tags, world time, transforms).
 */
module Types {
  import opened Wrappers

  /** A point identifier (`FGuid`). The all-zero GUID is the invalid one; it is 0 here. */
  type Guid = nat

  predicate IsValidGuid(g: Guid) { g != 0 }

  /** The identity of an actor (an AI agent, or a point seen as an actor). */
  type ActorId = nat

  /** The identity of a DASComponent, as handed to actions and action points while they execute. */
  type ComponentId = nat

  /** The identity of a bound completion delegate (`FOnActionFinished`). */
  type CallbackId = nat

  /** What the agent is doing: walking path points or running actions from its own selector. */
  datatype RunMode = Undefined | ExecutePathPoints | ExecuteActionsFromSelector

  /** The agent's published sub-state along a path. */
  datatype PathBehavior = Undefined | MovingToPathPoint | ReturningToPathPoint | MovingToActionPoint | ExecutingActionPoint

  datatype ExecutionResult = Success | Failed

  /** How a condition combines with the running result of the conditions before it. */
  datatype Operator = AND | OR

  /** In which travel direction a path point's action selector runs (`None` in the plugin). */
  datatype PathExecuteMethod = NoActions | BothWays | Forward | Backward

  /**
   * A gameplay tag as its dotted path of segments ("Patrol.Night" is ["Patrol", "Night"]).
   * The empty tag is the invalid one.
   */
  datatype Tag = Tag(path: seq<string>)

  predicate IsValidTag(t: Tag) { |t.path| > 0 }

  /**
   * `FGameplayTag::MatchesTag`: `t` is `query` or one of its children. Nothing matches
   * an invalid query, and an invalid tag matches nothing.
   */
  predicate MatchesTag(t: Tag, query: Tag)
  {
    IsValidTag(query) && query.path <= t.path
  }

  /** The world clock as the plugin reads it: no world at all, or the current world time in seconds. */
  datatype Clock = NoWorld | WorldTime(seconds: real)

  /** A local transform, kept as an opaque label: the model does no geometry. */
  type Transform = nat

  /** What an agent is told to walk to: a point's own pose, or a spot at a local transform of a point. */
  datatype Goal = NoGoal | PointPose | SpotPose(local: Transform)

  /**
   * `FDASSpot`: a local transform on a path point and the actor that holds it.
   * `owner == None` is a null owner pointer.
   */
  datatype Spot = Spot(transform: Transform, owner: Option<ActorId>)

  /**
   * `FDASSpot::IsTaken`: the owner pointer refers to a live actor. `live` is the set of actors
   * that `IsValid` accepts right now (not null, not pending destruction).
   */
  predicate IsTaken(s: Spot, live: set<ActorId>)
  {
    s.owner.Some? && s.owner.value in live
  }

  predicate IsFree(s: Spot, live: set<ActorId>)
  {
    !IsTaken(s, live)
  }

  /** `FDASSpot::operator==(AActor*)`: compares the owner pointer, live or not. */
  predicate HeldBy(s: Spot, actor: Option<ActorId>)
  {
    s.owner == actor
  }

  /** `FDASSpot::TakeSpot`: a free spot gets the new owner; a taken spot is left as it is. */
  function TakeSpot(s: Spot, actor: Option<ActorId>, live: set<ActorId>): (r: Spot)
    ensures r.transform == s.transform
    ensures IsFree(s, live) ==> HeldBy(r, actor)
    ensures IsTaken(s, live) ==> r == s
  {
    if IsFree(s, live) then s.(owner := actor) else s
  }

  /** `FDASSpot::FreeSpot`: drops the owner pointer. */
  function FreeSpot(s: Spot): (r: Spot)
    ensures r.transform == s.transform
    ensures forall live :: IsFree(r, live)
  {
    s.(owner := None)
  }

  /**
   * An owner that is no longer live counts as free, yet the spot still compares equal to it,
   * so a release by that actor still finds it.
   */
  lemma StaleOwnerIsFreeButHeld(s: Spot, a: ActorId, live: set<ActorId>)
    requires s.owner == Some(a) && a !in live
    ensures IsFree(s, live) && HeldBy(s, Some(a))
  {
  }

  /** A spot taken by a live actor is free for nobody else, and taking it again changes nothing. */
  lemma TakenSpotKeepsOwner(s: Spot, other: Option<ActorId>, live: set<ActorId>)
    requires IsTaken(s, live)
    ensures TakeSpot(s, other, live).owner == s.owner
  {
  }
}
