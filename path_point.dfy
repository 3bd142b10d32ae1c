/**
 * `ADASPathPoint`: a node of a patrol graph. It links to next and previous path
 * points, picks one of them for an agent (through a solver, or at random among those
 * that can run), and hands out spots: places around the point that one agent at a
 * time may hold.
 *
 * Spot reservation is specified by the pure functions `FirstHeld`, `Released`,
 * `ClosestFree` and `Request`, and link selection by `SelectLink`; the methods are
 * proved equal to them.
 */
module PathPoints {
  import opened Wrappers
  import opened Types
  import opened Seqs
  import opened Conditions
  import opened ConditionQueries
  import opened Selectors
  import opened BasePoints

  // ----- spots -----

  /** `TArray::FindByKey(actor)`: the first spot whose owner pointer is `actor`. */
  function FirstHeld(s: seq<Spot>, actor: Option<ActorId>): (r: Option<nat>)
    ensures r.Some? ==> r.value < |s| && HeldBy(s[r.value], actor)
    ensures r.Some? ==> forall j :: 0 <= j < r.value ==> !HeldBy(s[j], actor)
    ensures r.None? <==> forall j :: 0 <= j < |s| ==> !HeldBy(s[j], actor)
  {
    if s == [] then None
    else if HeldBy(s[0], actor) then Some(0)
    else
      match FirstHeld(s[1..], actor)
      case None =>
        assert forall j :: 1 <= j < |s| ==> s[j] == s[1..][j - 1];
        None
      case Some(k) =>
        assert forall j :: 1 <= j < k + 1 ==> s[j] == s[1..][j - 1];
        Some(k + 1)
  }

  /** The spots after `ReleaseSpot(actor)`: the first spot held by `actor`, if any, is freed. */
  function Released(s: seq<Spot>, actor: Option<ActorId>): (r: seq<Spot>)
    ensures |r| == |s|
  {
    match FirstHeld(s, actor)
    case None => s
    case Some(k) => s[k := FreeSpot(s[k])]
  }

  /** How many spots name `actor` as their owner. */
  function CountHeld(s: seq<Spot>, actor: Option<ActorId>): nat
  {
    if s == [] then 0 else (if HeldBy(s[0], actor) then 1 else 0) + CountHeld(s[1..], actor)
  }

  lemma {:induction false} CountHeldUpdate(s: seq<Spot>, k: nat, v: Spot, actor: Option<ActorId>)
    requires k < |s|
    ensures CountHeld(s[k := v], actor)
            == CountHeld(s, actor) - (if HeldBy(s[k], actor) then 1 else 0) + (if HeldBy(v, actor) then 1 else 0)
  {
    if k > 0 {
      assert s[k := v][1..] == s[1..][k - 1 := v];
      CountHeldUpdate(s[1..], k - 1, v, actor);
    }
  }

  lemma {:induction false} NoneHeld(s: seq<Spot>, actor: Option<ActorId>)
    requires forall j :: 0 <= j < |s| ==> !HeldBy(s[j], actor)
    ensures CountHeld(s, actor) == 0
  {
    if s != [] {
      assert forall j :: 0 <= j < |s[1..]| ==> s[1..][j] == s[j + 1];
      NoneHeld(s[1..], actor);
    }
  }

  /**
   * Releasing frees exactly one spot of an actor that holds any, and changes no other
   * actor's holdings. Every spot keeps its transform.
   */
  lemma ReleaseFreesOne(s: seq<Spot>, actor: ActorId, other: ActorId)
    requires other != actor
    ensures CountHeld(Released(s, Some(actor)), Some(actor))
            == if CountHeld(s, Some(actor)) > 0 then CountHeld(s, Some(actor)) - 1 else 0
    ensures CountHeld(Released(s, Some(actor)), Some(other)) == CountHeld(s, Some(other))
    ensures forall j :: 0 <= j < |s| ==> Released(s, Some(actor))[j].transform == s[j].transform
  {
    match FirstHeld(s, Some(actor))
    case None =>
      NoneHeld(s, Some(actor));
    case Some(k) =>
      CountHeldUpdate(s, k, FreeSpot(s[k]), Some(actor));
      CountHeldUpdate(s, k, FreeSpot(s[k]), Some(other));
  }

  /** The squared distance of each free spot; `None` for a taken one. */
  function FreeDistances(s: seq<Spot>, live: set<ActorId>, dist: Transform -> nat): (ds: seq<Option<nat>>)
    ensures |ds| == |s|
    ensures forall j :: 0 <= j < |s| ==> ds[j] == if IsFree(s[j], live) then Some(dist(s[j].transform)) else None
  {
    seq(|s|, j requires 0 <= j < |s| => if IsFree(s[j], live) then Some(dist(s[j].transform)) else None)
  }

  /**
   * The free spot `RequestSpot`'s running minimum ends with: one of minimal distance, and
   * on a tie the lowest index.
   */
  function ClosestFree(s: seq<Spot>, live: set<ActorId>, dist: Transform -> nat): (r: Option<nat>)
    ensures r.Some? ==> r.value < |s| && IsFree(s[r.value], live)
    ensures r.Some? ==> forall j :: 0 <= j < |s| && IsFree(s[j], live) ==> dist(s[r.value].transform) <= dist(s[j].transform)
    ensures r.Some? ==> forall j :: 0 <= j < r.value && IsFree(s[j], live) ==> dist(s[r.value].transform) < dist(s[j].transform)
    ensures r.None? <==> forall j :: 0 <= j < |s| ==> !IsFree(s[j], live)
  {
    FirstMinimum(FreeDistances(s, live, dist), |s|)
  }

  /** The spots and the reported spot after a `RequestSpot`. */
  datatype Claim = Claim(spots: seq<Spot>, out: Option<Spot>)

  /**
   * `RequestSpot(querier)`: with no spots, nothing happens and nothing is reported.
   * Otherwise the querier's spot is released, then the closest free spot is taken for it
   * and reported; if none is free, the first spot is reported and nobody takes it.
   */
  function Request(s: seq<Spot>, querier: Option<ActorId>, live: set<ActorId>, dist: Transform -> nat): (r: Claim)
    ensures |r.spots| == |s| && (r.out.None? <==> s == [])
  {
    if s == [] then Claim(s, None)
    else
      var released := Released(s, querier);
      match ClosestFree(released, live, dist)
      case Some(k) =>
        var taken := released[k := TakeSpot(released[k], querier, live)];
        Claim(taken, Some(taken[k]))
      case None => Claim(released, Some(released[0]))
  }

  /**
   * When some spot is free after the release, the querier takes a free spot of minimal
   * distance (the lowest-indexed among equals) and that spot is what gets reported.
   */
  lemma RequestClaimsClosestFree(s: seq<Spot>, querier: Option<ActorId>, live: set<ActorId>, dist: Transform -> nat)
    requires exists j :: 0 <= j < |s| && IsFree(Released(s, querier)[j], live)
    ensures var rel := Released(s, querier);
      exists k :: 0 <= k < |s| && IsFree(rel[k], live)
        && (forall j :: 0 <= j < |s| && IsFree(rel[j], live) ==> dist(rel[k].transform) <= dist(rel[j].transform))
        && (forall j :: 0 <= j < k && IsFree(rel[j], live) ==> dist(rel[k].transform) < dist(rel[j].transform))
        && Request(s, querier, live, dist) == Claim(rel[k := rel[k].(owner := querier)], Some(rel[k].(owner := querier)))
  {
    var rel := Released(s, querier);
    var k :| ClosestFree(rel, live, dist) == Some(k);
    assert Request(s, querier, live, dist) == Claim(rel[k := rel[k].(owner := querier)], Some(rel[k].(owner := querier)));
  }

  /**
   * When no spot is free after the release, the first spot is reported and no owner
   * changes beyond the release; if the querier held nothing, no owner changes at all.
   */
  lemma RequestWithoutFreeSpot(s: seq<Spot>, querier: Option<ActorId>, live: set<ActorId>, dist: Transform -> nat)
    requires s != [] && forall j :: 0 <= j < |s| ==> IsTaken(Released(s, querier)[j], live)
    ensures Request(s, querier, live, dist) == Claim(Released(s, querier), Some(Released(s, querier)[0]))
    ensures FirstHeld(s, querier).None? ==> Request(s, querier, live, dist).spots == s
  {
    assert ClosestFree(Released(s, querier), live, dist).None?;
  }

  /** No actor holds two spots after a request if none held two before. */
  lemma RequestKeepsOneSpotEach(s: seq<Spot>, querier: Option<ActorId>, live: set<ActorId>, dist: Transform -> nat, a: ActorId)
    requires CountHeld(s, Some(a)) <= 1
    ensures CountHeld(Request(s, querier, live, dist).spots, Some(a)) <= 1
  {
    if s != [] {
      var rel := Released(s, querier);
      if querier == Some(a) {
        ReleaseFreesOne(s, a, a + 1);
      } else if querier.Some? {
        ReleaseFreesOne(s, querier.value, a);
      } else {
        match FirstHeld(s, None)
        case None =>
        case Some(k) => CountHeldUpdate(s, k, FreeSpot(s[k]), Some(a));
      }
      assert CountHeld(rel, Some(a)) <= 1;
      assert querier == Some(a) ==> CountHeld(rel, Some(a)) == 0;
      match ClosestFree(rel, live, dist)
      case None =>
      case Some(k) =>
        CountHeldUpdate(rel, k, TakeSpot(rel[k], querier, live), Some(a));
    }
  }

  // ----- links -----

  /** `pathPoint && pathPoint->CanRun()`, with `CanRun` given as an oracle. */
  function Runnable(canRun: PathPoint -> bool): PathPoint? -> bool
  {
    p => p != null && canRun(p)
  }

  function NonNull(p: PathPoint?): bool { p != null }

  /**
   * What the caller supplies for one selection: the answer of the point's solver (user
   * code; the base solver answers null), and the outcome of `RandomIntegerInRange`, taken
   * modulo the number of available points.
   */
  datatype LinkChoice = LinkChoice(solverAnswer: PathPoint?, random: nat)

  /** `GetNextPathPoint` / `GetPreviousPathPoint` over one direction's settings. */
  function SelectLink(enabled: bool, links: seq<PathPoint?>, hasSolver: bool, choice: LinkChoice,
                      canRun: PathPoint -> bool): PathPoint?
  {
    if !enabled || |links| == 0 then null
    else if hasSolver then choice.solverAnswer
    else
      var available := Filter(links, Runnable(canRun));
      if |available| == 0 then null else available[choice.random % |available|]
  }

  /**
   * Without a solver, an enabled direction yields a point iff some link is non-null and
   * can run, and what it yields is such a link.
   */
  lemma RandomPickIsRunnableLink(enabled: bool, links: seq<PathPoint?>, choice: LinkChoice, canRun: PathPoint -> bool)
    ensures var r := SelectLink(enabled, links, false, choice, canRun);
      (r != null <==> enabled && exists i :: 0 <= i < |links| && links[i] != null && canRun(links[i]))
      && (r != null ==> r in links && canRun(r))
  {
    var available := Filter(links, Runnable(canRun));
    FilterSound(links, Runnable(canRun));
    FilterComplete(links, Runnable(canRun));
    if enabled && exists i :: 0 <= i < |links| && links[i] != null && canRun(links[i]) {
      var i :| 0 <= i < |links| && links[i] != null && canRun(links[i]);
      assert links[i] in available;
    }
    if enabled && |links| > 0 && |available| > 0 {
      assert available[choice.random % |available|] in available;
    }
  }

  /** Every link that can run is the pick for some outcome of the random draw. */
  lemma EveryRunnableLinkReachable(links: seq<PathPoint?>, canRun: PathPoint -> bool, i: nat)
    requires i < |links| && links[i] != null && canRun(links[i])
    ensures exists random: nat :: SelectLink(true, links, false, LinkChoice(null, random), canRun) == links[i]
  {
    var available := Filter(links, Runnable(canRun));
    FilterComplete(links, Runnable(canRun));
    assert links[i] in available;
    var j :| 0 <= j < |available| && available[j] == links[i];
    assert j % |available| == j;
    assert SelectLink(true, links, false, LinkChoice(null, j), canRun) == available[j];
  }

  /** With a solver, its answer is returned as it is: it need not be a link, nor able to run. */
  lemma SolverAnswerIsUnfiltered(links: seq<PathPoint?>, choice: LinkChoice, canRun: PathPoint -> bool)
    requires |links| > 0
    ensures SelectLink(true, links, true, choice, canRun) == choice.solverAnswer
    ensures SelectLink(false, links, true, choice, canRun) == null
  {
  }

  /**
   * `UDASPathSolver::FilterOutPointsThatCantRun`: the output array is reset, then gets
   * every non-null input point that can run. What the output held before is discarded, so
   * it is not an input here.
   */
  method FilterOutPointsThatCantRun(points: seq<PathPoint?>, canRun: PathPoint -> bool)
    returns (available: seq<PathPoint?>)
    ensures available == Filter(points, Runnable(canRun))
  {
    available := [];
    for i := 0 to |points|
      invariant available == Filter(points[..i], Runnable(canRun))
    {
      assert points[..i + 1] == points[..i] + [points[i]];
      FilterSnoc(points[..i], points[i], Runnable(canRun));
      if points[i] != null {
        if canRun(points[i]) {
          available := available + [points[i]];
        }
      }
    }
    assert points[..|points|] == points;
  }

  /**
   * The available points are exactly the runnable inputs: each is non-null and can run, the
   * input order is kept, and every runnable input appears as often as in the input.
   */
  lemma AvailablePoints(points: seq<PathPoint?>, canRun: PathPoint -> bool)
    ensures forall p: PathPoint? :: p in Filter(points, Runnable(canRun)) ==> p != null && canRun(p)
    ensures IsSubsequence(Filter(points, Runnable(canRun)), points)
    ensures forall p: PathPoint :: canRun(p) ==> multiset(Filter(points, Runnable(canRun)))[p] == multiset(points)[p]
  {
    FilterSound(points, Runnable(canRun));
    FilterIsSubsequence(points, Runnable(canRun));
    forall p: PathPoint | canRun(p)
      ensures multiset(Filter(points, Runnable(canRun)))[p] == multiset(points)[p]
    {
      FilterMultiset(points, Runnable(canRun), p);
    }
  }

  class PathPoint {
    // the base point's fields
    var pointId: Guid
    /** The point as an actor: the owner its condition query is initialized with. */
    const actorId: ActorId
    var tag: Tag
    const query: QueryWrapper

    var canMoveForward: bool
    var nextPoints: seq<PathPoint?>
    /** Whether `NextPathPointSolver` is set; its answer is supplied per call. */
    var hasNextSolver: bool
    var canMoveBackward: bool
    var previousPoints: seq<PathPoint?>
    var hasPreviousSolver: bool
    var executeMethod: PathExecuteMethod
    var actionSelector: ActionSelector?
    var returnAfterActions: bool
    var spots: seq<Spot>

    constructor (actorId: ActorId, query: QueryWrapper)
      ensures this.actorId == actorId && this.query == query && pointId == 0 && tag == Tag([])
      ensures canMoveForward && canMoveBackward && !returnAfterActions && executeMethod == BothWays
      ensures nextPoints == [] && previousPoints == [] && !hasNextSolver && !hasPreviousSolver
      ensures actionSelector == null && spots == []
    {
      this.actorId := actorId;
      this.query := query;
      pointId := 0;
      tag := Tag([]);
      canMoveForward := true;
      canMoveBackward := true;
      returnAfterActions := false;
      executeMethod := BothWays;
      nextPoints := [];
      previousPoints := [];
      hasNextSolver := false;
      hasPreviousSolver := false;
      actionSelector := null;
      spots := [];
    }

    /** Frees the first spot held by `querier`. */
    method ReleaseSpot(querier: Option<ActorId>)
      modifies this`spots
      ensures spots == Released(old(spots), querier)
    {
      var found := FirstHeld(spots, querier);
      if found.Some? {
        spots := spots[found.value := FreeSpot(spots[found.value])];
      }
    }

    /**
     * Releases the querier's spot, then takes the closest free spot for it, found by a
     * running minimum over the spots in order. `dist` gives the squared distance of a spot
     * (by its local transform) from the querier, or from the point when the querier is
     * not valid. `None` is the output left untouched.
     */
    method RequestSpot(querier: Option<ActorId>, live: set<ActorId>, dist: Transform -> nat) returns (out: Option<Spot>)
      modifies this`spots
      ensures Claim(spots, out) == Request(old(spots), querier, live, dist)
    {
      out := None;
      if |spots| == 0 {
        return;
      }
      ReleaseSpot(querier);
      var closest: Option<nat> := None;
      var closestDistance := 0;
      var i := 0;
      while i < |spots|
        invariant 0 <= i <= |spots|
        invariant closest == FirstMinimum(FreeDistances(spots, live, dist), i)
        invariant closest.Some? ==> closestDistance == dist(spots[closest.value].transform)
      {
        if IsFree(spots[i], live) {
          var d := dist(spots[i].transform);
          if closest.None? || d < closestDistance {
            closestDistance := d;
            closest := Some(i);
          }
        }
        i := i + 1;
      }
      if closest.Some? {
        spots := spots[closest.value := TakeSpot(spots[closest.value], querier, live)];
        out := Some(spots[closest.value]);
      } else {
        out := Some(spots[0]);
      }
    }

    /** Where an agent should go: the point itself without spots, else a spot requested for it. */
    method GetPointLocationAndRotation(querier: Option<ActorId>, live: set<ActorId>, dist: Transform -> nat)
      returns (goal: Goal)
      modifies this`spots
      ensures old(spots) == [] ==> goal == PointPose && spots == []
      ensures old(spots) != [] ==>
        var c := Request(old(spots), querier, live, dist);
        spots == c.spots && goal == SpotPose(c.out.value.transform)
    {
      if |spots| == 0 {
        goal := PointPose;
      } else {
        var spot := RequestSpot(querier, live, dist);
        goal := SpotPose(spot.value.transform);
      }
    }

    method GetNextPathPoint(choice: LinkChoice, canRun: PathPoint -> bool) returns (r: PathPoint?)
      ensures r == SelectLink(canMoveForward, nextPoints, hasNextSolver, choice, canRun)
    {
      r := null;
      if canMoveForward && |nextPoints| > 0 {
        if hasNextSolver {
          r := choice.solverAnswer;
        } else {
          var available := FilterOutPointsThatCantRun(nextPoints, canRun);
          if |available| > 0 {
            r := available[choice.random % |available|];
          }
        }
      }
    }

    method GetPreviousPathPoint(choice: LinkChoice, canRun: PathPoint -> bool) returns (r: PathPoint?)
      ensures r == SelectLink(canMoveBackward, previousPoints, hasPreviousSolver, choice, canRun)
    {
      r := null;
      if canMoveBackward && |previousPoints| > 0 {
        if hasPreviousSolver {
          r := choice.solverAnswer;
        } else {
          var available := FilterOutPointsThatCantRun(previousPoints, canRun);
          if |available| > 0 {
            r := available[choice.random % |available|];
          }
        }
      }
    }

    /**
     * The base `CanRun`: true without a query; otherwise one evaluation of the query, which
     * re-caches and broadcasts as `Evaluated` says.
     */
    method CanRun(outcome: Condition -> bool) returns (r: bool)
      requires query.instance != null ==> NoNulls(query.instance.conditions)
      modifies QueryOf(query)`cached, QueryOf(query)`changeEvents, QueryOf(query)`lastEvaluated, QueryOf(query)`evaluations
      modifies WrappedConditions(query)`cached, WrappedConditions(query)`changeEvents
      ensures query.instance == null ==> r
      ensures query.instance != null ==> Evaluated(query.instance, outcome, r)
    {
      r := WrapperIsConditionFulfilled(query, outcome);
    }

    ghost function SelectorSet(): set<ActionSelector>
      reads this
    {
      if actionSelector != null then {actionSelector} else {}
    }

    /**
     * Validates the condition query, drops the null entries of both link arrays (keeping
     * the order of the others), then validates the action selector.
     */
    method ValidateData()
      modifies this`nextPoints, this`previousPoints, WrappedConditions(query)`hooks, SelectorSet()`validations
      ensures nextPoints == Filter(old(nextPoints), NonNull) && previousPoints == Filter(old(previousPoints), NonNull)
      ensures actionSelector != null ==> actionSelector.validations == old(actionSelector.validations) + 1
      ensures query.instance != null ==> forall k | 0 <= k < |query.instance.conditions| && query.instance.conditions[k].instance != null ::
        query.instance.conditions[k].instance.hooks
        == old(query.instance.conditions[k].instance.hooks)
           + Repeat(Hook.ValidateData, Occurrences(query.instance.conditions, query.instance.conditions[k].instance))
    {
      ValidateQuery(query);
      ValidateLinks();
    }

    /** The part of `ValidateData` after the query: the link arrays, then the action selector. */
    method ValidateLinks()
      modifies this`nextPoints, this`previousPoints, SelectorSet()`validations
      ensures nextPoints == Filter(old(nextPoints), NonNull) && previousPoints == Filter(old(previousPoints), NonNull)
      ensures actionSelector != null ==> actionSelector.validations == old(actionSelector.validations) + 1
    {
      nextPoints := RemoveRejected(nextPoints, NonNull);
      previousPoints := RemoveRejected(previousPoints, NonNull);
      if actionSelector != null {
        actionSelector.ValidateData();
      }
    }

    /** Validated links hold no null entries and keep every linked point, in order. */
    static lemma ValidatedLinks(links: seq<PathPoint?>)
      ensures forall p :: p in Filter(links, NonNull) ==> p != null
      ensures IsSubsequence(Filter(links, NonNull), links)
      ensures forall p: PathPoint :: multiset(Filter(links, NonNull))[p] == multiset(links)[p]
    {
      FilterSound(links, NonNull);
      FilterIsSubsequence(links, NonNull);
      forall p: PathPoint
        ensures multiset(Filter(links, NonNull))[p] == multiset(links)[p]
      {
        FilterMultiset(links, NonNull, p);
      }
    }

    /**
     * `BeginPlay`: initializes the condition query with this point as owner, then validates.
     * Each condition's hooks are those of the initialization, then one `ValidateData` per
     * entry that holds it.
     */
    method BeginPlay(outcome: Condition -> bool)
      modifies QueryOf(query), WrappedConditions(query)
      modifies this`nextPoints, this`previousPoints, SelectorSet()`validations
      ensures query.instance != null ==> SetUp(query.instance, Some(actorId), outcome)
      ensures query.instance != null ==> forall c | c in query.instance.Instances() ::
        c.hooks == old(c.hooks) + InitHooks(old(query.instance.initialized), old(c.initialized))
                   + Repeat(Hook.ValidateData, Occurrences(query.instance.conditions, c))
      ensures nextPoints == Filter(old(nextPoints), NonNull) && previousPoints == Filter(old(previousPoints), NonNull)
      ensures actionSelector != null ==> actionSelector.validations == old(actionSelector.validations) + 1
    {
      BeginPlayQuery(query, actorId, outcome);
      ValidateLinks();
    }

    method PostActorCreated(withEditor: bool, isTemplate: bool, freshId: Guid)
      requires IsValidGuid(freshId)
      modifies this`pointId
      ensures pointId == IdAfterActorCreated(old(pointId), withEditor, isTemplate, freshId)
    {
      if withEditor && !isTemplate && !IsValidGuid(pointId) {
        pointId := freshId;
      }
    }

    method PostDuplicate(mode: DuplicateMode, withEditor: bool, isTemplate: bool, freshId: Guid)
      modifies this`pointId
      ensures pointId == IdAfterDuplicate(mode, old(pointId), withEditor, isTemplate, freshId)
    {
      if withEditor && mode == Normal && !isTemplate {
        pointId := freshId;
      }
    }
  }
}
