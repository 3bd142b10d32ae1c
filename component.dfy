/**
 * `UDASComponent`: the coordinator on an AI agent. It holds the agent's run mode and path
 * behavior, the active path point and action point, the queue of action points still to
 * run, and the three flags that steer walking along a path; it saves these into snapshots
 * and restores them from snapshots.
 *
 * Each delegate the component broadcasts on (or blueprint event it calls) is a ghost log
 * of the notifications it received, in order. The blackboard keys the component publishes
 * are not modelled.
 */
module Components {
  import opened Wrappers
  import opened Types
  import opened Seqs
  import opened Selectors
  import opened PathPoints
  import opened ActionPoints
  import opened Registries
  import Library

  /** One notification of a changed value: the value before and after. */
  datatype Change<T> = Change(previous: T, current: T)

  /** The notification a setter sends: one change, or none when the value stays the same. */
  function ChangeLog<T(==)>(previous: T, current: T): (r: seq<Change<T>>)
    ensures |r| <= 1
    ensures r == [] <==> previous == current
    ensures r != [] ==> r[0] == Change(previous, current)
  {
    if previous != current then [Change(previous, current)] else []
  }

  /** Whether a change of run mode away from `previous` drops the queued and active action points. */
  predicate ClearsActions(previous: RunMode)
  {
    previous == ExecuteActionsFromSelector || previous == ExecutePathPoints
  }

  /**
   * The checks `Init` makes of things outside the component, in the order it makes them:
   * the owner exists, has authority, is a pawn, implements the plugin's interface; a
   * behavior tree is given; the owner has an AI controller; and that controller starts the tree.
   */
  datatype InitEnvironment = InitEnvironment(
    hasOwner: bool, hasAuthority: bool, isPawn: bool, implementsInterface: bool,
    hasBehaviorTree: bool, hasController: bool, treeStarted: bool)

  predicate CanInit(env: InitEnvironment)
  {
    env.hasOwner && env.hasAuthority && env.isPawn && env.implementsInterface
    && env.hasBehaviorTree && env.hasController && env.treeStarted
  }

  /** The values of the class-default component that `Reset` restores. */
  datatype ComponentDefaults = ComponentDefaults(runMode: RunMode, movingForward: bool)

  /**
   * Whether a path point's action selector may run for an agent moving in the given
   * direction: always with `BothWays`, only one way with `Forward` or `Backward`, never with
   * no actions.
   */
  predicate ActionsAllowed(m: PathExecuteMethod, forward: bool)
  {
    m == BothWays || (m == Forward && forward) || (m == Backward && !forward)
  }

  /** The gate of `FetchPathActionPoints`: an active path point with a selector that may run now. */
  predicate RunsPathActions(p: PathPoint?, forward: bool)
    reads p
  {
    p != null && p.actionSelector != null && ActionsAllowed(p.executeMethod, forward)
  }

  /** Only `BothWays` runs in both directions; every method but no-actions runs in one at least. */
  lemma ActionsAllowedDirections(m: PathExecuteMethod)
    ensures (ActionsAllowed(m, true) && ActionsAllowed(m, false)) <==> m == BothWays
    ensures (ActionsAllowed(m, true) || ActionsAllowed(m, false)) <==> m != NoActions
    ensures m == Forward ==> ActionsAllowed(m, true) && !ActionsAllowed(m, false)
    ensures m == Backward ==> !ActionsAllowed(m, true) && ActionsAllowed(m, false)
  {
  }

  /** The link `GetNextPathPoint` (forward) or `GetPreviousPathPoint` (backward) answers from `p`. */
  function LinkToward(p: PathPoint, forward: bool, nextChoice: LinkChoice, previousChoice: LinkChoice,
                      canRun: PathPoint -> bool): PathPoint?
    reads p
  {
    if forward then SelectLink(p.canMoveForward, p.nextPoints, p.hasNextSolver, nextChoice, canRun)
    else SelectLink(p.canMoveBackward, p.previousPoints, p.hasPreviousSolver, previousChoice, canRun)
  }

  /**
   * Whether a queued action point can start now: it is not null, its `CanRun` holds (supplied
   * by `canRun`) and it is not taken.
   */
  predicate Available(p: ActionPoint?, canRun: ActionPoint -> bool)
    reads p
  {
    p != null && canRun(p) && !p.taken
  }

  /** How many entries at the head of `q` are not available: the index of the first available one. */
  function Unavailable(q: seq<ActionPoint?>, canRun: ActionPoint -> bool): (n: nat)
    reads q
    ensures n <= |q|
    ensures forall j :: 0 <= j < n ==> !Available(q[j], canRun)
    ensures n < |q| ==> Available(q[n], canRun)
  {
    if q == [] then 0
    else if Available(q[0], canRun) then 0
    else 1 + Unavailable(q[1..], canRun)
  }

  /** After the unavailable head entries are dropped, a second pick drops nothing more. */
  lemma {:induction false} DroppingIsIdempotent(q: seq<ActionPoint?>, canRun: ActionPoint -> bool)
    ensures Unavailable(q[Unavailable(q, canRun)..], canRun) == 0
  {
    var n := Unavailable(q, canRun);
    if n < |q| {
      assert q[n..][0] == q[n];
    } else {
      assert q[n..] == [];
    }
  }

  /** A recreated action selector, as a snapshot keeps it: its class and its saved properties. */
  datatype SavedSelector = SavedSelector(kind: nat, data: seq<int>)

  /**
   * `FDASComponentSnapshot`. The owner's location and rotation are one transform; the
   * active path point's id is the invalid 0 when there was none.
   */
  datatype Snapshot = Snapshot(
    activePathPointId: Guid,
    actionPointIds: seq<Guid>,
    wasMovingForward: bool,
    wasReturning: bool,
    hasNewPathPoint: bool,
    runMode: RunMode,
    ownerPose: Transform,
    selector: Option<SavedSelector>)

  /** The ids a snapshot saves for a queue: one per non-null entry, in queue order. */
  function QueueIds(q: seq<ActionPoint?>): (ids: seq<Guid>)
    reads q
    ensures |ids| == |Filter(q, Library.NonNullActionPoint)|
    ensures (forall j :: 0 <= j < |q| ==> q[j] != null) ==>
      |ids| == |q| && forall j :: 0 <= j < |q| ==> ids[j] == q[j].pointId
  {
    if q == [] then []
    else if q[0] == null then QueueIds(q[1..])
    else [q[0].pointId] + QueueIds(q[1..])
  }

  /** The ids saved for a queue depend only on its points' ids. */
  twostate lemma {:induction false} QueueIdsUnchanged(q: seq<ActionPoint?>)
    requires forall j :: 0 <= j < |q| && q[j] != null ==> unchanged(q[j])
    ensures QueueIds(q) == old(QueueIds(q))
  {
    if q != [] {
      QueueIdsUnchanged(q[1..]);
    }
  }

  /** The queue a snapshot's ids load back to: one lookup per id, null for an id not registered. */
  function ResolveIds(reg: Registry, ids: seq<Guid>): (q: seq<ActionPoint?>)
    reads reg, reg.actionPoints
    ensures |q| == |ids|
    ensures forall j :: 0 <= j < |ids| ==> q[j] == reg.FindActionPointById(ids[j])
  {
    if ids == [] then []
    else [reg.FindActionPointById(ids[0])] + ResolveIds(reg, ids[1..])
  }

  /** The id a snapshot saves for the active path point. */
  function PathPointId(p: PathPoint?): (id: Guid)
    reads p
    ensures p != null ==> id == p.pointId
    ensures p == null ==> !IsValidGuid(id)
  {
    if p != null then p.pointId else 0
  }

  /** No two registered action points share an id. */
  predicate UniqueActionIds(reg: Registry)
    reads reg, reg.actionPoints
  {
    forall i, j :: 0 <= i < |reg.actionPoints| && 0 <= j < |reg.actionPoints|
      && reg.actionPoints[i] != null && reg.actionPoints[j] != null
      && reg.actionPoints[i].pointId == reg.actionPoints[j].pointId
      ==> i == j || reg.actionPoints[i] == reg.actionPoints[j]
  }

  /** No two registered path points share an id, and every one has a valid id. */
  predicate ValidPathIds(reg: Registry)
    reads reg, reg.pathPoints
  {
    (forall i :: 0 <= i < |reg.pathPoints| && reg.pathPoints[i] != null ==> IsValidGuid(reg.pathPoints[i].pointId))
    && (forall i, j ::
          0 <= i < |reg.pathPoints| && 0 <= j < |reg.pathPoints|
          && reg.pathPoints[i] != null && reg.pathPoints[j] != null
          && reg.pathPoints[i].pointId == reg.pathPoints[j].pointId
          ==> i == j || reg.pathPoints[i] == reg.pathPoints[j])
  }

  /** Ids the registry knows load back to points with exactly those ids. */
  lemma LoadedQueueSavesSameIds(reg: Registry, ids: seq<Guid>)
    requires forall j :: 0 <= j < |ids| ==> reg.FindActionPointById(ids[j]) != null
    ensures QueueIds(ResolveIds(reg, ids)) == ids
  {
  }

  /**
   * With unique ids among the registered action points, saving a queue of registered points
   * and loading it back gives the queue without its null entries.
   */
  lemma {:induction false} SavedQueueLoadsBack(reg: Registry, q: seq<ActionPoint?>)
    requires forall j :: 0 <= j < |q| && q[j] != null ==> q[j] in reg.actionPoints
    requires UniqueActionIds(reg)
    ensures ResolveIds(reg, QueueIds(q)) == Filter(q, Library.NonNullActionPoint)
  {
    if q != [] {
      SavedQueueLoadsBack(reg, q[1..]);
      if q[0] != null {
        var p := q[0];
        var ids := QueueIds(q);
        assert ids == [p.pointId] + QueueIds(q[1..]);
        assert ids[1..] == QueueIds(q[1..]);
        var k :| 0 <= k < |reg.actionPoints| && reg.actionPoints[k] == p;
        var found := reg.FindActionPointById(p.pointId);
        assert found != null;
        assert found == p;
      }
    }
  }

  /**
   * With valid, unique ids among the registered path points, the active path point saved
   * and loaded back is the same point, and no active point stays none.
   */
  lemma SavedPathPointLoadsBack(reg: Registry, p: PathPoint?)
    requires p != null ==> p in reg.pathPoints
    requires ValidPathIds(reg)
    ensures reg.FindPathPointById(PathPointId(p)) == p
  {
    var found := reg.FindPathPointById(PathPointId(p));
    if p != null {
      var k :| 0 <= k < |reg.pathPoints| && reg.pathPoints[k] == p;
      assert found != null;
    }
  }

  /** What a snapshot needs so that loading it and saving again gives it back. */
  predicate Restorable(reg: Registry, s: Snapshot)
    reads reg, reg.pathPoints, reg.actionPoints
  {
    (forall j :: 0 <= j < |s.actionPointIds| ==> reg.FindActionPointById(s.actionPointIds[j]) != null)
    && (reg.FindPathPointById(s.activePathPointId) != null || !IsValidGuid(s.activePathPointId))
  }

  /** Looks each saved id up in the registry, in order. */
  method LoadQueue(reg: Registry, ids: seq<Guid>) returns (loaded: seq<ActionPoint?>)
    ensures loaded == ResolveIds(reg, ids)
  {
    loaded := [];
    var i := 0;
    while i < |ids|
      invariant 0 <= i <= |ids| && |loaded| == i
      invariant forall j :: 0 <= j < i ==> loaded[j] == reg.FindActionPointById(ids[j])
    {
      var found := reg.FindActionPointById(ids[i]);
      loaded := loaded + [found];
      i := i + 1;
    }
  }

  /**
   * The parts of a component's state that loading a snapshot replaces or notifies about,
   * as they were before it: settings, pointers, this agent's spots at the active path
   * point, and the notification logs.
   */
  datatype Prior = Prior(
    runMode: RunMode, selector: ActionSelector?, pathPoint: PathPoint?, spots: seq<Spot>,
    actionPoint: ActionPoint?, runModeEvents: seq<Change<RunMode>>, selectorEvents: seq<ActionSelector?>,
    pathPointEvents: seq<Change<PathPoint?>>, actionPointEvents: seq<Change<ActionPoint?>>)

  /**
   * The registry lookups of loading a snapshot: its active path point by id and one action
   * point per saved id. When the registry knows the ids, the points found carry those ids.
   */
  method LookUpSnapshot(s: Snapshot, reg: Registry) returns (pathPoint: PathPoint?, loaded: seq<ActionPoint?>)
    ensures pathPoint == reg.FindPathPointById(s.activePathPointId)
    ensures loaded == ResolveIds(reg, s.actionPointIds)
    ensures Restorable(reg, s) ==> PathPointId(pathPoint) == s.activePathPointId && QueueIds(loaded) == s.actionPointIds
  {
    if Restorable(reg, s) {
      LoadedQueueSavesSameIds(reg, s.actionPointIds);
    }
    pathPoint := reg.FindPathPointById(s.activePathPointId);
    loaded := LoadQueue(reg, s.actionPointIds);
  }

  /** Recreates a saved selector: a new object of the saved class with the saved properties. */
  method RecreateSelector(saved: Option<SavedSelector>) returns (selector: ActionSelector?)
    ensures saved.None? ==> selector == null
    ensures saved.Some? ==>
      selector != null && fresh(selector) && selector.kind == saved.value.kind && selector.data == saved.value.data
  {
    selector := null;
    if saved.Some? {
      selector := new ActionSelector(saved.value.kind, saved.value.data);
    }
  }

  class DASComponent {
    /** The agent actor that owns the component; it claims path point spots as the querier. */
    const owner: ActorId

    var initialized: bool
    var runMode: RunMode
    var pathBehavior: PathBehavior
    /** The path point to start from, applied by `Init`. */
    var initialPathPoint: PathPoint?
    var actionSelector: ActionSelector?
    var activePathPoint: PathPoint?
    var movingForward: bool
    /** Returning to the active path point after running its action points. */
    var returning: bool
    /** Set on every path point change, cleared by the agent's logic when it arrives. */
    var hasNewPathPoint: bool
    var activeActionPoint: ActionPoint?
    /** The action points still to run; index 0 is always the next one. */
    var queue: seq<ActionPoint?>
    /** The goal last computed by `RequestPathPointSpot`. */
    var currentGoal: Goal

    /** `ReceiveInit` and `OnInitialized`: the flag's value at each notification. */
    ghost var initEvents: seq<bool>
    ghost var runModeEvents: seq<Change<RunMode>>
    /** `ActionSelectorChanged`: the new selector at each change. */
    ghost var selectorEvents: seq<ActionSelector?>
    ghost var pathBehaviorEvents: seq<Change<PathBehavior>>
    ghost var pathPointEvents: seq<Change<PathPoint?>>
    ghost var actionPointEvents: seq<Change<ActionPoint?>>

    constructor (owner: ActorId)
      ensures this.owner == owner && !initialized && runMode == ExecutePathPoints
      ensures pathBehavior == PathBehavior.Undefined && initialPathPoint == null && actionSelector == null
      ensures activePathPoint == null && movingForward && !returning && !hasNewPathPoint
      ensures activeActionPoint == null && queue == [] && currentGoal == NoGoal
      ensures initEvents == [] && runModeEvents == [] && selectorEvents == []
      ensures pathBehaviorEvents == [] && pathPointEvents == [] && actionPointEvents == []
    {
      this.owner := owner;
      initialized := false;
      runMode := ExecutePathPoints;
      pathBehavior := PathBehavior.Undefined;
      initialPathPoint := null;
      actionSelector := null;
      activePathPoint := null;
      movingForward := true;
      returning := false;
      hasNewPathPoint := false;
      activeActionPoint := null;
      queue := [];
      currentGoal := NoGoal;
      initEvents := [];
      runModeEvents := [];
      selectorEvents := [];
      pathBehaviorEvents := [];
      pathPointEvents := [];
      actionPointEvents := [];
    }

    ghost function ActivePathSet(): set<PathPoint>
      reads this
    {
      if activePathPoint != null then {activePathPoint} else {}
    }

    /**
     * The change `SetPathPoint(p)` makes when the active path point was `prev`. Nothing at all
     * when `p` is `prev`. Otherwise: the agent's spot at `prev` is released, `p` becomes
     * active, the returning flag is cleared and the new-point flag set, the change is
     * broadcast, and only in `ExecutePathPoints` mode the queue and the active action point
     * are dropped.
     */
    twostate predicate SwitchedPathPoint(prev: PathPoint?, p: PathPoint?)
      reads this, prev
    {
      activePathPoint == p
      && if prev == p then
        returning == old(returning) && hasNewPathPoint == old(hasNewPathPoint)
        && queue == old(queue) && activeActionPoint == old(activeActionPoint)
        && pathPointEvents == old(pathPointEvents) && actionPointEvents == old(actionPointEvents)
        && (prev != null ==> prev.spots == old(prev.spots))
      else
        !returning && hasNewPathPoint
        && (prev != null ==> prev.spots == Released(old(prev.spots), Some(owner)))
        && pathPointEvents == old(pathPointEvents) + [Change(prev, p)]
        && if runMode == ExecutePathPoints then
          queue == [] && activeActionPoint == null
          && actionPointEvents == old(actionPointEvents) + ChangeLog(old(activeActionPoint), null)
        else
          queue == old(queue) && activeActionPoint == old(activeActionPoint)
          && actionPointEvents == old(actionPointEvents)
    }

    /** `OnRep_IsInitialized` runs on every change of the flag, to true or to false. */
    method SetIsInitialized(value: bool)
      modifies this`initialized, this`initEvents
      ensures initialized == value
      ensures initEvents == old(initEvents) + (if old(initialized) != value then [value] else [])
    {
      if initialized != value {
        initialized := value;
        initEvents := initEvents + [value];
      }
    }

    method SetActionPoint(p: ActionPoint?)
      modifies this`activeActionPoint, this`actionPointEvents
      ensures activeActionPoint == p
      ensures actionPointEvents == old(actionPointEvents) + ChangeLog(old(activeActionPoint), p)
    {
      if activeActionPoint != p {
        var previous := activeActionPoint;
        activeActionPoint := p;
        actionPointEvents := actionPointEvents + [Change(previous, p)];
      }
    }

    method SetActionPointsQueue(q: seq<ActionPoint?>)
      modifies this`queue
      ensures queue == q
    {
      queue := q;
    }

    method ClearActionPointsQueue()
      modifies this`queue
      ensures queue == []
    {
      queue := [];
    }

    /** `TArray::Remove`: every occurrence goes, the rest keep their order. */
    method RemoveActionPointFromQueue(p: ActionPoint?)
      modifies this`queue
      ensures queue == RemoveAll(old(queue), p)
      ensures p !in queue && IsSubsequence(queue, old(queue))
    {
      RemoveAllSpec(queue, p);
      queue := RemoveAll(queue, p);
    }

    method SetIsReturningToPathPoint(value: bool)
      modifies this`returning
      ensures returning == value
    {
      returning := value;
    }

    method SetIsMovingForwardAlongPath(value: bool)
      modifies this`movingForward
      ensures movingForward == value
    {
      movingForward := value;
    }

    method SetHasNewPathPoint(value: bool)
      modifies this`hasNewPathPoint
      ensures hasNewPathPoint == value
    {
      hasNewPathPoint := value;
    }

    method SetPathBehavior(b: PathBehavior)
      modifies this`pathBehavior, this`pathBehaviorEvents
      ensures pathBehavior == b
      ensures pathBehaviorEvents == old(pathBehaviorEvents) + ChangeLog(old(pathBehavior), b)
    {
      if pathBehavior != b {
        var previous := pathBehavior;
        pathBehavior := b;
        pathBehaviorEvents := pathBehaviorEvents + [Change(previous, b)];
      }
    }

    /**
     * A real change of mode away from a defined mode drops the queue and the active action
     * point before the change is broadcast.
     */
    method SetRunMode(m: RunMode)
      modifies this`runMode, this`queue, this`activeActionPoint, this`actionPointEvents, this`runModeEvents
      ensures runMode == m
      ensures runModeEvents == old(runModeEvents) + ChangeLog(old(runMode), m)
      ensures old(runMode) != m && ClearsActions(old(runMode)) ==>
        queue == [] && activeActionPoint == null
        && actionPointEvents == old(actionPointEvents) + ChangeLog(old(activeActionPoint), null)
      ensures !(old(runMode) != m && ClearsActions(old(runMode))) ==>
        queue == old(queue) && activeActionPoint == old(activeActionPoint) && actionPointEvents == old(actionPointEvents)
    {
      if runMode != m {
        var previous := runMode;
        runMode := m;
        if previous == ExecuteActionsFromSelector || previous == ExecutePathPoints {
          ClearActionPointsQueue();
          SetActionPoint(null);
        }
        runModeEvents := runModeEvents + [Change(previous, m)];
      }
    }

    /** A real change of selector drops the queued and active action points only while running actions from it. */
    method SetActionSelector(s: ActionSelector?)
      modifies this`actionSelector, this`queue, this`activeActionPoint, this`actionPointEvents, this`selectorEvents
      ensures actionSelector == s
      ensures selectorEvents == old(selectorEvents) + (if old(actionSelector) != s then [s] else [])
      ensures old(actionSelector) != s && runMode == ExecuteActionsFromSelector ==>
        queue == [] && activeActionPoint == null
        && actionPointEvents == old(actionPointEvents) + ChangeLog(old(activeActionPoint), null)
      ensures !(old(actionSelector) != s && runMode == ExecuteActionsFromSelector) ==>
        queue == old(queue) && activeActionPoint == old(activeActionPoint) && actionPointEvents == old(actionPointEvents)
    {
      if actionSelector != s {
        actionSelector := s;
        if runMode == ExecuteActionsFromSelector {
          ClearActionPointsQueue();
          SetActionPoint(null);
        }
        selectorEvents := selectorEvents + [s];
      }
    }

    /** Frees the spot this agent holds at the active path point, if there is one. */
    method ReleasePathPointSpot()
      modifies ActivePathSet()`spots
      ensures activePathPoint != null ==> activePathPoint.spots == Released(old(activePathPoint.spots), Some(owner))
    {
      if activePathPoint != null {
        activePathPoint.ReleaseSpot(Some(owner));
      }
    }

    /**
     * Asks the active path point where to go, claiming a spot there for this agent, and keeps
     * the answer as the current goal. Without an active path point nothing happens.
     */
    method RequestPathPointSpot(live: set<ActorId>, dist: Transform -> nat) returns (ok: bool)
      modifies this`currentGoal, ActivePathSet()`spots
      ensures ok <==> activePathPoint != null
      ensures !ok ==> currentGoal == old(currentGoal)
      ensures ok && old(activePathPoint.spots) == [] ==> currentGoal == PointPose && activePathPoint.spots == []
      ensures ok && old(activePathPoint.spots) != [] ==>
        var c := Request(old(activePathPoint.spots), Some(owner), live, dist);
        activePathPoint.spots == c.spots && currentGoal == SpotPose(c.out.value.transform)
    {
      if activePathPoint != null {
        currentGoal := activePathPoint.GetPointLocationAndRotation(Some(owner), live, dist);
        ok := true;
      } else {
        ok := false;
      }
    }

    method SetPathPoint(p: PathPoint?)
      modifies this`activePathPoint, this`queue, this`activeActionPoint, this`returning, this`hasNewPathPoint
      modifies this`pathPointEvents, this`actionPointEvents, ActivePathSet()`spots
      ensures SwitchedPathPoint(old(activePathPoint), p)
    {
      if p != activePathPoint {
        ReleasePathPointSpot();
        var previous := activePathPoint;
        activePathPoint := p;
        if runMode == ExecutePathPoints {
          ClearActionPointsQueue();
          SetActionPoint(null);
        }
        returning := false;
        hasNewPathPoint := true;
        pathPointEvents := pathPointEvents + [Change(previous, p)];
      }
    }

    /** Once initialized the point is applied at once; before that it waits for `Init`. */
    method SetInitialPathPoint(p: PathPoint?)
      modifies this`initialPathPoint, this`activePathPoint, this`queue, this`activeActionPoint, this`returning
      modifies this`hasNewPathPoint, this`pathPointEvents, this`actionPointEvents, ActivePathSet()`spots
      ensures initialized ==> initialPathPoint == old(initialPathPoint) && SwitchedPathPoint(old(activePathPoint), p)
      ensures !initialized ==> initialPathPoint == p && SwitchedPathPoint(old(activePathPoint), old(activePathPoint))
    {
      if initialized {
        SetPathPoint(p);
      } else {
        initialPathPoint := p;
      }
    }

    /**
     * Fails, changing nothing, when already initialized or when any outside check fails.
     * Otherwise applies a set initial path point and becomes initialized.
     */
    method Init(env: InitEnvironment) returns (ok: bool)
      modifies this, ActivePathSet()`spots
      ensures ok <==> !old(initialized) && CanInit(env)
      ensures !ok ==> unchanged(this) && (old(activePathPoint) != null ==> old(activePathPoint).spots == old(activePathPoint.spots))
      ensures ok ==> initialized && initEvents == old(initEvents) + [true]
      ensures ok ==>
        && runMode == old(runMode) && actionSelector == old(actionSelector) && pathBehavior == old(pathBehavior)
        && initialPathPoint == old(initialPathPoint) && currentGoal == old(currentGoal) && movingForward == old(movingForward)
        && runModeEvents == old(runModeEvents) && selectorEvents == old(selectorEvents) && pathBehaviorEvents == old(pathBehaviorEvents)
      ensures ok && old(initialPathPoint) != null ==> SwitchedPathPoint(old(activePathPoint), old(initialPathPoint))
      ensures ok && old(initialPathPoint) == null ==> SwitchedPathPoint(old(activePathPoint), old(activePathPoint))
    {
      if initialized {
        return false;
      }
      if !CanInit(env) {
        return false;
      }
      if initialPathPoint != null {
        SetPathPoint(initialPathPoint);
      }
      SetIsInitialized(true);
      ok := true;
    }

    /**
     * Moves to the next point in the current direction; at a dead end, to the next point
     * the other way, and then turns around. Without an active point, or with neither way
     * open, nothing changes.
     */
    method UpdatePathPoint(nextChoice: LinkChoice, previousChoice: LinkChoice, canRun: PathPoint -> bool)
      returns (found: bool)
      modifies this`activePathPoint, this`queue, this`activeActionPoint, this`returning, this`hasNewPathPoint
      modifies this`movingForward, this`pathPointEvents, this`actionPointEvents, ActivePathSet()`spots
      ensures old(activePathPoint) == null ==> !found && unchanged(this)
      ensures old(activePathPoint) != null ==>
        var ahead := old(LinkToward(activePathPoint, movingForward, nextChoice, previousChoice, canRun));
        var behind := old(LinkToward(activePathPoint, !movingForward, nextChoice, previousChoice, canRun));
        && (ahead != null ==> found && movingForward == old(movingForward) && SwitchedPathPoint(old(activePathPoint), ahead))
        && (ahead == null && behind != null ==>
              found && movingForward == !old(movingForward) && SwitchedPathPoint(old(activePathPoint), behind))
        && (ahead == null && behind == null ==>
              !found && unchanged(this) && old(activePathPoint).spots == old(activePathPoint.spots))
    {
      found := false;
      if activePathPoint != null {
        var newPathPoint: PathPoint?;
        if movingForward {
          newPathPoint := activePathPoint.GetNextPathPoint(nextChoice, canRun);
        } else {
          newPathPoint := activePathPoint.GetPreviousPathPoint(previousChoice, canRun);
        }
        if newPathPoint != null {
          SetPathPoint(newPathPoint);
          return true;
        }
        if !movingForward {
          newPathPoint := activePathPoint.GetNextPathPoint(nextChoice, canRun);
        } else {
          newPathPoint := activePathPoint.GetPreviousPathPoint(previousChoice, canRun);
        }
        if newPathPoint != null {
          SetIsMovingForwardAlongPath(!movingForward);
          SetPathPoint(newPathPoint);
          return true;
        }
      }
    }

    /**
     * When the active path point runs actions in the current direction, the queue becomes
     * what its selector picks (`selected`) and the answer is whether it picked any.
     * Otherwise the queue is emptied and the answer is false.
     */
    method FetchPathActionPoints(selected: seq<ActionPoint?>) returns (hadAny: bool)
      modifies this`queue
      ensures RunsPathActions(activePathPoint, movingForward) ==> queue == selected && (hadAny <==> |selected| > 0)
      ensures !RunsPathActions(activePathPoint, movingForward) ==> queue == [] && !hadAny
    {
      if activePathPoint != null && activePathPoint.actionSelector != null {
        var m := activePathPoint.executeMethod;
        if m == BothWays || (m == Forward && movingForward) || (m == Backward && !movingForward) {
          SetActionPointsQueue(selected);
          return |selected| > 0;
        }
      }
      ClearActionPointsQueue();
      hadAny := false;
    }

    /**
     * Drops queue entries from the head until one can start now, and makes that one the
     * active action point (null when the queue runs out). The chosen point stays at index 0.
     */
    method SetFirstActionPointFromQueue(canRun: ActionPoint -> bool) returns (selected: ActionPoint?)
      modifies this`queue, this`activeActionPoint, this`actionPointEvents
      ensures var n := old(Unavailable(queue, canRun));
        queue == old(queue)[n..] && selected == (if n < |old(queue)| then old(queue)[n] else null)
      ensures selected != null ==> Available(selected, canRun) && queue[0] == selected
      ensures selected == null ==> queue == []
      ensures activeActionPoint == selected
      ensures actionPointEvents == old(actionPointEvents) + ChangeLog(old(activeActionPoint), selected)
    {
      ghost var original := queue;
      ghost var n := Unavailable(queue, canRun);
      ghost var dropped := 0;
      selected := null;
      while selected == null && |queue| > 0
        invariant dropped <= n && queue == original[dropped..]
        invariant selected != null ==> dropped == n && n < |original| && selected == original[n]
        invariant activeActionPoint == old(activeActionPoint) && actionPointEvents == old(actionPointEvents)
        decreases |queue|, if selected == null then 1 else 0
      {
        var checked := queue[0];
        if checked != null && canRun(checked) && !checked.taken {
          selected := checked;
        } else {
          queue := queue[1..];
          dropped := dropped + 1;
        }
      }
      SetActionPoint(selected);
    }

    /** The snapshot of the current state, with the owner at `ownerPose`. */
    function SnapshotOf(ownerPose: Transform): Snapshot
      reads this, queue, activePathPoint, actionSelector
    {
      Snapshot(
        PathPointId(activePathPoint), QueueIds(queue), movingForward, returning, hasNewPathPoint,
        runMode, ownerPose,
        if actionSelector != null then Some(SavedSelector(actionSelector.kind, actionSelector.data)) else None)
    }

    /** Saves the state, skipping null queue entries. */
    method GetSnapshot(ownerPose: Transform) returns (s: Snapshot)
      ensures s == SnapshotOf(ownerPose)
    {
      var ids: seq<Guid> := [];
      var i := 0;
      while i < |queue|
        invariant 0 <= i <= |queue|
        invariant ids + QueueIds(queue[i..]) == QueueIds(queue)
      {
        assert queue[i..][1..] == queue[i + 1..];
        if queue[i] != null {
          ids := ids + [queue[i].pointId];
        }
        i := i + 1;
      }
      assert queue[i..] == [];
      var pathId := 0;
      if activePathPoint != null {
        pathId := activePathPoint.pointId;
      }
      var selector := None;
      if actionSelector != null {
        selector := Some(SavedSelector(actionSelector.kind, actionSelector.data));
      }
      s := Snapshot(pathId, ids, movingForward, returning, hasNewPathPoint, runMode, ownerPose, selector);
    }

    /** What `Prior` records of the current state. */
    ghost function PriorState(): Prior
      reads this, activePathPoint
    {
      Prior(runMode, actionSelector, activePathPoint, if activePathPoint != null then activePathPoint.spots else [],
        activeActionPoint, runModeEvents, selectorEvents, pathPointEvents, actionPointEvents)
    }

    /**
     * The state after loading a snapshot into a component that was in state `before`, once
     * the selector is recreated and the points are looked up: the run mode, the selector, the
     * path point (this agent's spot at the previous one released on a change), no action point
     * and no initial point, the queue and the three flags, each change notified as its setter
     * does.
     */
    ghost predicate SnapshotApplied(s: Snapshot, before: Prior, selector: ActionSelector?, pathPoint: PathPoint?,
                                    loaded: seq<ActionPoint?>)
      reads this, before.pathPoint
    {
      && runMode == s.runMode && actionSelector == selector
      && activePathPoint == pathPoint && activeActionPoint == null && initialPathPoint == null && queue == loaded
      && movingForward == s.wasMovingForward && returning == s.wasReturning && hasNewPathPoint == s.hasNewPathPoint
      && runModeEvents == before.runModeEvents + ChangeLog(before.runMode, s.runMode)
      && selectorEvents == before.selectorEvents + (if before.selector != selector then [selector] else [])
      && pathPointEvents == before.pathPointEvents + ChangeLog(before.pathPoint, pathPoint)
      && actionPointEvents == before.actionPointEvents + ChangeLog(before.actionPoint, null)
      && (before.pathPoint != null && before.pathPoint != pathPoint ==>
            before.pathPoint.spots == Released(before.spots, Some(owner)))
    }

    /**
     * The first steps of loading a snapshot: the run mode, the selector, the path point and
     * no action point. The queue and the flags these setters touch are overwritten by the
     * steps that follow.
     */
    method LoadPointers(m: RunMode, selector: ActionSelector?, pathPoint: PathPoint?)
      modifies this`runMode, this`actionSelector, this`activePathPoint, this`activeActionPoint, this`queue
      modifies this`returning, this`hasNewPathPoint
      modifies this`runModeEvents, this`selectorEvents, this`pathPointEvents, this`actionPointEvents
      modifies ActivePathSet()`spots
      ensures runMode == m && actionSelector == selector && activePathPoint == pathPoint && activeActionPoint == null
      ensures runModeEvents == old(runModeEvents) + ChangeLog(old(runMode), m)
      ensures selectorEvents == old(selectorEvents) + (if old(actionSelector) != selector then [selector] else [])
      ensures pathPointEvents == old(pathPointEvents) + ChangeLog(old(activePathPoint), pathPoint)
      ensures actionPointEvents == old(actionPointEvents) + ChangeLog(old(activeActionPoint), null)
      ensures old(activePathPoint) != null && old(activePathPoint) != pathPoint ==>
        old(activePathPoint).spots == Released(old(activePathPoint.spots), Some(owner))
    {
      SetRunMode(m);
      SetActionSelector(selector);
      SetPathPoint(pathPoint);
      SetActionPoint(null);
    }

    /** The last steps of loading a snapshot: no initial point, the queue, and the three flags. */
    method LoadQueueAndFlags(s: Snapshot, loaded: seq<ActionPoint?>)
      modifies this`initialPathPoint, this`queue, this`movingForward, this`returning, this`hasNewPathPoint
      ensures initialPathPoint == null && queue == loaded
      ensures movingForward == s.wasMovingForward && returning == s.wasReturning && hasNewPathPoint == s.hasNewPathPoint
    {
      initialPathPoint := null;
      SetActionPointsQueue(loaded);
      SetIsMovingForwardAlongPath(s.wasMovingForward);
      SetIsReturningToPathPoint(s.wasReturning);
      SetHasNewPathPoint(s.hasNewPathPoint);
    }

    /** Loads a snapshot's settings into the component, once its points are looked up. */
    method ApplySnapshot(s: Snapshot, pathPoint: PathPoint?, loaded: seq<ActionPoint?>)
      modifies this`runMode, this`actionSelector, this`activePathPoint, this`activeActionPoint, this`queue
      modifies this`initialPathPoint, this`movingForward, this`returning, this`hasNewPathPoint
      modifies this`runModeEvents, this`selectorEvents, this`pathPointEvents, this`actionPointEvents
      modifies ActivePathSet()`spots
      ensures s.selector.None? ==> actionSelector == null
      ensures s.selector.Some? ==>
        && actionSelector != null && fresh(actionSelector)
        && actionSelector.kind == s.selector.value.kind && actionSelector.data == s.selector.value.data
      ensures SnapshotApplied(s, old(PriorState()), actionSelector, pathPoint, loaded)
      ensures PathPointId(activePathPoint) == old(PathPointId(pathPoint)) && QueueIds(queue) == old(QueueIds(loaded))
    {
      var selector := RecreateSelector(s.selector);
      LoadPointers(s.runMode, selector, pathPoint);
      LoadQueueAndFlags(s, loaded);
      QueueIdsUnchanged(loaded);
    }

    /**
     * Restores a snapshot through the registry: run mode, a recreated selector, the active
     * path point by id, the queue with one looked-up entry per id (null when unknown), and
     * the three flags last. A snapshot whose ids the registry knows is saved again exactly as
     * it was.
     */
    method LoadFromRegistry(s: Snapshot, reg: Registry)
      modifies this`runMode, this`actionSelector, this`activePathPoint, this`activeActionPoint, this`queue
      modifies this`initialPathPoint, this`movingForward, this`returning, this`hasNewPathPoint
      modifies this`runModeEvents, this`selectorEvents, this`pathPointEvents, this`actionPointEvents
      modifies ActivePathSet()`spots
      ensures s.selector.None? ==> actionSelector == null
      ensures s.selector.Some? ==>
        && actionSelector != null && fresh(actionSelector)
        && actionSelector.kind == s.selector.value.kind && actionSelector.data == s.selector.value.data
      ensures SnapshotApplied(s, old(PriorState()), actionSelector,
        old(reg.FindPathPointById(s.activePathPointId)), old(ResolveIds(reg, s.actionPointIds)))
      ensures old(Restorable(reg, s)) ==> SnapshotOf(s.ownerPose) == s
    {
      var pathPoint, loaded := LookUpSnapshot(s, reg);
      ApplySnapshot(s, pathPoint, loaded);
    }

    /**
     * Restores a snapshot when the world and its subsystem are there (`reg` is the
     * subsystem's registry; without one nothing happens). The answer is where the owner is
     * moved, if it is.
     */
    method LoadFromSnapshot(s: Snapshot, reg: Registry?, loadOwnerTransform: bool)
      returns (moveOwnerTo: Option<Transform>)
      modifies this`runMode, this`actionSelector, this`activePathPoint, this`activeActionPoint, this`queue
      modifies this`initialPathPoint, this`movingForward, this`returning, this`hasNewPathPoint
      modifies this`runModeEvents, this`selectorEvents, this`pathPointEvents, this`actionPointEvents
      modifies ActivePathSet()`spots
      ensures reg == null ==> moveOwnerTo == None && unchanged(this)
      ensures reg != null ==> moveOwnerTo == (if loadOwnerTransform then Some(s.ownerPose) else None)
      ensures reg != null && s.selector.None? ==> actionSelector == null
      ensures reg != null && s.selector.Some? ==>
        && actionSelector != null && fresh(actionSelector)
        && actionSelector.kind == s.selector.value.kind && actionSelector.data == s.selector.value.data
      ensures reg != null ==> SnapshotApplied(s, old(PriorState()), actionSelector,
        old(reg.FindPathPointById(s.activePathPointId)), old(ResolveIds(reg, s.actionPointIds)))
      ensures reg != null && old(Restorable(reg, s)) ==> SnapshotOf(s.ownerPose) == s
    {
      moveOwnerTo := None;
      if reg != null {
        LoadFromRegistry(s, reg);
        if loadOwnerTransform {
          moveOwnerTo := Some(s.ownerPose);
        }
      }
    }

    /**
     * The first half of a reset: not initialized, an empty queue, no action point and no
     * path point (this agent's spot there released).
     */
    method ResetPointers()
      modifies this`initialized, this`initEvents, this`queue, this`activeActionPoint, this`actionPointEvents
      modifies this`activePathPoint, this`returning, this`hasNewPathPoint, this`pathPointEvents
      modifies ActivePathSet()`spots
      ensures !initialized && queue == [] && activeActionPoint == null && activePathPoint == null
      ensures initEvents == old(initEvents) + (if old(initialized) then [false] else [])
      ensures actionPointEvents == old(actionPointEvents) + ChangeLog(old(activeActionPoint), null)
      ensures pathPointEvents == old(pathPointEvents) + ChangeLog(old(activePathPoint), null)
      ensures old(activePathPoint) != null ==>
        old(activePathPoint).spots == Released(old(activePathPoint.spots), Some(owner))
    {
      SetIsInitialized(false);
      ClearActionPointsQueue();
      SetActionPoint(null);
      SetPathPoint(null);
    }

    /**
     * The second half of a reset, with no action point left: the defaults' run mode and
     * direction, no goal, not returning, no new path point, undefined behavior, no selector
     * and no initial point.
     */
    method ResetSettings(d: ComponentDefaults)
      requires activeActionPoint == null && queue == []
      modifies this`runMode, this`queue, this`activeActionPoint, this`actionPointEvents, this`runModeEvents
      modifies this`currentGoal, this`returning, this`hasNewPathPoint, this`movingForward
      modifies this`pathBehavior, this`pathBehaviorEvents, this`actionSelector, this`initialPathPoint
      ensures queue == [] && activeActionPoint == null && actionPointEvents == old(actionPointEvents)
      ensures runMode == d.runMode && currentGoal == NoGoal && !returning && !hasNewPathPoint
      ensures movingForward == d.movingForward && pathBehavior == PathBehavior.Undefined
      ensures actionSelector == null && initialPathPoint == null
      ensures runModeEvents == old(runModeEvents) + ChangeLog(old(runMode), d.runMode)
      ensures pathBehaviorEvents == old(pathBehaviorEvents) + ChangeLog(old(pathBehavior), PathBehavior.Undefined)
    {
      SetRunMode(d.runMode);
      currentGoal := NoGoal;
      SetIsReturningToPathPoint(false);
      SetHasNewPathPoint(false);
      SetIsMovingForwardAlongPath(d.movingForward);
      SetPathBehavior(PathBehavior.Undefined);
      actionSelector := null;
      initialPathPoint := null;
    }

    /**
     * With the class-default component found, returns the component to its defaults: not
     * initialized, no points, an empty queue, no goal, the defaults' run mode and direction,
     * undefined behavior, no selector and no initial point. Without it nothing happens.
     */
    method Reset(defaults: Option<ComponentDefaults>)
      modifies this, ActivePathSet()`spots
      ensures defaults.None? ==> unchanged(this)
      ensures defaults.Some? ==>
        && !initialized && queue == [] && activeActionPoint == null && activePathPoint == null
        && runMode == defaults.value.runMode && currentGoal == NoGoal && !returning && !hasNewPathPoint
        && movingForward == defaults.value.movingForward && pathBehavior == PathBehavior.Undefined
        && actionSelector == null && initialPathPoint == null
      ensures defaults.Some? ==>
        && initEvents == old(initEvents) + (if old(initialized) then [false] else [])
        && actionPointEvents == old(actionPointEvents) + ChangeLog(old(activeActionPoint), null)
        && pathPointEvents == old(pathPointEvents) + ChangeLog(old(activePathPoint), null)
        && runModeEvents == old(runModeEvents) + ChangeLog(old(runMode), defaults.value.runMode)
        && pathBehaviorEvents == old(pathBehaviorEvents) + ChangeLog(old(pathBehavior), PathBehavior.Undefined)
        && selectorEvents == old(selectorEvents)
      ensures defaults.Some? && old(activePathPoint) != null ==>
        old(activePathPoint).spots == Released(old(activePathPoint.spots), Some(owner))
    {
      if defaults.Some? {
        ResetPointers();
        ResetSettings(defaults.value);
      }
    }
  }
}
