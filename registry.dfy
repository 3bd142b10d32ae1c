/**
 * `UDASWorldSubsystem`: the per-world registry of path points and action points. Points
 * register themselves when their components are initialized and unregister when they
 * leave the world; agents look points up by identifier and find the closest point with
 * a given tag.
 *
 * A registered entry may be null; point validity (`IsValid`) is taken to be non-null.
 * Distances come from a `nat`-valued oracle.
 */
module Registries {
  import opened Wrappers
  import opened Types
  import opened Seqs
  import opened PathPoints
  import opened ActionPoints

  /** The index of the first entry equal to `Some(id)`, as `FindByPredicate` finds it. */
  function FirstWithId(ids: seq<Option<Guid>>, id: Guid): (r: Option<nat>)
    ensures r.Some? ==> r.value < |ids| && ids[r.value] == Some(id)
    ensures r.Some? ==> forall j :: 0 <= j < r.value ==> ids[j] != Some(id)
    ensures r.None? <==> forall j :: 0 <= j < |ids| ==> ids[j] != Some(id)
  {
    if ids == [] then None
    else if ids[0] == Some(id) then Some(0)
    else
      match FirstWithId(ids[1..], id)
      case None =>
        assert forall j :: 1 <= j < |ids| ==> ids[j] == ids[1..][j - 1];
        None
      case Some(k) =>
        assert forall j :: 1 <= j < k + 1 ==> ids[j] == ids[1..][j - 1];
        Some(k + 1)
  }

  /** Each entry's identifier, `None` for a null entry. */
  function PathIds(ps: seq<PathPoint?>): (ids: seq<Option<Guid>>)
    reads ps
    ensures |ids| == |ps| && forall j :: 0 <= j < |ps| ==> ids[j] == if ps[j] != null then Some(ps[j].pointId) else None
  {
    seq(|ps|, j reads ps requires 0 <= j < |ps| => if ps[j] != null then Some(ps[j].pointId) else None)
  }

  function ActionIds(ps: seq<ActionPoint?>): (ids: seq<Option<Guid>>)
    reads ps
    ensures |ids| == |ps| && forall j :: 0 <= j < |ps| ==> ids[j] == if ps[j] != null then Some(ps[j].pointId) else None
  {
    seq(|ps|, j reads ps requires 0 <= j < |ps| => if ps[j] != null then Some(ps[j].pointId) else None)
  }

  /** The distance of each valid entry whose tag matches a valid `tag`; `None` for the rest. */
  function PathCandidates(ps: seq<PathPoint?>, tag: Tag, dist: PathPoint -> nat): (ds: seq<Option<nat>>)
    reads ps
    ensures |ds| == |ps|
    ensures forall j :: 0 <= j < |ps| ==>
      ds[j] == if ps[j] != null && IsValidTag(tag) && MatchesTag(ps[j].tag, tag) then Some(dist(ps[j])) else None
  {
    seq(|ps|, j reads ps requires 0 <= j < |ps| =>
      if ps[j] != null && IsValidTag(tag) && MatchesTag(ps[j].tag, tag) then Some(dist(ps[j])) else None)
  }

  function ActionCandidates(ps: seq<ActionPoint?>, tag: Tag, dist: ActionPoint -> nat): (ds: seq<Option<nat>>)
    reads ps
    ensures |ds| == |ps|
    ensures forall j :: 0 <= j < |ps| ==>
      ds[j] == if ps[j] != null && IsValidTag(tag) && MatchesTag(ps[j].tag, tag) then Some(dist(ps[j])) else None
  {
    seq(|ps|, j reads ps requires 0 <= j < |ps| =>
      if ps[j] != null && IsValidTag(tag) && MatchesTag(ps[j].tag, tag) then Some(dist(ps[j])) else None)
  }

  /**
   * `FindClosestPathPoint`'s answer: a valid entry whose tag matches, at minimal distance,
   * the earliest such entry on a tie, and null when no entry matches. An invalid tag
   * matches nothing, so it always gives null.
   */
  function ClosestPathPoint(ps: seq<PathPoint?>, tag: Tag, dist: PathPoint -> nat): (r: PathPoint?)
    reads ps
    ensures r == null <==> forall j :: 0 <= j < |ps| ==> !(ps[j] != null && IsValidTag(tag) && MatchesTag(ps[j].tag, tag))
    ensures !IsValidTag(tag) ==> r == null
    ensures r != null ==>
      exists k :: 0 <= k < |ps| && ps[k] == r && MatchesTag(r.tag, tag)
        && (forall j :: 0 <= j < |ps| && ps[j] != null && MatchesTag(ps[j].tag, tag) ==> dist(r) <= dist(ps[j]))
        && (forall j :: 0 <= j < k && ps[j] != null && MatchesTag(ps[j].tag, tag) ==> dist(r) < dist(ps[j]))
  {
    var ds := PathCandidates(ps, tag, dist);
    match FirstMinimum(ds, |ds|)
    case None => null
    case Some(k) => ps[k]
  }

  function ClosestActionPoint(ps: seq<ActionPoint?>, tag: Tag, dist: ActionPoint -> nat): (r: ActionPoint?)
    reads ps
    ensures r == null <==> forall j :: 0 <= j < |ps| ==> !(ps[j] != null && IsValidTag(tag) && MatchesTag(ps[j].tag, tag))
    ensures !IsValidTag(tag) ==> r == null
    ensures r != null ==>
      exists k :: 0 <= k < |ps| && ps[k] == r && MatchesTag(r.tag, tag)
        && (forall j :: 0 <= j < |ps| && ps[j] != null && MatchesTag(ps[j].tag, tag) ==> dist(r) <= dist(ps[j]))
        && (forall j :: 0 <= j < k && ps[j] != null && MatchesTag(ps[j].tag, tag) ==> dist(r) < dist(ps[j]))
  {
    var ds := ActionCandidates(ps, tag, dist);
    match FirstMinimum(ds, |ds|)
    case None => null
    case Some(k) => ps[k]
  }

  class Registry {
    var pathPoints: seq<PathPoint?>
    var actionPoints: seq<ActionPoint?>

    constructor ()
      ensures pathPoints == [] && actionPoints == []
    {
      pathPoints := [];
      actionPoints := [];
    }

    method AddPathPoint(p: PathPoint?)
      modifies this`pathPoints
      ensures pathPoints == old(pathPoints) + [p]
    {
      pathPoints := pathPoints + [p];
    }

    method RemovePathPoint(p: PathPoint?)
      modifies this`pathPoints
      ensures pathPoints == RemoveAll(old(pathPoints), p)
    {
      pathPoints := RemoveAll(pathPoints, p);
    }

    method AddActionPoint(p: ActionPoint?)
      modifies this`actionPoints
      ensures actionPoints == old(actionPoints) + [p]
    {
      actionPoints := actionPoints + [p];
    }

    method RemoveActionPoint(p: ActionPoint?)
      modifies this`actionPoints
      ensures actionPoints == RemoveAll(old(actionPoints), p)
    {
      actionPoints := RemoveAll(actionPoints, p);
    }

    /** The first registered, non-null path point with identifier `id`; null when there is none. */
    function FindPathPointById(id: Guid): (r: PathPoint?)
      reads this, pathPoints
      ensures r == null <==> forall j :: 0 <= j < |pathPoints| ==> pathPoints[j] == null || pathPoints[j].pointId != id
      ensures r != null ==>
        exists k :: 0 <= k < |pathPoints| && pathPoints[k] == r && r.pointId == id
          && forall j :: 0 <= j < k ==> pathPoints[j] == null || pathPoints[j].pointId != id
    {
      match FirstWithId(PathIds(pathPoints), id)
      case None => null
      case Some(k) => pathPoints[k]
    }

    /** The first registered, non-null action point with identifier `id`; null when there is none. */
    function FindActionPointById(id: Guid): (r: ActionPoint?)
      reads this, actionPoints
      ensures r == null <==> forall j :: 0 <= j < |actionPoints| ==> actionPoints[j] == null || actionPoints[j].pointId != id
      ensures r != null ==>
        exists k :: 0 <= k < |actionPoints| && actionPoints[k] == r && r.pointId == id
          && forall j :: 0 <= j < k ==> actionPoints[j] == null || actionPoints[j].pointId != id
    {
      match FirstWithId(ActionIds(actionPoints), id)
      case None => null
      case Some(k) => actionPoints[k]
    }

    /** The running-minimum loop over the registered path points, skipping non-matching ones. */
    method FindClosestPathPoint(tag: Tag, dist: PathPoint -> nat) returns (r: PathPoint?)
      ensures r == ClosestPathPoint(pathPoints, tag, dist)
    {
      r := null;
      var best: Option<nat> := None;
      var closestDistance := 0;
      for i := 0 to |pathPoints|
        invariant best == FirstMinimum(PathCandidates(pathPoints, tag, dist), i)
        invariant r == (if best.Some? then pathPoints[best.value] else null)
        invariant best.Some? ==> closestDistance == dist(pathPoints[best.value])
      {
        var point := pathPoints[i];
        if point != null {
          if !IsValidTag(tag) || !MatchesTag(point.tag, tag) {
            continue;
          }
          var d := dist(point);
          if best.None? || d < closestDistance {
            closestDistance := d;
            r := point;
            best := Some(i);
          }
        }
      }
    }

    method FindClosestActionPoint(tag: Tag, dist: ActionPoint -> nat) returns (r: ActionPoint?)
      ensures r == ClosestActionPoint(actionPoints, tag, dist)
    {
      r := null;
      var best: Option<nat> := None;
      var closestDistance := 0;
      for i := 0 to |actionPoints|
        invariant best == FirstMinimum(ActionCandidates(actionPoints, tag, dist), i)
        invariant r == (if best.Some? then actionPoints[best.value] else null)
        invariant best.Some? ==> closestDistance == dist(actionPoints[best.value])
      {
        var point := actionPoints[i];
        if point != null {
          if !IsValidTag(tag) || !MatchesTag(point.tag, tag) {
            continue;
          }
          var d := dist(point);
          if best.None? || d < closestDistance {
            closestDistance := d;
            r := point;
            best := Some(i);
          }
        }
      }
    }
  }

  /** Removing a point unregisters every occurrence of it and keeps the other entries, in order. */
  lemma RemoveUnregistersEveryCopy(ps: seq<PathPoint?>, p: PathPoint?)
    ensures p !in RemoveAll(ps, p)
    ensures forall q :: q != p ==> multiset(RemoveAll(ps, p))[q] == multiset(ps)[q]
    ensures IsSubsequence(RemoveAll(ps, p), ps)
  {
    RemoveAllSpec(ps, p);
  }

  /** A newly added point is found by its identifier unless an earlier entry has the same one. */
  lemma AddedPointIsFound(ps: seq<PathPoint?>, p: PathPoint)
    requires forall j :: 0 <= j < |ps| ==> ps[j] == null || ps[j].pointId != p.pointId
    ensures FirstWithId(PathIds(ps + [p]), p.pointId) == Some(|ps|)
  {
    var ids := PathIds(ps + [p]);
    assert ids[|ps|] == Some(p.pointId);
  }
}
