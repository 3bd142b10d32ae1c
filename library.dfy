/**
 * `UDASBPLibrary`: the array helpers agents and selectors use to narrow and order candidate
 * points. Sorting is by the squared distance to a source location, which is an oracle here.
 */
module Library {
  import opened Types
  import opened Seqs
  import opened PathPoints
  import opened ActionPoints

  /** The non-null entries of `ps` that are not taken, in order. */
  function Untaken(ps: seq<ActionPoint?>): (r: seq<ActionPoint?>)
    reads ps
    ensures forall p :: p in r ==> p != null && !p.taken && p in ps
  {
    if ps == [] then []
    else
      var last := ps[|ps| - 1];
      Untaken(ps[..|ps| - 1]) + (if last != null && !last.taken then [last] else [])
  }

  /** Every untaken point of the input is kept, as often as it occurs there. */
  lemma {:induction false} UntakenComplete(ps: seq<ActionPoint?>, p: ActionPoint)
    requires !p.taken
    ensures multiset(Untaken(ps))[p] == multiset(ps)[p]
  {
    if ps != [] {
      UntakenComplete(ps[..|ps| - 1], p);
      assert ps == ps[..|ps| - 1] + [ps[|ps| - 1]];
    }
  }

  /**
   * `FilterOutTakenActionPoints`: appends the untaken points to `filtered`, which is not
   * cleared first, so what it held before stays in front.
   */
  method FilterOutTakenActionPoints(filtered: seq<ActionPoint?>, points: seq<ActionPoint?>) returns (out: seq<ActionPoint?>)
    ensures out == filtered + Untaken(points)
  {
    out := filtered;
    for i := 0 to |points|
      invariant out == filtered + Untaken(points[..i])
    {
      assert points[..i + 1][..i] == points[..i];
      if points[i] != null && !points[i].taken {
        out := out + [points[i]];
      }
    }
    assert points[..|points|] == points;
  }

  /** The sort order: ascending squared distance, or descending when `inverse`. */
  function ActionKey(dist: ActionPoint -> nat, inverse: bool): ActionPoint? -> int
  {
    p => if p == null then 0 else if inverse then -(dist(p) as int) else dist(p) as int
  }

  function PathKey(dist: PathPoint -> nat, inverse: bool): PathPoint? -> int
  {
    p => if p == null then 0 else if inverse then -(dist(p) as int) else dist(p) as int
  }

  lemma ActionKeyOrders(s: seq<ActionPoint?>, dist: ActionPoint -> nat, inverse: bool)
    requires SortedByKey(s, ActionKey(dist, inverse))
    ensures forall i, j :: 0 <= i < j < |s| && s[i] != null && s[j] != null ==>
      if inverse then dist(s[i]) >= dist(s[j]) else dist(s[i]) <= dist(s[j])
  {
    forall i, j | 0 <= i < j < |s| && s[i] != null && s[j] != null
      ensures if inverse then dist(s[i]) >= dist(s[j]) else dist(s[i]) <= dist(s[j])
    {
      assert ActionKey(dist, inverse)(s[i]) <= ActionKey(dist, inverse)(s[j]);
    }
  }

  lemma PathKeyOrders(s: seq<PathPoint?>, dist: PathPoint -> nat, inverse: bool)
    requires SortedByKey(s, PathKey(dist, inverse))
    ensures forall i, j :: 0 <= i < j < |s| && s[i] != null && s[j] != null ==>
      if inverse then dist(s[i]) >= dist(s[j]) else dist(s[i]) <= dist(s[j])
  {
    forall i, j | 0 <= i < j < |s| && s[i] != null && s[j] != null
      ensures if inverse then dist(s[i]) >= dist(s[j]) else dist(s[i]) <= dist(s[j])
    {
      assert PathKey(dist, inverse)(s[i]) <= PathKey(dist, inverse)(s[j]);
    }
  }

  function NonNullActionPoint(p: ActionPoint?): bool { p != null }

  /**
   * `SortActionPointsByDistance`: a copy of the input without its invalid entries, sorted by
   * distance. The input is a value and so is left as it was. Points at equal distance may
   * come in any order: the plugin's sort is not stable, and the contract does not fix one.
   */
  method SortActionPointsByDistance(arrayToSort: seq<ActionPoint?>, dist: ActionPoint -> nat, inverse: bool)
    returns (sorted: seq<ActionPoint?>)
    ensures multiset(sorted) == multiset(Filter(arrayToSort, NonNullActionPoint))
    ensures forall p :: p in sorted ==> p != null
    ensures forall i, j :: 0 <= i < j < |sorted| && sorted[i] != null && sorted[j] != null ==>
      if inverse then dist(sorted[i]) >= dist(sorted[j]) else dist(sorted[i]) <= dist(sorted[j])
  {
    var valid := RemoveRejected(arrayToSort, NonNullActionPoint);
    sorted := SortByKey(valid, ActionKey(dist, inverse));
    SortByKeySpec(valid, ActionKey(dist, inverse));
    FilterSound(arrayToSort, NonNullActionPoint);
    SameElements(sorted, valid);
    ActionKeyOrders(sorted, dist, inverse);
  }

  /** `SortPathPointsByDistance`: the same for path points. */
  method SortPathPointsByDistance(arrayToSort: seq<PathPoint?>, dist: PathPoint -> nat, inverse: bool)
    returns (sorted: seq<PathPoint?>)
    ensures multiset(sorted) == multiset(Filter(arrayToSort, NonNull))
    ensures forall p :: p in sorted ==> p != null
    ensures forall i, j :: 0 <= i < j < |sorted| && sorted[i] != null && sorted[j] != null ==>
      if inverse then dist(sorted[i]) >= dist(sorted[j]) else dist(sorted[i]) <= dist(sorted[j])
  {
    var valid := RemoveRejected(arrayToSort, NonNull);
    sorted := SortByKey(valid, PathKey(dist, inverse));
    SortByKeySpec(valid, PathKey(dist, inverse));
    FilterSound(arrayToSort, NonNull);
    SameElements(sorted, valid);
    PathKeyOrders(sorted, dist, inverse);
  }

  /** The sorted copy holds every valid input point exactly as often as the input does. */
  lemma SortedKeepsValidPoints(arrayToSort: seq<ActionPoint?>, sorted: seq<ActionPoint?>, p: ActionPoint)
    requires multiset(sorted) == multiset(Filter(arrayToSort, NonNullActionPoint))
    ensures multiset(sorted)[p] == multiset(arrayToSort)[p]
    ensures null !in sorted
  {
    FilterMultiset(arrayToSort, NonNullActionPoint, p);
    FilterMultiset(arrayToSort, NonNullActionPoint, null);
    assert multiset(sorted)[null] == 0;
  }
}
