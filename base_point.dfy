/**
 * `ADASBasePoint`, the part shared by path points and action points: the rules that keep a
 * point's identifier stable, and the forwarding of `ValidateData` to the point's condition
 * query. Each point class holds its own copy of the base fields and calls these.
 */
module BasePoints {
  import opened Wrappers
  import opened Types
  import opened Conditions
  import opened ConditionQueries
  import Seqs

  /** `EDuplicateMode::Type`. */
  datatype DuplicateMode = Normal | WorldDuplicate | PIE

  /**
   * `PostActorCreated`: in an editor build, a placed or spawned point that is not a
   * template gets `freshId`, but only when it has no valid identifier yet. The rule is
   * compiled only into editor builds: elsewhere the identifier is left as it is.
   */
  function IdAfterActorCreated(id: Guid, withEditor: bool, isTemplate: bool, freshId: Guid): (r: Guid)
    requires IsValidGuid(freshId)
    ensures !withEditor || IsValidGuid(id) || isTemplate ==> r == id
    ensures withEditor && !isTemplate ==> IsValidGuid(r)
  {
    if withEditor && !isTemplate && !IsValidGuid(id) then freshId else id
  }

  /** A valid identifier is never replaced: running the rule again, with any new GUID, keeps it. */
  lemma ActorCreatedIdIsStable(id: Guid, withEditor: bool, isTemplate: bool, fresh1: Guid, fresh2: Guid)
    requires IsValidGuid(fresh1) && IsValidGuid(fresh2)
    ensures IdAfterActorCreated(IdAfterActorCreated(id, withEditor, isTemplate, fresh1), withEditor, isTemplate, fresh2)
            == IdAfterActorCreated(id, withEditor, isTemplate, fresh1)
  {
  }

  /**
   * `PostDuplicate`: in an editor build, a copy made in `Normal` mode (alt-drag, copy and
   * paste) that is not a template always gets `freshId`, so it never keeps the identifier
   * of its source. Outside editor builds the copy keeps the identifier.
   */
  function IdAfterDuplicate(mode: DuplicateMode, id: Guid, withEditor: bool, isTemplate: bool, freshId: Guid): (r: Guid)
    ensures withEditor && mode == Normal && !isTemplate ==> r == freshId
    ensures !withEditor || mode != Normal || isTemplate ==> r == id
  {
    if withEditor && mode == Normal && !isTemplate then freshId else id
  }

  /** In an editor build, a normal-mode copy whose new GUID differs from its source's ends with a different id. */
  lemma DuplicateGetsNewId(id: Guid, freshId: Guid, laterFresh: Guid)
    requires IsValidGuid(freshId) && IsValidGuid(laterFresh) && freshId != id
    ensures IdAfterActorCreated(IdAfterDuplicate(Normal, id, true, false, freshId), true, false, laterFresh) != id
  {
  }

  /**
   * Outside editor builds a point created without a valid identifier keeps the invalid one,
   * also when it is spawned at runtime.
   */
  lemma RuntimeSpawnKeepsInvalidId(id: Guid, freshId: Guid)
    requires IsValidGuid(freshId) && !IsValidGuid(id)
    ensures !IsValidGuid(IdAfterActorCreated(id, false, false, freshId))
  {
  }

  /** The base `ValidateData`: forwards to the condition query when the wrapper holds one. */
  method ValidateQuery(q: QueryWrapper)
    modifies WrappedConditions(q)`hooks
    ensures q.instance != null ==> forall k | 0 <= k < |q.instance.conditions| && q.instance.conditions[k].instance != null ::
      q.instance.conditions[k].instance.hooks
      == old(q.instance.conditions[k].instance.hooks)
         + Seqs.Repeat(Hook.ValidateData, Occurrences(q.instance.conditions, q.instance.conditions[k].instance))
  {
    if IsValid(q) {
      q.instance.ValidateData();
    }
  }

  /**
   * The query half of `BeginPlay`: the wrapper's query is initialized with the point as
   * owner and then validated. Each condition's hooks are those of the initialization, then
   * one `ValidateData` per entry that holds it.
   */
  method BeginPlayQuery(q: QueryWrapper, point: ActorId, outcome: Condition -> bool)
    modifies QueryOf(q), WrappedConditions(q)
    ensures q.instance != null ==> SetUp(q.instance, Some(point), outcome)
    ensures q.instance != null ==> forall c | c in q.instance.Instances() ::
      c.hooks == old(c.hooks) + InitHooks(old(q.instance.initialized), old(c.initialized))
                 + Seqs.Repeat(Hook.ValidateData, Occurrences(q.instance.conditions, c))
  {
    var _ := WrapperInitialize(q, Some(point), outcome);
    ValidateQuery(q);
  }
}
