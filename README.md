# Dynamic AI System: a verified model of its coordination layer

The Dynamic AI System is an Unreal Engine plugin that moves AI agents along patrol
paths and has them run actions at places in the level. This project models the
logical core of that plugin in Dafny and proves properties of the model:

- **Conditions and condition queries.** A condition is a user predicate whose last
  result is cached; it notifies listeners only when that result changes. A query chains
  conditions with AND/OR and evaluates them left to right with its own short-circuit
  rules. It caches the combined result and broadcasts it by the same transition rule,
  leaving aside the nested re-evaluations an inner broadcast triggers (see "Left out").
- **Spots on path points.** A path point hands out spots, one agent at a time. An agent
  that asks gets the closest free spot. If no spot is free it is sent to the first spot
  without claiming it.
- **Path traversal.** A path point picks the next or previous point through a solver,
  or picks at random among the linked points that can run.
- **Action points and actions.** These are small state machines guarded by an
  executing flag and, on action points, by network authority. They report Success or
  Failed to a completion delegate, and a successful finish starts a cooldown.
- **The world registry.** It registers points, looks them up by identifier, and finds
  the closest point that carries a gameplay tag.
- **The library helpers.** They filter out taken action points and sort points by
  distance.
- **The agent's component (`UDASComponent`).** It holds the run mode, the active path
  point and action point, the queue of action points still to run and the flags that
  steer walking. It saves all of this into a snapshot and restores it from one.

Modules, one per file:

| file | module |
|---|---|
| `types.dfy` | `Types` |
| `condition.dfy` | `Conditions` |
| `condition_query.dfy` | `ConditionQueries` |
| `base_point.dfy` | `BasePoints` |
| `path_point.dfy` | `PathPoints` |
| `action_selector.dfy` | `Selectors` |
| `action.dfy` | `Actions` |
| `action_point.dfy` | `ActionPoints` |
| `registry.dfy` | `Registries` |
| `library.dfy` | `Library` |
| `component.dfy` | `Components` |
| `seqs.dfy` | `Seqs` |
| `wrappers.dfy` | `Wrappers` |

**Classes and specification functions.** Objects whose fields the plugin updates in
place are classes: conditions, queries, points, actions, the registry and the component.
Their methods carry `modifies` clauses. Each delegate broadcast or blueprint event is
recorded in a ghost log on the object that raises it. The imperative loops are proved
against pure specification functions, and the properties are lemmas about those
functions:

- the query's evaluation loop against `Fold`;
- the spot search against `Request`;
- link selection against `SelectLink`;
- the registry's searches against `ClosestPathPoint` and `FindPathPointById`;
- the clean-up loops against `Filter`;
- the snapshot against `SnapshotOf`.

**Things outside the plugin become parameters:**

- the user predicate of each condition (`outcome`);
- whether a point can run, where the code asks another point (`canRun`);
- the solver's answer and the random draw (`LinkChoice`);
- squared distances (`nat`-valued functions);
- the set of live actors (`live`);
- the world clock (`Clock`);
- newly generated GUIDs (`freshId`);
- the engine checks in `Init` (`InitEnvironment`).

## Model

| member | source | states |
|---|---|---|
| Types.TakeSpot | Plugins/DynamicAISystem/Source/DynamicAISystem/Public/Utils/DASTypes.h:135 | A free spot gets the new owner; a taken spot is left exactly as it was; the transform never changes. |
| Types.FreeSpot | Plugins/DynamicAISystem/Source/DynamicAISystem/Public/Utils/DASTypes.h:136 | The owner is dropped unconditionally, so the spot is free whoever is live; the transform is kept. |
| Types.StaleOwnerIsFreeButHeld | Plugins/DynamicAISystem/Source/DynamicAISystem/Private/Utils/DASTypes.cpp:7-10 | An owner that is no longer a live actor makes the spot free, yet `operator==` still matches that actor. |
| Types.TakenSpotKeepsOwner | Plugins/DynamicAISystem/Source/DynamicAISystem/Public/Utils/DASTypes.h:132-135 | Taking a spot held by a live actor never changes its owner, whoever asks. |
| Conditions.ToCached | Plugins/DynamicAISystem/Source/DynamicAISystem/Public/Objects/DASCondition.h:158-162 | A bool is cached as True or False, never Undefined, and True exactly for true. |
| Conditions.TransitionIffCacheChanges | Plugins/DynamicAISystem/Source/DynamicAISystem/Private/Objects/DASCondition.cpp:50-56 | The broadcast guard holds exactly when the cache takes a value different from the one it had. |
| Conditions.ClearedCacheAlwaysTransitions | Plugins/DynamicAISystem/Source/DynamicAISystem/Private/Objects/DASCondition.cpp:50 | With the cache cleared to Undefined the next evaluation broadcasts, whatever its result. |
| Conditions.RepeatedOutcomeBroadcastsOnce | Plugins/DynamicAISystem/Source/DynamicAISystem/Private/Objects/DASCondition.cpp:38-59 | Any number of evaluations with the same outcome broadcast once at most, and not at all if the cache already holds it. |
| Conditions.Condition.constructor | Plugins/DynamicAISystem/Source/DynamicAISystem/Private/Objects/DASCondition.cpp:8-13 | A new condition is Undefined, not initialized, without owner and with no broadcasts. |
| Conditions.Condition.IsConditionFulfilled | Plugins/DynamicAISystem/Source/DynamicAISystem/Private/Objects/DASCondition.cpp:38-59 | Returns the predicate's outcome, caches it, and appends a broadcast exactly when the previous cache was Undefined or opposite. |
| Conditions.Condition.UpdateCondition | Plugins/DynamicAISystem/Source/DynamicAISystem/Public/Objects/DASCondition.h:81 | The same cache update and broadcast as an evaluation, with no result. |
| Conditions.Condition.Initialize | Plugins/DynamicAISystem/Source/DynamicAISystem/Private/Objects/DASCondition.cpp:62-71 | On a first call it runs ValidateData, records the owner, sets the flag and runs AddObservers once; a second call changes nothing. It never evaluates or touches the cache. |
| Conditions.Condition.Uninitialize | Plugins/DynamicAISystem/Source/DynamicAISystem/Private/Objects/DASCondition.cpp:73-81 | When initialized it clears the flag, resets the cache to Undefined and runs RemoveObservers; otherwise nothing changes. |
| Conditions.Condition.ValidateData | Plugins/DynamicAISystem/Source/DynamicAISystem/Public/Objects/DASCondition.h:124-126 | The hook runs once and changes nothing else. |
| ConditionQueries.AllHoldingIsFulfilled | Plugins/DynamicAISystem/Source/DynamicAISystem/Private/Objects/DASConditionQuery.cpp:117-148 | Whatever the operators, a chain whose conditions all hold is fulfilled. |
| ConditionQueries.AllFailingIsUnfulfilled | Plugins/DynamicAISystem/Source/DynamicAISystem/Private/Objects/DASConditionQuery.cpp:117-148 | Whatever the operators, a non-empty chain whose conditions all fail is not fulfilled. |
| ConditionQueries.BaseConditionsFulfilled | Plugins/DynamicAISystem/Source/DynamicAISystem/Public/Objects/DASCondition.h:135 | A chain whose conditions all keep the base class predicate, which always holds, is fulfilled. |
| Conditions.ReevaluationScenario | Plugins/DynamicAISystem/Source/DynamicAISystem/Private/Objects/DASCondition.cpp:50-56 | Evaluating twice with the same outcome broadcasts once; after Uninitialize the same outcome broadcasts again (events `[b, b]`). A worked example; `RepeatedOutcomeBroadcastsOnce` is the general fact. |
| ConditionQueries.NewWrapper | Plugins/DynamicAISystem/Source/DynamicAISystem/Public/Objects/DASCondition.h:31-36 | A new wrapper uses operator AND and is marked as the first condition. |
| ConditionQueries.FoldShape | Plugins/DynamicAISystem/Source/DynamicAISystem/Private/Objects/DASConditionQuery.cpp:117-148 | The evaluated indices are in range and strictly increasing. The first condition is always evaluated. The result is the last evaluated condition's outcome, or true for an empty chain. |
| ConditionQueries.FoldFromShape | Plugins/DynamicAISystem/Source/DynamicAISystem/Private/Objects/DASConditionQuery.cpp:123-145 | The same shape for the chain from any later position with any running result. |
| ConditionQueries.FirstOperatorIgnored | Plugins/DynamicAISystem/Source/DynamicAISystem/Private/Objects/DASConditionQuery.cpp:126-129 | Changing the first condition's operator changes neither the result nor which conditions are evaluated. |
| ConditionQueries.FoldFromIgnoresFirstOperator | Plugins/DynamicAISystem/Source/DynamicAISystem/Private/Objects/DASConditionQuery.cpp:126-129 | The rest of the chain never reads the operator at position 0. |
| ConditionQueries.AllOrMeansAny | Plugins/DynamicAISystem/Source/DynamicAISystem/Private/Objects/DASConditionQuery.cpp:138-144 | A chain joined only by OR holds iff some condition holds, and no condition after the first true one is evaluated. |
| ConditionQueries.AllOrFrom | Plugins/DynamicAISystem/Source/DynamicAISystem/Private/Objects/DASConditionQuery.cpp:138-144 | The OR-only case from any position and running result. |
| ConditionQueries.AllAndMeansEvery | Plugins/DynamicAISystem/Source/DynamicAISystem/Private/Objects/DASConditionQuery.cpp:132-144 | A chain joined only by AND holds iff every condition holds, and no condition after the first false one is evaluated. |
| ConditionQueries.AllAndFrom | Plugins/DynamicAISystem/Source/DynamicAISystem/Private/Objects/DASConditionQuery.cpp:132-144 | The AND-only case from any position and running result. |
| ConditionQueries.NotALeftFold | Plugins/DynamicAISystem/Source/DynamicAISystem/Private/Objects/DASConditionQuery.cpp:132-135 | `A AND B OR C` with A false gives false after evaluating only A, although the plain left fold of the same chain is true. A worked example; `AllOrMeansAny` and `AllAndMeansEvery` are the general rules. |
| ConditionQueries.OrAfterFalseIsEvaluated | Plugins/DynamicAISystem/Source/DynamicAISystem/Private/Objects/DASConditionQuery.cpp:138-144 | In `A OR B AND C` with A false, B is evaluated, and C is evaluated exactly when B holds. A worked example of mixed operators. |
| ConditionQueries.EvaluateEntry | Plugins/DynamicAISystem/Source/DynamicAISystem/Private/Objects/DASConditionQuery.cpp:144 | Evaluating one entry returns its outcome and adds its condition to those that re-cached by their own rule. |
| ConditionQueries.PassStep | Plugins/DynamicAISystem/Source/DynamicAISystem/Private/Objects/DASConditionQuery.cpp:123-145 | One loop iteration: the first entry is evaluated; after it, false meeting AND stops, true meeting OR skips, otherwise the entry is evaluated. Each case follows `PassAfter`. |
| ConditionQueries.PassConcludes | Plugins/DynamicAISystem/Source/DynamicAISystem/Private/Objects/DASConditionQuery.cpp:132-147 | A loop that broke out, or reached the end, holds `Fold`'s result and evaluated indices. |
| ConditionQueries.PassAfterFolds | Plugins/DynamicAISystem/Source/DynamicAISystem/Private/Objects/DASConditionQuery.cpp:123-145 | After any number of iterations the loop state plus the rest of the chain is `Fold`. |
| ConditionQueries.EvaluatePass | Plugins/DynamicAISystem/Source/DynamicAISystem/Private/Objects/DASConditionQuery.cpp:117-148 | The loop returns `Fold`'s result and evaluates exactly `Fold`'s indices. Exactly those conditions re-cache and broadcast by their own rule; every other condition is untouched. |
| ConditionQueries.ApplyIdempotent | Plugins/DynamicAISystem/Source/DynamicAISystem/Private/Objects/DASConditionQuery.cpp:54-58 | Initializing and subscribing a condition twice, or uninitializing and unsubscribing it twice, ends as doing it once. |
| ConditionQueries.Apply | Plugins/DynamicAISystem/Source/DynamicAISystem/Private/Objects/DASConditionQuery.cpp:57-58 | After initializing, a condition is initialized and the query is subscribed. After uninitializing (lines 84-85), neither holds. |
| ConditionQueries.PruneKeepsInstances | Plugins/DynamicAISystem/Source/DynamicAISystem/Private/Objects/DASConditionQuery.cpp:52-64 | Dropping the entries without an instance leaves no null entry and the same set of conditions. |
| ConditionQueries.PruneStepAt | Plugins/DynamicAISystem/Source/DynamicAISystem/Private/Objects/DASConditionQuery.cpp:52-64 | One step of the backward `RemoveAt` loop extends the pruned part by one position, keeping order. |
| ConditionQueries.ConditionQuery.constructor | Plugins/DynamicAISystem/Source/DynamicAISystem/Private/Objects/DASConditionQuery.cpp:37-42 | A new query is not initialized, Undefined, without owner. |
| ConditionQueries.ConditionQuery.IsConditionFulfilledInternal | Plugins/DynamicAISystem/Source/DynamicAISystem/Public/Objects/DASConditionQuery.h:84-90 | One pass returns `Fold`'s result over the current outcomes and evaluates exactly `Fold`'s conditions. It leaves the query's own cache and broadcasts alone. |
| ConditionQueries.ConditionQuery.IsConditionFulfilled | Plugins/DynamicAISystem/Source/DynamicAISystem/Private/Objects/DASConditionQuery.cpp:96-115 | One call (`Evaluated`): the chain is unchanged and the result is `Fold`'s, which is cached. The call broadcasts when the cache was Undefined or held the opposite value. Exactly the conditions `Fold` names re-cache and broadcast by their own rule. Nested calls are not modelled. |
| ConditionQueries.ConditionQuery.OnInnerConditionResultChanged | Plugins/DynamicAISystem/Source/DynamicAISystem/Public/Objects/DASConditionQuery.h:103 | An inner change causes exactly one full re-evaluation, whatever the reported value. |
| ConditionQueries.ConditionQuery.StepAll | Plugins/DynamicAISystem/Source/DynamicAISystem/Private/Objects/DASConditionQuery.cpp:52-64 | The backward pass leaves the entries with an instance, in order, and applies the step to each distinct condition once in effect. |
| ConditionQueries.ConditionQuery.StepBack | Plugins/DynamicAISystem/Source/DynamicAISystem/Private/Objects/DASConditionQuery.cpp:54-63 | One iteration of the backward pass keeps its invariant. |
| ConditionQueries.ConditionQuery.InitializeConditions | Plugins/DynamicAISystem/Source/DynamicAISystem/Private/Objects/DASConditionQuery.cpp:52-64 | Every remaining condition is initialized with the owner (if it was not yet). The query is added to its subscribers, and its other subscribers are kept. Caches and logs are untouched. |
| ConditionQueries.ConditionQuery.FirstInitialize | Plugins/DynamicAISystem/Source/DynamicAISystem/Private/Objects/DASConditionQuery.cpp:46-67 | Owner and flag are set, null entries are pruned in order, and every condition is initialized with its hooks and gains the query as one more subscriber. Then one evaluation makes the cache defined and broadcasts by the transition rule. Exactly the conditions that evaluation reaches re-cache and broadcast; the others keep their cache and log. |
| ConditionQueries.ConditionQuery.Activate | Plugins/DynamicAISystem/Source/DynamicAISystem/Private/Objects/DASConditionQuery.cpp:66-67 | The flag and owner are set (DASConditionQuery.cpp:48-49), and the single evaluation that ends `Initialize` has the effect `Evaluated` states. |
| ConditionQueries.ConditionQuery.Initialize | Plugins/DynamicAISystem/Source/DynamicAISystem/Private/Objects/DASConditionQuery.cpp:44-69 | Runs once (`SetUp`). A first call does the initialization above, including the subscribers kept and the conditions re-cached by its evaluation. A later call leaves the query and its conditions exactly as they were. Conditions run their hooks only on their own first initialization. |
| ConditionQueries.ConditionQuery.Uninitialize | Plugins/DynamicAISystem/Source/DynamicAISystem/Private/Objects/DASConditionQuery.cpp:71-93 | Only when initialized: it clears the flag, resets the cache to Undefined, prunes null entries, and uninitializes every condition. Each condition loses the query as a subscriber and keeps its other subscribers. It does not broadcast. |
| ConditionQueries.ConditionQuery.ValidateData | Plugins/DynamicAISystem/Source/DynamicAISystem/Private/Objects/DASConditionQuery.cpp:163-172 | Every condition's hook runs once per entry that holds it; null entries are skipped. |
| ConditionQueries.WrapperIsConditionFulfilled | Plugins/DynamicAISystem/Source/DynamicAISystem/Private/Objects/DASConditionQuery.cpp:9-16 | A wrapper without a query holds and changes nothing. Otherwise the call is one query evaluation (`Evaluated`): `Fold`'s result, cached, broadcast on a transition, with the evaluated conditions re-cached. |
| ConditionQueries.WrapperInitialize | Plugins/DynamicAISystem/Source/DynamicAISystem/Private/Objects/DASConditionQuery.cpp:19-27 | Reports true exactly when the wrapper holds a query (`IsValid`, DASConditionQuery.h:31). Then the query ends as `Initialize` leaves it (`SetUp`): pruned, owned, subscribed to, evaluated and defined on a first call, with the conditions that evaluation reaches re-cached. A later call leaves it unchanged. |
| BasePoints.IdAfterActorCreated | Plugins/DynamicAISystem/Source/DynamicAISystem/Private/Points/DASBasePoint.cpp:69-85 | In an editor build, a non-template point ends with a valid id. A valid id or a template's id is never changed, and outside editor builds no id is changed. |
| BasePoints.ActorCreatedIdIsStable | Plugins/DynamicAISystem/Source/DynamicAISystem/Private/Points/DASBasePoint.cpp:78-82 | Running the creation rule again, with any other new GUID, keeps the id. |
| BasePoints.IdAfterDuplicate | Plugins/DynamicAISystem/Source/DynamicAISystem/Private/Points/DASBasePoint.cpp:52-67 | In an editor build, a normal-mode copy of a non-template point always gets the new GUID. Other copies, and every copy outside editor builds, keep their id. |
| BasePoints.DuplicateGetsNewId | Plugins/DynamicAISystem/Source/DynamicAISystem/Private/Points/DASBasePoint.cpp:52-85 | In an editor build, a normal-mode copy ends with an id different from its source's, also after the creation rule runs. |
| BasePoints.RuntimeSpawnKeepsInvalidId | Plugins/DynamicAISystem/Source/DynamicAISystem/Private/Points/DASBasePoint.cpp:69-85 | Outside editor builds a point without a valid id keeps the invalid one, even when spawned at runtime. |
| BasePoints.ValidateQuery | Plugins/DynamicAISystem/Source/DynamicAISystem/Private/Points/DASBasePoint.cpp:113-121 | Forwards ValidateData to the query only when the wrapper holds one. |
| BasePoints.BeginPlayQuery | Plugins/DynamicAISystem/Source/DynamicAISystem/Private/Points/DASBasePoint.cpp:41-49 | The query is initialized with the point as owner (`SetUp`, with the kept subscribers and the re-cached conditions) and then validated. Validation changes only the hooks. Each condition gets its initialization hooks, then one `ValidateData` hook per entry that holds it. |
| PathPoints.FirstHeld | Plugins/DynamicAISystem/Source/DynamicAISystem/Private/Points/DASPathPoint.cpp:239 | `FindByKey`: the first spot whose owner pointer is the actor, or none when no spot has it. |
| PathPoints.ReleaseFreesOne | Plugins/DynamicAISystem/Source/DynamicAISystem/Private/Points/DASPathPoint.cpp:236-243 | Releasing frees exactly one spot of an actor that holds any. It changes no other actor's holdings and keeps every transform. |
| PathPoints.ClosestFree | Plugins/DynamicAISystem/Source/DynamicAISystem/Private/Points/DASPathPoint.cpp:204-219 | The running minimum ends on a free spot of least distance, the lowest index among equals, or on none iff no spot is free. |
| PathPoints.Request | Plugins/DynamicAISystem/Source/DynamicAISystem/Private/Points/DASPathPoint.cpp:188-232 | Spots keep their number; a spot is reported exactly when there are spots. |
| PathPoints.RequestClaimsClosestFree | Plugins/DynamicAISystem/Source/DynamicAISystem/Private/Points/DASPathPoint.cpp:195-226 | After the release, a free spot of least distance (lowest index on a tie) is taken by the querier and reported. |
| PathPoints.RequestWithoutFreeSpot | Plugins/DynamicAISystem/Source/DynamicAISystem/Private/Points/DASPathPoint.cpp:228-231 | With no free spot the first spot is reported unclaimed; a querier that held nothing changes no owner at all. |
| PathPoints.RequestKeepsOneSpotEach | Plugins/DynamicAISystem/Source/DynamicAISystem/Private/Points/DASPathPoint.cpp:195-226 | An actor holding at most one spot before a request holds at most one after it, whoever asked. |
| PathPoints.RandomPickIsRunnableLink | Plugins/DynamicAISystem/Source/DynamicAISystem/Private/Points/DASPathPoint.cpp:92-126 | Without a solver, an enabled direction yields a point iff some link is non-null and can run. What it yields is such a link, and a disabled direction yields null. |
| PathPoints.EveryRunnableLinkReachable | Plugins/DynamicAISystem/Source/DynamicAISystem/Private/Points/DASPathPoint.cpp:100-123 | Every link that can run is the pick for some value of the random draw. |
| PathPoints.SolverAnswerIsUnfiltered | Plugins/DynamicAISystem/Source/DynamicAISystem/Private/Points/DASPathPoint.cpp:95-98 | With a solver its answer is returned as it is. The base solver answers null (DASPathSolver.h:33). |
| PathPoints.FilterOutPointsThatCantRun | Plugins/DynamicAISystem/Source/DynamicAISystem/Private/Objects/DASPathSolver.cpp:30-46 | The output is reset and then holds exactly the non-null inputs that can run, in order. |
| PathPoints.AvailablePoints | Plugins/DynamicAISystem/Source/DynamicAISystem/Private/Objects/DASPathSolver.cpp:36-45 | Every output point is non-null and can run; input order is kept; every runnable input appears as often as in the input. |
| PathPoints.PathPoint.constructor | Plugins/DynamicAISystem/Source/DynamicAISystem/Private/Points/DASPathPoint.cpp:19-25 | Both directions enabled, no return after actions, no links, no spots. |
| PathPoints.PathPoint.ReleaseSpot | Plugins/DynamicAISystem/Source/DynamicAISystem/Private/Points/DASPathPoint.cpp:236-243 | The first spot held by the querier is freed; nothing else changes. |
| PathPoints.PathPoint.RequestSpot | Plugins/DynamicAISystem/Source/DynamicAISystem/Private/Points/DASPathPoint.cpp:188-232 | The spots and the reported spot are those of `Request`: nothing without spots, otherwise a release first, then the closest free spot is claimed, or else the first spot is reported. |
| PathPoints.PathPoint.GetPointLocationAndRotation | Plugins/DynamicAISystem/Source/DynamicAISystem/Private/Points/DASPathPoint.cpp:169-186 | Without spots the goal is the point's own pose and nothing changes. Otherwise the goal is the requested spot's transform. |
| PathPoints.PathPoint.GetNextPathPoint | Plugins/DynamicAISystem/Source/DynamicAISystem/Private/Points/DASPathPoint.cpp:89-127 | Equals `SelectLink` over the forward flag and links: null when disabled or empty, the solver's answer with a solver, else a random runnable link or null. |
| PathPoints.PathPoint.GetPreviousPathPoint | Plugins/DynamicAISystem/Source/DynamicAISystem/Private/Points/DASPathPoint.cpp:129-167 | The same over the backward flag and links. |
| PathPoints.PathPoint.CanRun | Plugins/DynamicAISystem/Source/DynamicAISystem/Private/Points/DASBasePoint.cpp:88-93 | True, with nothing changed, when the point has no query. Otherwise it is one evaluation of the query (`Evaluated`): the combined result, cached and broadcast on a transition. |
| PathPoints.PathPoint.ValidateData | Plugins/DynamicAISystem/Source/DynamicAISystem/Private/Points/DASPathPoint.cpp:413-438 | Validates the query, removes the null entries of both link arrays keeping the rest in order, then validates the selector if there is one. |
| PathPoints.PathPoint.ValidateLinks | Plugins/DynamicAISystem/Source/DynamicAISystem/Private/Points/DASPathPoint.cpp:418-437 | Both link arrays lose exactly their null entries, in order; the selector, if any, is validated once. |
| PathPoints.PathPoint.ValidatedLinks | Plugins/DynamicAISystem/Source/DynamicAISystem/Private/Points/DASPathPoint.cpp:418-431 | The cleaned link arrays hold no null and keep every linked point, in order and as often as before. |
| PathPoints.PathPoint.BeginPlay | Plugins/DynamicAISystem/Source/DynamicAISystem/Private/Points/DASBasePoint.cpp:41-49 | The query ends as `BeginPlayQuery` leaves it. The link arrays lose their null entries in order, and the selector, if any, is validated once (DASPathPoint.cpp:413-438). |
| PathPoints.PathPoint.PostActorCreated | Plugins/DynamicAISystem/Source/DynamicAISystem/Private/Points/DASBasePoint.cpp:69-85 | The id follows `IdAfterActorCreated`, given whether this is an editor build. |
| PathPoints.PathPoint.PostDuplicate | Plugins/DynamicAISystem/Source/DynamicAISystem/Private/Points/DASBasePoint.cpp:52-67 | The id follows `IdAfterDuplicate`, given whether this is an editor build. |
| Actions.ResultOf | Plugins/DynamicAISystem/Source/DynamicAISystem/Private/Objects/DASAction.cpp:80 | Success exactly when the work succeeded, Failed exactly when it did not. |
| Actions.Action.constructor | Plugins/DynamicAISystem/Source/DynamicAISystem/Private/Objects/DASAction.cpp:9-12 | A new action is idle, without component and delegate. |
| Actions.Action.Execute | Plugins/DynamicAISystem/Source/DynamicAISystem/Private/Objects/DASAction.cpp:62-70 | When idle it records the component, sets the flag and calls ReceiveExecute, with no authority check; while running it changes nothing. |
| Actions.Action.AsyncExecute | Plugins/DynamicAISystem/Source/DynamicAISystem/Private/Objects/DASAction.cpp:48-60 | While running, a new request gets Failed at once and the running component and delegate stay. Otherwise the delegate is stored and the action starts. |
| Actions.Action.FinishExecute | Plugins/DynamicAISystem/Source/DynamicAISystem/Private/Objects/DASAction.cpp:72-90 | When running: it stops, calls ReceiveFinishExecute with the component and result, clears the component, and reports the result to the still-bound delegate. Otherwise it does nothing. |
| Actions.RunToCompletion | Plugins/DynamicAISystem/Source/DynamicAISystem/Private/Objects/DASAction.cpp:48-90 | An idle action started asynchronously and then finished reports the result once and is idle again, so `Execute` can start it anew. |
| ActionPoints.CooldownRemaining | Plugins/DynamicAISystem/Source/DynamicAISystem/Private/Points/DASActionPoint.cpp:219-231 | Never negative; positive exactly while on cooldown, and then it is the time left until the end. |
| ActionPoints.CooldownEndAfter | Plugins/DynamicAISystem/Source/DynamicAISystem/Private/Points/DASActionPoint.cpp:183-205 | A positive length in a world puts the point on cooldown for exactly that long; otherwise the end time stays. |
| ActionPoints.ResetMeansReady | Plugins/DynamicAISystem/Source/DynamicAISystem/Public/Points/DASActionPoint.h:244 | With the end time reset to 0, no time from 0 on is on cooldown and none remains. |
| ActionPoints.CooldownExpires | Plugins/DynamicAISystem/Source/DynamicAISystem/Private/Points/DASActionPoint.cpp:207-231 | An applied cooldown holds exactly until `now + length`, with the remaining time counting down to 0. |
| ActionPoints.ActionPoint.constructor | Plugins/DynamicAISystem/Source/DynamicAISystem/Private/Points/DASActionPoint.cpp:13-30 | Not executing and not taken; cooldown, end time and current action index start at 0 (their declared defaults, DASActionPoint.h:104, 232, 258); no component or delegate. |
| ActionPoints.ActionPoint.ApplyCooldown | Plugins/DynamicAISystem/Source/DynamicAISystem/Private/Points/DASActionPoint.cpp:183-193 | The end time becomes now plus the point's cooldown when that is positive and there is a world; otherwise it stays. |
| ActionPoints.ActionPoint.ApplyCustomCooldown | Plugins/DynamicAISystem/Source/DynamicAISystem/Private/Points/DASActionPoint.cpp:195-205 | The same with the given length. |
| ActionPoints.ActionPoint.ResetCooldown | Plugins/DynamicAISystem/Source/DynamicAISystem/Public/Points/DASActionPoint.h:244 | The end time becomes 0. |
| ActionPoints.ActionPoint.SetIsTaken | Plugins/DynamicAISystem/Source/DynamicAISystem/Private/Points/DASActionPoint.cpp:234-249 | Sets the flag; only a real change is replicated and broadcast, once. |
| ActionPoints.ActionPoint.SetIsExecuting | Plugins/DynamicAISystem/Source/DynamicAISystem/Private/Points/DASActionPoint.cpp:166-180 | Sets the flag; only a real change is replicated. |
| ActionPoints.ActionPoint.CanRun | Plugins/DynamicAISystem/Source/DynamicAISystem/Private/Points/DASActionPoint.cpp:94-104 | On cooldown it is false, and the query and its conditions are left untouched. Otherwise it is the base rule: true without a query, else one evaluation of the query (`Evaluated`). |
| ActionPoints.ActionPoint.Execute | Plugins/DynamicAISystem/Source/DynamicAISystem/Private/Points/DASActionPoint.cpp:123-137 | Only when idle and with authority: it records the component, sets the flag, broadcasts true and calls ReceiveExecute. Otherwise nothing changes. |
| ActionPoints.ActionPoint.AsyncExecute | Plugins/DynamicAISystem/Source/DynamicAISystem/Private/Points/DASActionPoint.cpp:107-121 | When idle and with authority, it stores the delegate and starts. Otherwise, already running or a client, it reports Failed to the given delegate and changes nothing else. |
| ActionPoints.ActionPoint.FinishExecute | Plugins/DynamicAISystem/Source/DynamicAISystem/Private/Points/DASActionPoint.cpp:139-164 | When running: the flag is cleared and ReceiveFinishExecute gets the result. Only a success applies the cooldown. The component is cleared, false is broadcast, and the result goes to the delegate, which stays bound. Otherwise nothing happens. |
| ActionPoints.ActionPoint.ValidateData | Plugins/DynamicAISystem/Source/DynamicAISystem/Private/Points/DASBasePoint.cpp:113-121 | Forwards to the query's ValidateData when there is a query. |
| ActionPoints.ActionPoint.BeginPlay | Plugins/DynamicAISystem/Source/DynamicAISystem/Private/Points/DASBasePoint.cpp:41-49 | The query ends as `BeginPlayQuery` leaves it: initialized with the point as owner, then validated. |
| ActionPoints.ActionPoint.PostActorCreated | Plugins/DynamicAISystem/Source/DynamicAISystem/Private/Points/DASBasePoint.cpp:69-85 | The id follows `IdAfterActorCreated`, given whether this is an editor build. |
| ActionPoints.ActionPoint.PostDuplicate | Plugins/DynamicAISystem/Source/DynamicAISystem/Private/Points/DASBasePoint.cpp:52-67 | The id follows `IdAfterDuplicate`, given whether this is an editor build. |
| ActionPoints.SuccessfulRun | Plugins/DynamicAISystem/Source/DynamicAISystem/Private/Points/DASActionPoint.cpp:107-164 | A successful server run reports Success once and leaves the point idle, on cooldown at the finish, and off cooldown `cooldown` seconds later. |
| Selectors.ActionSelector.ValidateData | Plugins/DynamicAISystem/Source/DynamicAISystem/Private/Points/DASPathPoint.cpp:434-437 | The selector's hook runs once. |
| Registries.Registry.constructor | Plugins/DynamicAISystem/Source/DynamicAISystem/Private/Utils/DASWorldSubsystem.cpp:10-15 | The registry starts empty. |
| Registries.Registry.AddPathPoint | Plugins/DynamicAISystem/Source/DynamicAISystem/Private/Utils/DASWorldSubsystem.cpp:107-110 | Appends the point; duplicates allowed. |
| Registries.Registry.RemovePathPoint | Plugins/DynamicAISystem/Source/DynamicAISystem/Private/Utils/DASWorldSubsystem.cpp:112-115 | Removes every occurrence of the point. |
| Registries.Registry.AddActionPoint | Plugins/DynamicAISystem/Source/DynamicAISystem/Private/Utils/DASWorldSubsystem.cpp:117-120 | Appends the point; duplicates allowed. |
| Registries.Registry.RemoveActionPoint | Plugins/DynamicAISystem/Source/DynamicAISystem/Private/Utils/DASWorldSubsystem.cpp:122-125 | Removes every occurrence of the point. |
| Registries.RemoveUnregistersEveryCopy | Plugins/DynamicAISystem/Source/DynamicAISystem/Private/Utils/DASWorldSubsystem.cpp:112-115 | After removal no copy is left, every other entry keeps its count, and the order is kept. |
| Registries.Registry.FindPathPointById | Plugins/DynamicAISystem/Source/DynamicAISystem/Private/Utils/DASWorldSubsystem.cpp:17-34 | The first non-null registered path point with the id, and null iff there is none. |
| Registries.Registry.FindActionPointById | Plugins/DynamicAISystem/Source/DynamicAISystem/Private/Utils/DASWorldSubsystem.cpp:36-53 | The first non-null registered action point with the id, and null iff there is none. |
| Registries.AddedPointIsFound | Plugins/DynamicAISystem/Source/DynamicAISystem/Private/Utils/DASWorldSubsystem.cpp:17-34 | A newly appended point is found by its id unless an earlier entry already has that id. |
| Registries.ClosestPathPoint | Plugins/DynamicAISystem/Source/DynamicAISystem/Private/Utils/DASWorldSubsystem.cpp:55-79 | With a valid tag, it is a registered point whose tag matches, at least distance, and the earliest on a tie. It is null iff none matches, and always null for an invalid tag. |
| Registries.ClosestActionPoint | Plugins/DynamicAISystem/Source/DynamicAISystem/Private/Utils/DASWorldSubsystem.cpp:81-105 | The same for action points. |
| Registries.Registry.FindClosestPathPoint | Plugins/DynamicAISystem/Source/DynamicAISystem/Private/Utils/DASWorldSubsystem.cpp:55-79 | The strict running-minimum loop, skipping non-matching points (lines 66-67), returns `ClosestPathPoint`. |
| Registries.Registry.FindClosestActionPoint | Plugins/DynamicAISystem/Source/DynamicAISystem/Private/Utils/DASWorldSubsystem.cpp:81-105 | The same loop for action points returns `ClosestActionPoint`. |
| Library.Untaken | Plugins/DynamicAISystem/Source/DynamicAISystem/Private/Utils/DASBPLibrary.cpp:152-160 | Every kept point is non-null, not taken, and from the input. |
| Library.UntakenComplete | Plugins/DynamicAISystem/Source/DynamicAISystem/Private/Utils/DASBPLibrary.cpp:152-160 | Every untaken input point is kept as often as it occurs. |
| Library.FilterOutTakenActionPoints | Plugins/DynamicAISystem/Source/DynamicAISystem/Private/Utils/DASBPLibrary.cpp:150-161 | The output keeps what it held and gets the non-null untaken inputs appended in order; it is not cleared. |
| Library.SortActionPointsByDistance | Plugins/DynamicAISystem/Source/DynamicAISystem/Private/Utils/DASBPLibrary.cpp:163-191 | The result is a permutation of the input's valid entries, with no null. It is ascending by distance, or descending when inverse. The input is untouched. |
| Library.SortPathPointsByDistance | Plugins/DynamicAISystem/Source/DynamicAISystem/Private/Utils/DASBPLibrary.cpp:193-221 | The same for path points. |
| Library.SortedKeepsValidPoints | Plugins/DynamicAISystem/Source/DynamicAISystem/Private/Utils/DASBPLibrary.cpp:165-173 | The sorted copy holds every valid input point as often as the input and holds no null. |
| Library.ActionKeyOrders | Plugins/DynamicAISystem/Source/DynamicAISystem/Private/Utils/DASBPLibrary.cpp:176-190 | Sorted by the key means ascending distance, or descending when inverse. |
| Library.PathKeyOrders | Plugins/DynamicAISystem/Source/DynamicAISystem/Private/Utils/DASBPLibrary.cpp:206-220 | The same for path points. |
| Seqs.RemoveRejected | Plugins/DynamicAISystem/Source/DynamicAISystem/Private/Points/DASPathPoint.cpp:418-431 | The backward `RemoveAt` clean-up loop leaves exactly the entries that pass, in order. |
| Components.ChangeLog | Plugins/DynamicAISystem/Source/DynamicAISystem/Private/Components/DASComponent.cpp:591-642 | A setter notifies once, with the old and new value, exactly when the value changes. |
| Components.ActionsAllowedDirections | Plugins/DynamicAISystem/Source/DynamicAISystem/Private/Components/DASComponent.cpp:570-572 | Only BothWays runs both ways; Forward only forward, Backward only backward; no-actions never. |
| Components.Unavailable | Plugins/DynamicAISystem/Source/DynamicAISystem/Private/Components/DASComponent.cpp:651-667 | The number of head entries that are null, cannot run or are taken: all entries before it are unavailable and the one at it is available. |
| Components.DroppingIsIdempotent | Plugins/DynamicAISystem/Source/DynamicAISystem/Private/Components/DASComponent.cpp:651-667 | Once the unavailable head is dropped, a second pick drops nothing. |
| Components.QueueIds | Plugins/DynamicAISystem/Source/DynamicAISystem/Private/Components/DASComponent.cpp:273-278 | A snapshot keeps one id per non-null queue entry; a queue without null entries keeps every id, in order. |
| Components.ResolveIds | Plugins/DynamicAISystem/Source/DynamicAISystem/Private/Components/DASComponent.cpp:327-335 | Loading gives one looked-up entry per saved id, in order, null for an unknown id. |
| Components.PathPointId | Plugins/DynamicAISystem/Source/DynamicAISystem/Private/Components/DASComponent.cpp:280 | The active path point's id, or the invalid id when there is none. |
| Components.LoadedQueueSavesSameIds | Plugins/DynamicAISystem/Source/DynamicAISystem/Private/Components/DASComponent.cpp:273-278 | Ids the registry knows load back to points that save the same ids (lines 327-335). |
| Components.SavedQueueLoadsBack | Plugins/DynamicAISystem/Source/DynamicAISystem/Private/Components/DASComponent.cpp:273-278 | With unique ids, saving a queue of registered points and loading it (lines 327-335) gives the queue without its null entries. |
| Components.SavedPathPointLoadsBack | Plugins/DynamicAISystem/Source/DynamicAISystem/Private/Components/DASComponent.cpp:280 | With valid unique ids, the saved active path point loads back (line 317) as the same point, or as none. |
| Components.LoadQueue | Plugins/DynamicAISystem/Source/DynamicAISystem/Private/Components/DASComponent.cpp:327-335 | The lookup loop builds `ResolveIds`. |
| Components.LookUpSnapshot | Plugins/DynamicAISystem/Source/DynamicAISystem/Private/Components/DASComponent.cpp:317-334 | The registry lookups of a load. For a restorable snapshot the points found carry the saved ids. |
| Components.RecreateSelector | Plugins/DynamicAISystem/Source/DynamicAISystem/Private/Components/DASComponent.cpp:306-313 | No saved class gives no selector; otherwise a new selector of the saved class with the saved data. |
| Components.DASComponent.constructor | Plugins/DynamicAISystem/Source/DynamicAISystem/Private/Components/DASComponent.cpp:32-45 | Not initialized, mode ExecutePathPoints, moving forward, no points, empty queue. |
| Components.DASComponent.SetIsInitialized | Plugins/DynamicAISystem/Source/DynamicAISystem/Private/Components/DASComponent.cpp:147-166 | Sets the flag; only a real change notifies, in either direction. |
| Components.DASComponent.SetActionPoint | Plugins/DynamicAISystem/Source/DynamicAISystem/Private/Components/DASComponent.cpp:589-643 | Sets the active action point; only a real change is broadcast, with the old and new point. |
| Components.DASComponent.SetActionPointsQueue | Plugins/DynamicAISystem/Source/DynamicAISystem/Public/Components/DASComponent.h:392 | The queue is replaced wholesale. |
| Components.DASComponent.ClearActionPointsQueue | Plugins/DynamicAISystem/Source/DynamicAISystem/Public/Components/DASComponent.h:396 | The queue is empty. |
| Components.DASComponent.RemoveActionPointFromQueue | Plugins/DynamicAISystem/Source/DynamicAISystem/Public/Components/DASComponent.h:403 | Every occurrence is removed and the rest keep their order. |
| Components.DASComponent.SetIsReturningToPathPoint | Plugins/DynamicAISystem/Source/DynamicAISystem/Public/Components/DASComponent.h:320 | Assigns the flag unconditionally, with no notification. |
| Components.DASComponent.SetIsMovingForwardAlongPath | Plugins/DynamicAISystem/Source/DynamicAISystem/Public/Components/DASComponent.h:324 | Assigns the flag unconditionally, with no notification. |
| Components.DASComponent.SetHasNewPathPoint | Plugins/DynamicAISystem/Source/DynamicAISystem/Public/Components/DASComponent.h:328 | Assigns the flag unconditionally, with no notification. |
| Components.DASComponent.SetPathBehavior | Plugins/DynamicAISystem/Source/DynamicAISystem/Private/Components/DASComponent.cpp:363-372 | Sets the behavior; only a real change is broadcast. |
| Components.DASComponent.SetRunMode | Plugins/DynamicAISystem/Source/DynamicAISystem/Private/Components/DASComponent.cpp:171-193 | A real change is broadcast. It drops the queue and the active action point exactly when the previous mode was not Undefined; otherwise those stay. |
| Components.DASComponent.SetActionSelector | Plugins/DynamicAISystem/Source/DynamicAISystem/Private/Components/DASComponent.cpp:195-214 | A real change is notified. It drops the queue and active action point exactly in ExecuteActionsFromSelector mode. |
| Components.DASComponent.ReleasePathPointSpot | Plugins/DynamicAISystem/Source/DynamicAISystem/Private/Components/DASComponent.cpp:394-401 | Frees this agent's spot at the active path point, if there is one. |
| Components.DASComponent.RequestPathPointSpot | Plugins/DynamicAISystem/Source/DynamicAISystem/Private/Components/DASComponent.cpp:375-392 | True iff there is an active path point. The goal then becomes that point's answer for this agent (its pose, or the requested spot); otherwise nothing changes. |
| Components.DASComponent.SetPathPoint | Plugins/DynamicAISystem/Source/DynamicAISystem/Private/Components/DASComponent.cpp:465-527 | A real change releases this agent's spot at the old point and clears returning. It sets the new-point flag and broadcasts. Only in ExecutePathPoints mode does it drop the queue and action point. The same point changes nothing. |
| Components.DASComponent.SetInitialPathPoint | Plugins/DynamicAISystem/Source/DynamicAISystem/Private/Components/DASComponent.cpp:217-228 | Once initialized the point is applied at once; before that it is stored for `Init`. |
| Components.DASComponent.Init | Plugins/DynamicAISystem/Source/DynamicAISystem/Private/Components/DASComponent.cpp:80-145 | Succeeds iff not yet initialized and every outside check passes; a failure changes nothing. A success applies a set initial path point and becomes initialized, notifying once. |
| Components.DASComponent.UpdatePathPoint | Plugins/DynamicAISystem/Source/DynamicAISystem/Private/Components/DASComponent.cpp:530-563 | It tries the current direction, then the opposite one. The direction flips only when the opposite one succeeds. With no active point, or neither way open, it reports false and changes nothing. |
| Components.DASComponent.FetchPathActionPoints | Plugins/DynamicAISystem/Source/DynamicAISystem/Private/Components/DASComponent.cpp:565-585 | When the active point has a selector allowed in the current direction, the queue becomes its choice, and the result says whether it is non-empty. Otherwise the queue is emptied and the result is false. |
| Components.DASComponent.SetFirstActionPointFromQueue | Plugins/DynamicAISystem/Source/DynamicAISystem/Private/Components/DASComponent.cpp:646-672 | Drops exactly the unavailable head entries, so the queue is a suffix of the old one. A chosen point is available, stays at index 0 (DASComponent.h:373-378) and becomes active. With none left the queue is empty and no point is active. |
| Components.DASComponent.GetSnapshot | Plugins/DynamicAISystem/Source/DynamicAISystem/Private/Components/DASComponent.cpp:262-294 | The snapshot of the current state (`SnapshotOf`): the ids of non-null queue entries, the active point's id, the flags, the mode, the owner pose and the selector. |
| Components.DASComponent.LoadPointers | Plugins/DynamicAISystem/Source/DynamicAISystem/Private/Components/DASComponent.cpp:302-321 | Mode, selector and path point are set, each change notified as its setter does, and no action point is left. |
| Components.DASComponent.LoadQueueAndFlags | Plugins/DynamicAISystem/Source/DynamicAISystem/Private/Components/DASComponent.cpp:324-339 | No initial point, the loaded queue, and the three saved flags, set last. |
| Components.DASComponent.ApplySnapshot | Plugins/DynamicAISystem/Source/DynamicAISystem/Private/Components/DASComponent.cpp:302-339 | The whole load once the lookups are done (`SnapshotApplied`); the loaded state carries the looked-up ids. |
| Components.DASComponent.LoadFromRegistry | Plugins/DynamicAISystem/Source/DynamicAISystem/Private/Components/DASComponent.cpp:302-339 | Loads the snapshot as `SnapshotApplied` says. A snapshot whose ids the registry knows is saved again exactly as it was. |
| Components.DASComponent.LoadFromSnapshot | Plugins/DynamicAISystem/Source/DynamicAISystem/Private/Components/DASComponent.cpp:296-360 | Without a subsystem nothing changes. Otherwise the snapshot is loaded, it round-trips when restorable, and the owner is moved to the saved pose when asked. |
| Components.DASComponent.ResetPointers | Plugins/DynamicAISystem/Source/DynamicAISystem/Private/Components/DASComponent.cpp:235-238 | Not initialized, an empty queue, and no action point or path point; the spot at the old path point is released. |
| Components.DASComponent.ResetSettings | Plugins/DynamicAISystem/Source/DynamicAISystem/Private/Components/DASComponent.cpp:239-247 | The default mode and direction, no goal or flags, undefined behavior, no selector and no initial point. |
| Components.DASComponent.Reset | Plugins/DynamicAISystem/Source/DynamicAISystem/Private/Components/DASComponent.cpp:230-258 | Without the class-default component nothing changes. With it, the component returns to its defaults, with each setter's notifications. |

## Left out

- Geometry and floating point. Transforms are opaque labels, and squared distances are `nat`-valued functions the caller supplies; the closest-point searches start from "no candidate" instead of `FLT_MAX`. Cooldown times are exact `real`s. The navigation-mesh projection of the goal is not modelled: `RequestPathPointSpot` keeps the point's answer as the goal.
- Randomness, solvers and selectors. `RandomIntegerInRange` is a supplied draw taken modulo the number of available points. A path solver's answer and an action selector's choice are supplied values. `FGuid::NewGuid` is a supplied fresh id.
- Side effects of `CanRun` on other points. Where traversal or the queue asks another point whether it can run, the answer is an oracle, so the re-evaluation of that point's condition query is not carried along.
- Re-entrant delivery. An inner condition's broadcast during the query's own pass calls the query back (`OnInnerConditionResultChanged`, DASConditionQuery.h:103), which evaluates and may broadcast before the outer call finishes. The outer call then compares against the cache it read before the pass (DASConditionQuery.cpp:99), so the program can broadcast the same value more than once per call. For example, the first `Initialize` of a query holding one condition that holds broadcasts `true` at least twice. The model records the inner broadcasts but does not run that nested evaluation, so its logs show one query broadcast per transition.
- Engine checks in `Init`. Authority, pawn, interface, behavior tree, AI controller and starting the tree are booleans of `InitEnvironment`. The blackboard refresh and the controller caching are not modelled.
- Blackboard publishing. The `Update*BBKey` calls in the component are not modelled. Neither is the subscribing to the new path point's or action point's condition query and the evaluation that `SetPathPoint` and `SetActionPoint` make for them.
- `Reset` unbinding its delegates, and the restart of the behavior tree after `LoadFromSnapshot`.
- Replication. Marking a property dirty and forcing a network update are one counter (`netUpdates`). `OnRep_*` handlers are modelled only as their notifications.
- Services the engine provides. The selector's serialization is an opaque payload. `ClearTimersAndDelays`, `CallFunctionByName` and `EnumToString` are reflection helpers. Finding the class-default component is an `Option` parameter of `Reset`.
- Editor-only features are not modelled: the path point's link-on-duplicate and self-name bookkeeping (the `WITH_EDITORONLY_DATA` parts of DASPathPoint.cpp), spot generation, `RefreshInstancedObjects`, descriptions, debug drawing and the editor module.
- Blueprint async nodes, the rotate-to-face behavior-tree task and the developer settings are not part of this model.
- The code that advances an action point's current action index is not part of the sources modelled. Only the field and its initial value are.
- Points register themselves in `PostInitializeComponents` and unregister in `EndPlay`. The model has the registry operations but not those lifecycle calls.
- Getters. `IsTaken`, `IsExecuting` and `GetCurrentActionIndex` are read directly as fields.
- Weak owner pointers of conditions and queries are plain optional actor identities.
- Concurrency. The plugin runs on the game thread, and the model is sequential.
- Sort order among points at equal distance. The plugin's `TArray::Sort` fixes no order for them, so the model proves only sortedness and the permutation. The sorting algorithm itself is an insertion sort over values, not the engine's in-place sort.
- ConditionQueries.ConditionQuery.IsConditionFulfilledInternal: it requires every entry to hold an instance. The code dereferences each one it reaches without checking (DASConditionQuery.cpp:144), and after `Initialize` there are none left without one.

## Notes on the code

Where the plugin's descriptions and its code differ, the model follows the code:

- After a false running result, an OR-joined condition is evaluated, not skipped (DASConditionQuery.cpp:138-144). A false result meeting AND ends the whole chain with false, so the chain is not a left fold.
- `UDASCondition::Initialize` does not evaluate the condition and leaves its cache alone.
- When every spot is taken, `RequestSpot` reports the first spot (DASPathPoint.cpp:228-231), not a random one as the header comment says.
- `FilterOutTakenActionPoints` does not clear its output array.
- The action point's delegate stays bound after `FinishExecute`.
- `PostActorCreated` and `PostDuplicate` assign identifiers only in editor builds (`#if WITH_EDITOR`, DASBasePoint.cpp:54-65 and 72-84), although the comment on the creation rule says it also covers points spawned at runtime. In a build without the editor, a point spawned at runtime keeps an invalid identifier (`RuntimeSpawnKeepsInvalidId`), so such points cannot be told apart by identifier. The model follows the code and takes the build kind as an input.

Two steps of the model are reordered without changing the result:

- `FirstInitialize` sets the query's flag and owner after the condition pass, not before it. The pass never reads either of them.
- `LoadFromSnapshot` looks up the path point and the queue entries before it applies the mode and the selector. The lookups read only the registry, which those setters do not change.
