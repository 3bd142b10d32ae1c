/**
 * `UDASConditionQuery`: an ordered chain of conditions, each joined to the running
 * result by AND or OR, evaluated left to right with short-circuiting. The query
 * caches its own combined result and broadcasts when that result changes, exactly
 * as a single condition does.
 *
 * The chain's combination is specified by the pure function `Fold` over the
 * operators and the conditions' current outcomes. `Fold` also yields the indices of
 * the conditions actually evaluated. The imperative evaluation is proved equal to it.
 */
module ConditionQueries {
  import opened Wrappers
  import opened Types
  import opened Seqs
  import opened Conditions

  /** `FDASConditionWrapper`: a condition instance (null allowed) and its operator. */
  datatype ConditionWrapper = ConditionWrapper(instance: Condition?, op: Operator, isFirst: bool)

  /** A wrapper as the editor creates it: operator AND, marked first. */
  function NewWrapper(instance: Condition?): (w: ConditionWrapper)
    ensures w.instance == instance && w.op == AND && w.isFirst
  {
    ConditionWrapper(instance, AND, true)
  }

  predicate HasInstance(w: ConditionWrapper) { w.instance != null }

  predicate NoNulls(ws: seq<ConditionWrapper>)
  {
    forall i :: 0 <= i < |ws| ==> ws[i].instance != null
  }

  function OpsOf(ws: seq<ConditionWrapper>): (ops: seq<Operator>)
    ensures |ops| == |ws| && forall i {:trigger ops[i]} :: 0 <= i < |ws| ==> ops[i] == ws[i].op
  {
    seq(|ws|, i requires 0 <= i < |ws| => ws[i].op)
  }

  /** The outcome each condition's predicate would report now. */
  function ValsOf(ws: seq<ConditionWrapper>, outcome: Condition -> bool): (vals: seq<bool>)
    requires NoNulls(ws)
    ensures |vals| == |ws| && forall i {:trigger vals[i]} :: 0 <= i < |ws| ==> vals[i] == outcome(ws[i].instance)
  {
    seq(|ws|, i requires 0 <= i < |ws| && ws[i].instance != null => outcome(ws[i].instance))
  }

  /** The conditions at the given indices of the chain. */
  ghost function InstancesAt(ws: seq<ConditionWrapper>, indices: seq<nat>): set<Condition>
  {
    if indices == [] then {}
    else
      var k := indices[|indices| - 1];
      InstancesAt(ws, indices[..|indices| - 1]) + (if k < |ws| && ws[k].instance != null then {ws[k].instance} else {})
  }

  lemma InstancesAtSnoc(ws: seq<ConditionWrapper>, indices: seq<nat>, i: nat)
    requires i < |ws| && ws[i].instance != null
    ensures InstancesAt(ws, indices + [i]) == InstancesAt(ws, indices) + {ws[i].instance}
  {
    assert (indices + [i])[..|indices|] == indices;
  }

  /** A condition is among those at `indices` exactly when some listed index holds it. */
  lemma {:induction false} InstancesAtMembers(ws: seq<ConditionWrapper>, indices: seq<nat>, c: Condition)
    ensures c in InstancesAt(ws, indices) <==> exists k :: 0 <= k < |indices| && indices[k] < |ws| && ws[indices[k]].instance == c
  {
    if indices != [] {
      var init := indices[..|indices| - 1];
      InstancesAtMembers(ws, init, c);
      if exists k :: 0 <= k < |indices| && indices[k] < |ws| && ws[indices[k]].instance == c {
        var k :| 0 <= k < |indices| && indices[k] < |ws| && ws[indices[k]].instance == c;
        if k < |init| {
          assert init[k] == indices[k];
        }
      }
      if c in InstancesAt(ws, init) {
        var k :| 0 <= k < |init| && init[k] < |ws| && ws[init[k]].instance == c;
        assert indices[k] == init[k];
      }
    }
  }

  ghost function InstancesOf(ws: seq<ConditionWrapper>): set<Condition>
  {
    set k | 0 <= k < |ws| && ws[k].instance != null :: ws[k].instance
  }

  // ---------------------------------------------------------------------------
  // The specification of the chain's evaluation

  /** The combined result and the indices of the conditions that were evaluated, in order. */
  datatype FoldOutcome = FoldOutcome(result: bool, evaluated: seq<nat>)

  /**
   * The chain from position `i` on (never the first position), with running result `acc`:
   * a false result meeting AND stops the chain, a true result meeting OR skips the
   * condition, anything else replaces the running result by the condition's outcome.
   */
  function FoldFrom(ops: seq<Operator>, vals: seq<bool>, i: nat, acc: bool): FoldOutcome
    requires |ops| == |vals| && 1 <= i <= |ops|
    decreases |ops| - i
  {
    if i == |ops| then FoldOutcome(acc, [])
    else if !acc && ops[i] == AND then FoldOutcome(false, [])
    else if acc && ops[i] == OR then FoldFrom(ops, vals, i + 1, acc)
    else
      var rest := FoldFrom(ops, vals, i + 1, vals[i]);
      FoldOutcome(rest.result, [i] + rest.evaluated)
  }

  /** The whole chain: the empty chain holds; the first condition is always evaluated. */
  function Fold(ops: seq<Operator>, vals: seq<bool>): FoldOutcome
    requires |ops| == |vals|
  {
    if |ops| == 0 then FoldOutcome(true, [])
    else
      var rest := FoldFrom(ops, vals, 1, vals[0]);
      FoldOutcome(rest.result, [0] + rest.evaluated)
  }

  /** The evaluated indices increase strictly, stay in range, and the result is the last one's outcome. */
  lemma {:induction false} FoldFromShape(ops: seq<Operator>, vals: seq<bool>, i: nat, acc: bool)
    requires |ops| == |vals| && 1 <= i <= |ops|
    ensures var o := FoldFrom(ops, vals, i, acc);
      (forall k :: 0 <= k < |o.evaluated| ==> i <= o.evaluated[k] < |ops|)
      && (forall k, l :: 0 <= k < l < |o.evaluated| ==> o.evaluated[k] < o.evaluated[l])
      && o.result == (if o.evaluated == [] then acc else vals[o.evaluated[|o.evaluated| - 1]])
    decreases |ops| - i
  {
    if i < |ops| {
      if !acc && ops[i] == AND {
      } else if acc && ops[i] == OR {
        FoldFromShape(ops, vals, i + 1, acc);
      } else {
        FoldFromShape(ops, vals, i + 1, vals[i]);
      }
    }
  }

  lemma FoldShape(ops: seq<Operator>, vals: seq<bool>)
    requires |ops| == |vals|
    ensures var o := Fold(ops, vals);
      (forall k :: 0 <= k < |o.evaluated| ==> o.evaluated[k] < |ops|)
      && (forall k, l :: 0 <= k < l < |o.evaluated| ==> o.evaluated[k] < o.evaluated[l])
      && (|ops| > 0 ==> o.evaluated[0] == 0)
      && o.result == (if o.evaluated == [] then true else vals[o.evaluated[|o.evaluated| - 1]])
  {
    if |ops| > 0 {
      FoldFromShape(ops, vals, 1, vals[0]);
    }
  }

  /** Whatever the operators, a chain whose conditions all hold is fulfilled. */
  lemma AllHoldingIsFulfilled(ops: seq<Operator>, vals: seq<bool>)
    requires |ops| == |vals|
    requires forall j :: 0 <= j < |vals| ==> vals[j]
    ensures Fold(ops, vals).result
  {
    FoldShape(ops, vals);
  }

  /** Whatever the operators, a non-empty chain whose conditions all fail is not fulfilled. */
  lemma AllFailingIsUnfulfilled(ops: seq<Operator>, vals: seq<bool>)
    requires |ops| == |vals| && |ops| > 0
    requires forall j :: 0 <= j < |vals| ==> !vals[j]
    ensures !Fold(ops, vals).result
  {
    FoldShape(ops, vals);
  }

  /** A chain of conditions that keep the base class's predicate is fulfilled. */
  lemma BaseConditionsFulfilled(ws: seq<ConditionWrapper>)
    requires NoNulls(ws)
    ensures Fold(OpsOf(ws), ValsOf(ws, BaseOutcome)).result
  {
    AllHoldingIsFulfilled(OpsOf(ws), ValsOf(ws, BaseOutcome));
  }

  /** The operator written on the first condition plays no part. */
  lemma {:induction false} FoldFromIgnoresFirstOperator(ops: seq<Operator>, vals: seq<bool>, i: nat, acc: bool, op: Operator)
    requires |ops| == |vals| && 1 <= i <= |ops|
    ensures FoldFrom(ops[0 := op], vals, i, acc) == FoldFrom(ops, vals, i, acc)
    decreases |ops| - i
  {
    if i < |ops| {
      FoldFromIgnoresFirstOperator(ops, vals, i + 1, acc, op);
      FoldFromIgnoresFirstOperator(ops, vals, i + 1, vals[i], op);
    }
  }

  lemma FirstOperatorIgnored(ops: seq<Operator>, vals: seq<bool>, op: Operator)
    requires |ops| == |vals| && |ops| > 0
    ensures Fold(ops[0 := op], vals) == Fold(ops, vals)
  {
    FoldFromIgnoresFirstOperator(ops, vals, 1, vals[0], op);
  }

  /** A chain joined only by OR holds iff some condition holds; nothing after the first true one is evaluated. */
  lemma {:induction false} AllOrFrom(ops: seq<Operator>, vals: seq<bool>, i: nat, acc: bool)
    requires |ops| == |vals| && 1 <= i <= |ops|
    requires forall j :: i <= j < |ops| ==> ops[j] == OR
    ensures var o := FoldFrom(ops, vals, i, acc);
      (o.result <==> acc || exists j :: i <= j < |vals| && vals[j])
      && forall k :: k in o.evaluated ==> !acc && k < |vals| && forall j :: i <= j < k ==> !vals[j]
    decreases |ops| - i
  {
    if i < |ops| {
      if acc {
        AllOrFrom(ops, vals, i + 1, acc);
      } else {
        AllOrFrom(ops, vals, i + 1, vals[i]);
      }
    }
  }

  lemma AllOrMeansAny(ops: seq<Operator>, vals: seq<bool>)
    requires |ops| == |vals| && |ops| > 0
    requires forall j :: 1 <= j < |ops| ==> ops[j] == OR
    ensures var o := Fold(ops, vals);
      (o.result <==> exists j :: 0 <= j < |vals| && vals[j])
      && forall k :: k in o.evaluated ==> k < |vals| && forall j :: 0 <= j < k ==> !vals[j]
  {
    AllOrFrom(ops, vals, 1, vals[0]);
  }

  /** A chain joined only by AND holds iff every condition holds; nothing after the first false one is evaluated. */
  lemma {:induction false} AllAndFrom(ops: seq<Operator>, vals: seq<bool>, i: nat, acc: bool)
    requires |ops| == |vals| && 1 <= i <= |ops|
    requires forall j :: i <= j < |ops| ==> ops[j] == AND
    ensures var o := FoldFrom(ops, vals, i, acc);
      (o.result <==> acc && forall j :: i <= j < |vals| ==> vals[j])
      && forall k :: k in o.evaluated ==> acc && k < |vals| && forall j :: i <= j < k ==> vals[j]
    decreases |ops| - i
  {
    if i < |ops| && acc {
      AllAndFrom(ops, vals, i + 1, vals[i]);
    }
  }

  lemma AllAndMeansEvery(ops: seq<Operator>, vals: seq<bool>)
    requires |ops| == |vals| && |ops| > 0
    requires forall j :: 1 <= j < |ops| ==> ops[j] == AND
    ensures var o := Fold(ops, vals);
      (o.result <==> forall j :: 0 <= j < |vals| ==> vals[j])
      && forall k :: k in o.evaluated ==> k < |vals| && forall j :: 0 <= j < k ==> vals[j]
  {
    AllAndFrom(ops, vals, 1, vals[0]);
  }

  /**
   * The evaluation that operator precedence would suggest: every condition combined,
   * left to right, with no short-circuit.
   */
  function LeftFold(ops: seq<Operator>, vals: seq<bool>): bool
    requires |ops| == |vals| && |ops| > 0
    decreases |ops|
  {
    if |ops| == 1 then vals[0]
    else
      var acc := LeftFold(ops[..|ops| - 1], vals[..|vals| - 1]);
      if ops[|ops| - 1] == AND then acc && vals[|vals| - 1] else acc || vals[|vals| - 1]
  }

  /**
   * The chain is not that left fold: a false result meeting AND ends the chain with
   * false, even if an OR with a true condition follows. One worked chain; the general
   * short-circuit rules are `AllOrMeansAny` and `AllAndMeansEvery`.
   */
  lemma NotALeftFold()
    ensures Fold([AND, AND, OR], [false, true, true]) == FoldOutcome(false, [0])
    ensures LeftFold([AND, AND, OR], [false, true, true])
  {
    assert [AND, AND, OR][..2] == [AND, AND];
    assert [false, true, true][..2] == [false, true];
    assert [AND, AND][..1] == [AND];
    assert [false, true][..1] == [false];
  }

  /**
   * A false result followed by OR does evaluate the OR condition: in the chain
   * A, OR B, AND C with A false, B is evaluated, and C is evaluated exactly when B holds.
   * One worked chain for mixed operators, which the all-inputs lemmas do not cover.
   */
  lemma OrAfterFalseIsEvaluated(b: bool, c: bool)
    ensures Fold([AND, OR, AND], [false, b, c]) == if b then FoldOutcome(c, [0, 1, 2]) else FoldOutcome(false, [0, 1])
  {
  }

  // ---------------------------------------------------------------------------
  // Frame of an evaluation: which conditions re-cached and broadcast

  /** The cached result of every entry's condition, by position. */
  ghost function CachesOf(ws: seq<ConditionWrapper>): (r: seq<CachedResult>)
    requires NoNulls(ws)
    reads InstancesOf(ws)
    ensures |r| == |ws|
  {
    seq(|ws|, k requires 0 <= k < |ws| && ws[k].instance != null reads InstancesOf(ws) => ws[k].instance.cached)
  }

  /** The broadcast log of every entry's condition, by position. */
  ghost function LogsOf(ws: seq<ConditionWrapper>): (r: seq<seq<bool>>)
    requires NoNulls(ws)
    reads InstancesOf(ws)
    ensures |r| == |ws|
  {
    seq(|ws|, k requires 0 <= k < |ws| && ws[k].instance != null reads InstancesOf(ws) => ws[k].instance.changeEvents)
  }

  /**
   * Relative to the caches `cache0` and logs `events0` the entries had before, every
   * condition in `evaluated` cached its outcome and broadcast by its own rule, and every
   * other condition kept its cache and log.
   */
  ghost predicate RefreshedSince(ws: seq<ConditionWrapper>, evaluated: set<Condition>, outcome: Condition -> bool,
                                 cache0: seq<CachedResult>, events0: seq<seq<bool>>)
    requires NoNulls(ws) && |cache0| == |ws| && |events0| == |ws|
    reads InstancesOf(ws)`cached, InstancesOf(ws)`changeEvents
  {
    forall k :: 0 <= k < |ws| ==>
      if ws[k].instance in evaluated then
        ws[k].instance.cached == ToCached(outcome(ws[k].instance))
        && ws[k].instance.changeEvents == events0[k] + EventsOf(cache0[k], [outcome(ws[k].instance)])
      else
        ws[k].instance.cached == cache0[k] && ws[k].instance.changeEvents == events0[k]
  }

  /** Evaluating the condition at position `i` adds it to the refreshed ones. */
  method EvaluateEntry(ws: seq<ConditionWrapper>, i: nat, outcome: Condition -> bool, ghost done: set<Condition>,
                       ghost cache0: seq<CachedResult>, ghost events0: seq<seq<bool>>) returns (b: bool)
    requires NoNulls(ws) && i < |ws| && |cache0| == |ws| && |events0| == |ws|
    requires RefreshedSince(ws, done, outcome, cache0, events0)
    modifies ws[i].instance`cached, ws[i].instance`changeEvents
    ensures b == outcome(ws[i].instance)
    ensures RefreshedSince(ws, done + {ws[i].instance}, outcome, cache0, events0)
  {
    var c := ws[i].instance;
    if c in done {
      TransitionIffCacheChanges(c.cached, outcome(c));
    }
    b := c.IsConditionFulfilled(outcome(c));
  }

  /**
   * The state of the evaluation loop: running result, positions evaluated, the conditions
   * at those positions, and whether it stopped.
   */
  datatype PassTrace = PassTrace(result: bool, evaluated: seq<nat>, done: set<Condition>, stopped: bool)

  /**
   * One iteration at position `k` from the state `t`: the first entry is always evaluated;
   * after it, a false result meeting AND stops the loop, a true result meeting OR skips
   * the entry, and otherwise the entry's outcome `vals[k]` becomes the result.
   */
  function Advance(ws: seq<ConditionWrapper>, vals: seq<bool>, k: nat, t: PassTrace): PassTrace
    requires |vals| == |ws| && k < |ws|
  {
    var hit := if ws[k].instance != null then {ws[k].instance} else {};
    if t.stopped then t
    else if k == 0 then PassTrace(vals[0], [0], hit, false)
    else if !t.result && ws[k].op == AND then PassTrace(false, t.evaluated, t.done, true)
    else if t.result && ws[k].op == OR then t
    else PassTrace(vals[k], t.evaluated + [k], t.done + hit, false)
  }

  /** The loop's state after its first `n` iterations over `ws`, whose conditions report `vals`. */
  function PassAfter(ws: seq<ConditionWrapper>, vals: seq<bool>, n: nat): PassTrace
    requires |vals| == |ws| && n <= |ws|
  {
    if n == 0 then PassTrace(true, [], {}, false)
    else Advance(ws, vals, n - 1, PassAfter(ws, vals, n - 1))
  }

  /** An iteration records, among the conditions evaluated, the one at the position it adds. */
  lemma AdvanceDone(ws: seq<ConditionWrapper>, vals: seq<bool>, k: nat, t: PassTrace)
    requires |vals| == |ws| && k < |ws| && t.done == InstancesAt(ws, t.evaluated)
    requires k == 0 ==> t.evaluated == []
    ensures Advance(ws, vals, k, t).done == InstancesAt(ws, Advance(ws, vals, k, t).evaluated)
  {
    if !t.stopped {
      assert (t.evaluated + [k])[..|t.evaluated|] == t.evaluated;
    }
  }

  /** The conditions the loop has evaluated are those at the positions it lists. */
  lemma {:induction false} PassAfterDone(ws: seq<ConditionWrapper>, vals: seq<bool>, n: nat)
    requires |vals| == |ws| && n <= |ws|
    ensures PassAfter(ws, vals, n).done == InstancesAt(ws, PassAfter(ws, vals, n).evaluated)
  {
    if n > 0 {
      PassAfterDone(ws, vals, n - 1);
      PassAfterDoneStep(ws, vals, n);
    }
  }

  /** The inductive step of `PassAfterDone`: one more iteration keeps the correspondence. */
  lemma PassAfterDoneStep(ws: seq<ConditionWrapper>, vals: seq<bool>, n: nat)
    requires |vals| == |ws| && 0 < n <= |ws|
    requires PassAfter(ws, vals, n - 1).done == InstancesAt(ws, PassAfter(ws, vals, n - 1).evaluated)
    ensures PassAfter(ws, vals, n).done == InstancesAt(ws, PassAfter(ws, vals, n).evaluated)
  {
    AdvanceDone(ws, vals, n - 1, PassAfter(ws, vals, n - 1));
  }

  /**
   * After `n` iterations the loop agrees with `Fold`: once stopped it holds `Fold`'s outcome,
   * and otherwise `Fold` is what finishing the chain from position `n` adds to it.
   */
  lemma {:induction false} PassAfterFolds(ws: seq<ConditionWrapper>, vals: seq<bool>, n: nat)
    requires |vals| == |ws| && 1 <= n <= |ws|
    ensures PassAfter(ws, vals, n).stopped ==>
      Fold(OpsOf(ws), vals) == FoldOutcome(PassAfter(ws, vals, n).result, PassAfter(ws, vals, n).evaluated)
    ensures !PassAfter(ws, vals, n).stopped ==>
      var t := PassAfter(ws, vals, n);
      var rest := FoldFrom(OpsOf(ws), vals, n, t.result);
      Fold(OpsOf(ws), vals) == FoldOutcome(rest.result, t.evaluated + rest.evaluated)
  {
    var ops := OpsOf(ws);
    if n > 1 {
      PassAfterFolds(ws, vals, n - 1);
      var t := PassAfter(ws, vals, n - 1);
      var k := n - 1;
      assert ops[k] == ws[k].op;
      if !t.stopped && !(!t.result && ops[k] == AND) && !(t.result && ops[k] == OR) {
        var rest := FoldFrom(ops, vals, n, vals[k]);
        assert (t.evaluated + [k]) + rest.evaluated == t.evaluated + ([k] + rest.evaluated);
      } else if !t.stopped && !t.result && ops[k] == AND {
        assert t.evaluated + [] == t.evaluated;
      }
    }
  }

  /** A loop that ran to the end of the chain holds `Fold`'s outcome. */
  lemma PassToEndFolds(ws: seq<ConditionWrapper>, vals: seq<bool>)
    requires |vals| == |ws|
    ensures Fold(OpsOf(ws), vals) == FoldOutcome(PassAfter(ws, vals, |ws|).result, PassAfter(ws, vals, |ws|).evaluated)
  {
    if |ws| > 0 {
      PassAfterFolds(ws, vals, |ws|);
      assert PassAfter(ws, vals, |ws|).evaluated + [] == PassAfter(ws, vals, |ws|).evaluated;
    }
  }

  /** A loop that stopped, or ran to the end of the chain, holds `Fold`'s outcome. */
  lemma PassConcludes(ws: seq<ConditionWrapper>, vals: seq<bool>, n: nat, t: PassTrace)
    requires |vals| == |ws| && n <= |ws| && PassAfter(ws, vals, n) == t
    requires t.stopped || n == |ws|
    ensures Fold(OpsOf(ws), vals) == FoldOutcome(t.result, t.evaluated)
    ensures t.done == InstancesAt(ws, t.evaluated)
  {
    PassAfterDone(ws, vals, n);
    if t.stopped {
      PassAfterFolds(ws, vals, n);
    } else {
      PassToEndFolds(ws, vals);
    }
  }

  /**
   * One iteration of the loop of `IsConditionFulfilledInternal`, at position `i` with the
   * running result `r`: the first entry is always evaluated; after it, a false result
   * meeting AND stops the loop (`stop`), a true result meeting OR skips the entry, and
   * otherwise the entry's condition is evaluated and its outcome becomes the result.
   */
  method PassStep(ws: seq<ConditionWrapper>, outcome: Condition -> bool, i: nat, hasCheckedFirst: bool, r: bool,
                  ghost vals: seq<bool>, ghost evaluated: seq<nat>, ghost done: set<Condition>,
                  ghost cache0: seq<CachedResult>, ghost events0: seq<seq<bool>>)
    returns (r': bool, ghost evaluated': seq<nat>, ghost done': set<Condition>, stop: bool)
    requires NoNulls(ws) && i < |ws| && (hasCheckedFirst <==> i > 0) && vals == ValsOf(ws, outcome)
    requires |cache0| == |ws| && |events0| == |ws|
    requires PassAfter(ws, vals, i) == PassTrace(r, evaluated, done, false)
    requires RefreshedSince(ws, done, outcome, cache0, events0)
    modifies ws[i].instance`cached, ws[i].instance`changeEvents
    ensures PassAfter(ws, vals, i + 1) == PassTrace(r', evaluated', done', stop)
    ensures RefreshedSince(ws, done', outcome, cache0, events0)
  {
    var w := ws[i];
    r', evaluated', done', stop := r, evaluated, done, false;
    if hasCheckedFirst {
      if !r && w.op == AND {
        stop := true;
        return;
      } else if r && w.op == OR {
        return;
      }
    }
    r' := EvaluateEntry(ws, i, outcome, done, cache0, events0);
    evaluated' := evaluated + [i];
    done' := done + {w.instance};
  }

  /**
   * The loop of `IsConditionFulfilledInternal` over the entries `ws`, following `PassAfter`;
   * `evaluated` lists the positions evaluated.
   */
  method EvaluatePass(ws: seq<ConditionWrapper>, outcome: Condition -> bool) returns (r: bool, ghost evaluated: seq<nat>)
    requires NoNulls(ws)
    modifies InstancesOf(ws)`cached, InstancesOf(ws)`changeEvents
    ensures r == Fold(OpsOf(ws), ValsOf(ws, outcome)).result && evaluated == Fold(OpsOf(ws), ValsOf(ws, outcome)).evaluated
    ensures RefreshedSince(ws, InstancesAt(ws, evaluated), outcome, old(CachesOf(ws)), old(LogsOf(ws)))
  {
    ghost var vals := ValsOf(ws, outcome);
    ghost var cache0, events0 := CachesOf(ws), LogsOf(ws);
    r := true;
    var hasCheckedFirst := false;
    evaluated := [];
    ghost var done: set<Condition> := {};
    var i := 0;
    while i < |ws|
      invariant i <= |ws| && (hasCheckedFirst <==> i > 0)
      invariant PassAfter(ws, vals, i) == PassTrace(r, evaluated, done, false)
      invariant RefreshedSince(ws, done, outcome, cache0, events0)
    {
      var stop;
      r, evaluated, done, stop := PassStep(ws, outcome, i, hasCheckedFirst, r, vals, evaluated, done, cache0, events0);
      hasCheckedFirst := true;
      if stop {
        PassConcludes(ws, vals, i + 1, PassTrace(r, evaluated, done, true));
        return;
      }
      i := i + 1;
    }
    PassConcludes(ws, vals, i, PassTrace(r, evaluated, done, false));
  }

  // ---------------------------------------------------------------------------
  // Frame of initialization: the bookkeeping state of each condition

  /** The part of a condition that initializing and uninitializing change. */
  datatype Setup = Setup(initialized: bool, owner: Option<ActorId>, listeners: set<object>, hooks: seq<Hook>,
                         cached: CachedResult, changeEvents: seq<bool>)

  ghost function SetupOf(c: Condition): Setup
    reads c
  {
    Setup(c.initialized, c.owner, c.listeners, c.hooks, c.cached, c.changeEvents)
  }

  ghost function SetupsOf(ws: seq<ConditionWrapper>): (r: seq<Setup>)
    reads InstancesOf(ws)
    ensures |r| == |ws| && forall k :: 0 <= k < |ws| && ws[k].instance != null ==> r[k] == SetupOf(ws[k].instance)
  {
    seq(|ws|, k requires 0 <= k < |ws| reads InstancesOf(ws) =>
      if ws[k].instance != null then SetupOf(ws[k].instance) else Setup(false, None, {}, [], CachedResult.Undefined, []))
  }

  /** What the query does to one condition when it initializes or uninitializes. */
  datatype SetupStep = InitializeStep(newOwner: Option<ActorId>) | UninitializeStep

  /**
   * `Initialize(owner)` followed by subscribing `query`, or `Uninitialize()` followed by
   * unsubscribing it. Both are idempotent, so a condition listed twice ends the same.
   */
  function Apply(step: SetupStep, s: Setup, query: object): (r: Setup)
    ensures step.InitializeStep? ==> r.initialized && query in r.listeners
    ensures step.UninitializeStep? ==> !r.initialized && query !in r.listeners
  {
    match step
    case InitializeStep(o) =>
      Setup(true, if s.initialized then s.owner else o, s.listeners + {query},
            s.hooks + (if s.initialized then [] else [Hook.ValidateData, AddObservers]), s.cached, s.changeEvents)
    case UninitializeStep =>
      Setup(false, s.owner, s.listeners - {query}, s.hooks + (if s.initialized then [RemoveObservers] else []),
            if s.initialized then CachedResult.Undefined else s.cached, s.changeEvents)
  }

  lemma ApplyIdempotent(step: SetupStep, s: Setup, query: object)
    ensures Apply(step, Apply(step, s, query), query) == Apply(step, s, query)
  {
  }

  /**
   * Relative to the setups `setups0` the entries of `ws` had before, the conditions in
   * `done` received `step` and the others are as they were.
   */
  ghost predicate SteppedSince(ws: seq<ConditionWrapper>, done: set<Condition>, step: SetupStep, query: object, setups0: seq<Setup>)
    requires |setups0| == |ws|
    reads InstancesOf(ws)
  {
    forall k :: 0 <= k < |ws| && ws[k].instance != null ==>
      SetupOf(ws[k].instance) == if ws[k].instance in done then Apply(step, setups0[k], query) else setups0[k]
  }

  /** Applies `step` to the condition at position `i`, adding it to the stepped ones. */
  method StepEntry(c: Condition, step: SetupStep, query: object,
                   ghost ws: seq<ConditionWrapper>, ghost done: set<Condition>, ghost setups0: seq<Setup>)
    requires c in InstancesOf(ws) && |setups0| == |ws|
    requires SteppedSince(ws, done, step, query, setups0)
    modifies c
    ensures SteppedSince(ws, done + {c}, step, query, setups0)
  {
    ApplyIdempotent(step, SetupOf(c), query);
    match step
    case InitializeStep(o) =>
      c.Initialize(o);
      c.listeners := c.listeners + {query};
    case UninitializeStep =>
      c.Uninitialize();
      c.listeners := c.listeners - {query};
  }

  lemma InstancesOfCons(ws: seq<ConditionWrapper>, i: nat)
    requires i < |ws|
    ensures InstancesOf(ws[i..]) == InstancesOf(ws[i + 1..]) + (if ws[i].instance != null then {ws[i].instance} else {})
  {
    var a, b := ws[i..], ws[i + 1..];
    forall c | c in InstancesOf(a) ensures c in InstancesOf(b) + (if ws[i].instance != null then {ws[i].instance} else {}) {
      var k :| 0 <= k < |a| && a[k].instance == c;
      if k > 0 {
        assert b[k - 1] == a[k];
      }
    }
    forall c | c in InstancesOf(b) ensures c in InstancesOf(a) {
      var k :| 0 <= k < |b| && b[k].instance == c;
      assert a[k + 1] == b[k];
    }
  }

  /** Dropping the entries without an instance keeps the same conditions and leaves no null entry. */
  lemma {:induction false} PruneKeepsInstances(ws: seq<ConditionWrapper>)
    ensures NoNulls(Filter(ws, HasInstance))
    ensures InstancesOf(Filter(ws, HasInstance)) == InstancesOf(ws)
  {
    if ws != [] {
      PruneKeepsInstances(ws[1..]);
      InstancesOfCons(ws, 0);
      var rest := Filter(ws[1..], HasInstance);
      var pruned := Filter(ws, HasInstance);
      if HasInstance(ws[0]) {
        assert pruned == [ws[0]] + rest;
        InstancesOfCons(pruned, 0);
        assert pruned[1..] == rest;
        assert pruned[0..] == pruned;
      } else {
        assert pruned == rest;
      }
      assert ws[0..] == ws;
    }
  }

  /** The pruning pass: walking the entries backwards and removing each empty one keeps the rest in order. */
  lemma PruneStep(ws: seq<ConditionWrapper>, i: nat)
    requires 0 < i <= |ws|
    ensures Filter(ws[i - 1..], HasInstance) == (if HasInstance(ws[i - 1]) then [ws[i - 1]] else []) + Filter(ws[i..], HasInstance)
  {
    assert ws[i - 1..][1..] == ws[i..];
  }

  /**
   * The pruning pass at position `i - 1`, on the entries `cs` it has left so far: the entry
   * there is the original one, and keeping it (when it has an instance) or removing it
   * (when it has none) extends the pruned part by one position.
   */
  lemma PruneStepAt(ws: seq<ConditionWrapper>, i: nat, cs: seq<ConditionWrapper>)
    requires 0 < i <= |ws| && cs == ws[..i] + Filter(ws[i..], HasInstance)
    ensures i - 1 < |cs| && cs[i - 1] == ws[i - 1]
    ensures HasInstance(ws[i - 1]) ==> cs == ws[..i - 1] + Filter(ws[i - 1..], HasInstance)
    ensures !HasInstance(ws[i - 1]) ==> cs[..i - 1] + cs[i..] == ws[..i - 1] + Filter(ws[i - 1..], HasInstance)
  {
    PruneStep(ws, i);
    assert ws[..i] == ws[..i - 1] + [ws[i - 1]];
    assert cs[..i - 1] == ws[..i - 1];
    assert cs[i..] == Filter(ws[i..], HasInstance);
  }

  /** How many entries of the chain hold the condition `c`. */
  function Occurrences(ws: seq<ConditionWrapper>, c: Condition): nat
  {
    if ws == [] then 0 else Occurrences(ws[..|ws| - 1], c) + (if ws[|ws| - 1].instance == c then 1 else 0)
  }

  /**
   * The effect of one `ConditionQuery.IsConditionFulfilled` call that returned `r`: `r` is
   * `Fold`'s result over the unchanged chain and is cached. The query broadcasts by the same
   * transition rule as a single condition, and exactly the conditions `Fold` evaluates
   * re-cache and broadcast by their own rule.
   */
  twostate predicate Evaluated(q: ConditionQuery, outcome: Condition -> bool, r: bool)
    reads q, q.Instances()
  {
    && q.conditions == old(q.conditions) && NoNulls(q.conditions)
    && r == q.Combined(outcome).result && q.lastEvaluated == q.Combined(outcome).evaluated
    && q.cached == ToCached(r)
    && q.changeEvents == old(q.changeEvents) + EventsOf(old(q.cached), [r])
    && q.evaluations == old(q.evaluations) + 1
    && var ws := q.conditions;
       RefreshedSince(ws, InstancesAt(ws, q.lastEvaluated), outcome, old(CachesOf(ws)), old(LogsOf(ws)))
  }

  /** The hooks `Initialize` runs on one condition: only when neither it nor the query was initialized. */
  function InitHooks(queryWasInitialized: bool, conditionWasInitialized: bool): seq<Hook>
  {
    if queryWasInitialized || conditionWasInitialized then [] else [Hook.ValidateData, AddObservers]
  }

  /**
   * The effect of `ConditionQuery.Initialize(newOwner)` on everything but the conditions'
   * hooks. A query that was initialized already is left exactly as it was, and so are its
   * conditions. Otherwise the query takes the owner and drops its entries without an
   * instance. Every condition is initialized, with `newOwner` unless it had an owner from
   * an earlier initialization, and gains the query as a subscriber beside the ones it had.
   * Then one evaluation caches the combined result and broadcasts it by the transition
   * rule; exactly the conditions it reaches re-cache, as in `Evaluated`.
   */
  twostate predicate SetUp(q: ConditionQuery, newOwner: Option<ActorId>, outcome: Condition -> bool)
    reads q, q.Instances()
  {
    && q.initialized && q.listeners == old(q.listeners) && q.Instances() == old(q.Instances())
    && (old(q.initialized) ==>
          && q.owner == old(q.owner) && q.conditions == old(q.conditions) && q.cached == old(q.cached)
          && q.changeEvents == old(q.changeEvents) && q.lastEvaluated == old(q.lastEvaluated)
          && q.evaluations == old(q.evaluations)
          && forall c | c in q.Instances() ::
               c.initialized == old(c.initialized) && c.owner == old(c.owner) && c.listeners == old(c.listeners)
               && c.cached == old(c.cached) && c.changeEvents == old(c.changeEvents))
    && (!old(q.initialized) ==>
          && q.owner == newOwner && q.conditions == Filter(old(q.conditions), HasInstance) && NoNulls(q.conditions)
          && q.cached == ToCached(q.Combined(outcome).result)
          && q.changeEvents == old(q.changeEvents) + EventsOf(old(q.cached), [q.Combined(outcome).result])
          && q.lastEvaluated == q.Combined(outcome).evaluated
          && q.evaluations == old(q.evaluations) + 1
          && (forall c | c in q.Instances() ::
               c.initialized && c.listeners == old(c.listeners) + {q}
               && c.owner == (if old(c.initialized) then old(c.owner) else newOwner))
          && var ws := q.conditions;
             RefreshedSince(ws, InstancesAt(ws, q.lastEvaluated), outcome, old(CachesOf(ws)), old(LogsOf(ws))))
  }

  class ConditionQuery {
    var conditions: seq<ConditionWrapper>
    var initialized: bool
    var owner: Option<ActorId>
    var cached: CachedResult
    /** Objects subscribed to the query's `OnConditionResultChanged`. */
    var listeners: set<object>

    /** Every broadcast of the query's change event, with its argument. */
    ghost var changeEvents: seq<bool>
    /** The indices evaluated by the latest pass over the chain. */
    ghost var lastEvaluated: seq<nat>
    /** How many times the combined result was recomputed and cached. */
    ghost var evaluations: nat

    ghost function Instances(): set<Condition>
      reads this
    {
      InstancesOf(conditions)
    }

    /** The combined result the chain has right now, given each condition's outcome. */
    ghost function Combined(outcome: Condition -> bool): FoldOutcome
      reads this
      requires NoNulls(conditions)
    {
      Fold(OpsOf(conditions), ValsOf(conditions, outcome))
    }

    constructor (ws: seq<ConditionWrapper>)
      ensures conditions == ws && !initialized && owner == None && cached == CachedResult.Undefined
      ensures listeners == {} && changeEvents == [] && lastEvaluated == [] && evaluations == 0
    {
      conditions := ws;
      initialized := false;
      owner := None;
      cached := CachedResult.Undefined;
      listeners := {};
      changeEvents := [];
      lastEvaluated := [];
      evaluations := 0;
    }

    /**
     * One pass over the chain. It evaluates (and so re-caches) exactly the conditions
     * `Fold` names and returns `Fold`'s result. It does not touch the query's own cache.
     * Every entry must hold an instance: the pass dereferences each one it reaches.
     */
    method IsConditionFulfilledInternal(outcome: Condition -> bool) returns (r: bool)
      requires NoNulls(conditions)
      modifies this`lastEvaluated, Instances()`cached, Instances()`changeEvents
      ensures r == Combined(outcome).result && lastEvaluated == Combined(outcome).evaluated
      ensures RefreshedSince(conditions, InstancesAt(conditions, lastEvaluated), outcome,
                             old(CachesOf(conditions)), old(LogsOf(conditions)))
    {
      ghost var evaluated;
      r, evaluated := EvaluatePass(conditions, outcome);
      lastEvaluated := evaluated;
    }

    /** Recomputes and caches the combined result, broadcasting when it changed. */
    method IsConditionFulfilled(outcome: Condition -> bool) returns (r: bool)
      requires NoNulls(conditions)
      modifies this`cached, this`changeEvents, this`lastEvaluated, this`evaluations
      modifies Instances()`cached, Instances()`changeEvents
      ensures Evaluated(this, outcome, r)
    {
      var previous := cached;
      r := IsConditionFulfilledInternal(outcome);
      cached := ToCached(r);
      if IsTransition(previous, r) {
        changeEvents := changeEvents + [r];
      }
      evaluations := evaluations + 1;
    }

    /** The handler bound to every inner condition's change event: one full re-evaluation. */
    method OnInnerConditionResultChanged(newResult: bool, outcome: Condition -> bool)
      requires NoNulls(conditions)
      modifies this`cached, this`changeEvents, this`lastEvaluated, this`evaluations
      modifies Instances()`cached, Instances()`changeEvents
      ensures Evaluated(this, outcome, Combined(outcome).result)
    {
      var _ := IsConditionFulfilled(outcome);
    }

    /**
     * The backward pass shared by `Initialize` and `Uninitialize`: applies `step` to the
     * condition of every entry that has one and removes every entry that has none.
     */
    method StepAll(step: SetupStep)
      modifies this`conditions, Instances()
      ensures conditions == Filter(old(conditions), HasInstance) && NoNulls(conditions)
      ensures Instances() == old(Instances())
      ensures forall c | c in Instances() :: SetupOf(c) == Apply(step, old(SetupOf(c)), this)
    {
      ghost var ws0 := conditions;
      ghost var setups0 := old(SetupsOf(conditions));
      var i := |conditions|;
      InstancesOfCons(ws0 + [ConditionWrapper(null, AND, false)], |ws0|);
      assert ws0[..|ws0|] == ws0 && ws0[|ws0|..] == [];
      while i > 0
        invariant 0 <= i <= |ws0|
        invariant PassInvariant(ws0, i, step, setups0)
      {
        StepBack(ws0, i, step, setups0);
        i := i - 1;
      }
      PruneKeepsInstances(ws0);
      assert ws0[0..] == ws0 && ws0[..0] == [];
      forall c | c in InstancesOf(ws0)
        ensures SetupOf(c) == Apply(step, old(SetupOf(c)), this)
      {
        var k :| 0 <= k < |ws0| && ws0[k].instance == c;
        assert setups0[k] == old(SetupOf(c));
      }
    }

    /** What the backward pass has done once positions `i` and above of `ws0` are processed. */
    ghost predicate PassInvariant(ws0: seq<ConditionWrapper>, i: nat, step: SetupStep, setups0: seq<Setup>)
      reads this, InstancesOf(ws0)
    {
      i <= |ws0| && |setups0| == |ws0|
      && conditions == ws0[..i] + Filter(ws0[i..], HasInstance)
      && SteppedSince(ws0, InstancesOf(ws0[i..]), step, this, setups0)
    }

    /** One iteration of the backward pass, at position `i - 1`. */
    method StepBack(ghost ws0: seq<ConditionWrapper>, i: nat, step: SetupStep, ghost setups0: seq<Setup>)
      requires 0 < i && PassInvariant(ws0, i, step, setups0)
      modifies this`conditions, InstancesOf(ws0)
      ensures PassInvariant(ws0, i - 1, step, setups0)
    {
      PruneStepAt(ws0, i, conditions);
      InstancesOfCons(ws0, i - 1);
      if conditions[i - 1].instance != null {
        StepEntry(conditions[i - 1].instance, step, this, ws0, InstancesOf(ws0[i..]), setups0);
      } else {
        conditions := conditions[..i - 1] + conditions[i..];
      }
    }

    /**
     * Runs once: records the owner, initializes and subscribes to every condition,
     * removes the entries without an instance (keeping the order of the others), and
     * evaluates the chain to make the cached result current.
     */
    method Initialize(newOwner: Option<ActorId>, outcome: Condition -> bool)
      modifies this, Instances()
      ensures SetUp(this, newOwner, outcome)
      ensures forall c | c in Instances() :: c.hooks == old(c.hooks) + InitHooks(old(initialized), old(c.initialized))
    {
      if !initialized {
        FirstInitialize(newOwner, outcome);
      }
    }

    /** The body of `Initialize` on a query that is not initialized yet. */
    method FirstInitialize(newOwner: Option<ActorId>, outcome: Condition -> bool)
      modifies this`initialized, this`owner, this`conditions, this`cached, this`changeEvents
      modifies this`lastEvaluated, this`evaluations, Instances()
      ensures initialized && owner == newOwner
      ensures conditions == Filter(old(conditions), HasInstance) && NoNulls(conditions)
      ensures Instances() == old(Instances())
      ensures cached == ToCached(Combined(outcome).result) && lastEvaluated == Combined(outcome).evaluated
      ensures changeEvents == old(changeEvents) + EventsOf(old(cached), [Combined(outcome).result])
      ensures evaluations == old(evaluations) + 1
      ensures forall c | c in Instances() ::
        c.initialized && c.listeners == old(c.listeners) + {this}
        && c.owner == (if old(c.initialized) then old(c.owner) else newOwner)
        && c.hooks == old(c.hooks) + InitHooks(false, old(c.initialized))
      ensures var ws := conditions;
        RefreshedSince(ws, InstancesAt(ws, lastEvaluated), outcome, old(CachesOf(ws)), old(LogsOf(ws)))
    {
      InitializeConditions(newOwner);
      label subscribed:
      Activate(newOwner, outcome);
      ghost var ws := conditions;
      assert old@subscribed(CachesOf(ws)) == old(CachesOf(ws));
      assert old@subscribed(LogsOf(ws)) == old(LogsOf(ws));
    }

    /** The tail of `FirstInitialize`: the query is marked initialized and evaluated once. */
    method Activate(newOwner: Option<ActorId>, outcome: Condition -> bool)
      requires NoNulls(conditions)
      modifies this`initialized, this`owner, this`cached, this`changeEvents, this`lastEvaluated, this`evaluations
      modifies Instances()`cached, Instances()`changeEvents
      ensures initialized && owner == newOwner
      ensures Evaluated(this, outcome, Combined(outcome).result)
    {
      initialized := true;
      owner := newOwner;
      var _ := IsConditionFulfilled(outcome);
    }

    /** The backward pass of `Initialize`: every condition initialized with `newOwner` and subscribed to. */
    method InitializeConditions(newOwner: Option<ActorId>)
      modifies this`conditions, Instances()
      ensures conditions == Filter(old(conditions), HasInstance) && NoNulls(conditions)
      ensures Instances() == old(Instances())
      ensures forall c | c in Instances() ::
        c.initialized && c.listeners == old(c.listeners) + {this}
        && c.owner == (if old(c.initialized) then old(c.owner) else newOwner)
        && c.hooks == old(c.hooks) + (if old(c.initialized) then [] else [Hook.ValidateData, AddObservers])
        && c.cached == old(c.cached) && c.changeEvents == old(c.changeEvents)
    {
      StepAll(InitializeStep(newOwner));
      forall c | c in Instances()
        ensures c.initialized && c.listeners == old(c.listeners) + {this}
        ensures c.owner == (if old(c.initialized) then old(c.owner) else newOwner)
        ensures c.hooks == old(c.hooks) + (if old(c.initialized) then [] else [Hook.ValidateData, AddObservers])
        ensures c.cached == old(c.cached) && c.changeEvents == old(c.changeEvents)
      {
        assert SetupOf(c) == Apply(InitializeStep(newOwner), old(SetupOf(c)), this);
      }
    }

    /**
     * Runs once after `Initialize`: clears the cached result, uninitializes and
     * unsubscribes from every condition, and removes the entries without an instance.
     */
    method Uninitialize()
      modifies this, Instances()
      ensures !initialized
      ensures !old(initialized) ==> unchanged(this) && unchanged(old(Instances()))
      ensures old(initialized) ==>
        cached == CachedResult.Undefined && owner == old(owner) && listeners == old(listeners)
        && conditions == Filter(old(conditions), HasInstance) && NoNulls(conditions)
        && Instances() == old(Instances()) && changeEvents == old(changeEvents)
      ensures old(initialized) ==> forall c | c in Instances() ::
        !c.initialized && c.listeners == old(c.listeners) - {this} && c.owner == old(c.owner)
        && c.cached == (if old(c.initialized) then CachedResult.Undefined else old(c.cached))
        && c.hooks == old(c.hooks) + (if old(c.initialized) then [RemoveObservers] else [])
        && c.changeEvents == old(c.changeEvents)
    {
      if initialized {
        initialized := false;
        cached := CachedResult.Undefined;
        StepAll(UninitializeStep);
      }
    }

    /**
     * Forwards `ValidateData` to every entry that holds an instance, first to last: a
     * condition held by several entries has its hook run once per entry.
     */
    method ValidateData()
      modifies Instances()`hooks
      ensures forall k | 0 <= k < |conditions| && conditions[k].instance != null ::
        conditions[k].instance.hooks
        == old(conditions[k].instance.hooks) + Repeat(Hook.ValidateData, Occurrences(conditions, conditions[k].instance))
    {
      var i := 0;
      while i < |conditions|
        invariant 0 <= i <= |conditions|
        invariant forall k | 0 <= k < |conditions| && conditions[k].instance != null ::
          conditions[k].instance.hooks
          == old(conditions[k].instance.hooks) + Repeat(Hook.ValidateData, Occurrences(conditions[..i], conditions[k].instance))
      {
        assert conditions[..i + 1][..i] == conditions[..i];
        var c := conditions[i].instance;
        if c != null {
          RepeatSnoc(Hook.ValidateData, Occurrences(conditions[..i], c));
          c.ValidateData();
        }
        i := i + 1;
      }
      assert conditions[..i] == conditions;
    }
  }

  /** `FDASConditionQueryWrapper`: holds a query instance, null allowed. */
  datatype QueryWrapper = QueryWrapper(instance: ConditionQuery?)

  predicate IsValid(w: QueryWrapper) { w.instance != null }

  /** The conditions of the held query, none without one. */
  ghost function WrappedConditions(w: QueryWrapper): set<Condition>
    reads w.instance
  {
    if w.instance != null then w.instance.Instances() else {}
  }

  /** The held query, none without one. */
  function QueryOf(w: QueryWrapper): set<ConditionQuery>
  {
    if w.instance != null then {w.instance} else {}
  }

  /**
   * A wrapper without a query counts as fulfilled and changes nothing; otherwise it is one
   * `IsConditionFulfilled` call on the query, with all its effects.
   */
  method WrapperIsConditionFulfilled(w: QueryWrapper, outcome: Condition -> bool) returns (r: bool)
    requires w.instance != null ==> NoNulls(w.instance.conditions)
    modifies QueryOf(w)`cached, QueryOf(w)`changeEvents, QueryOf(w)`lastEvaluated, QueryOf(w)`evaluations
    modifies WrappedConditions(w)`cached, WrappedConditions(w)`changeEvents
    ensures w.instance == null ==> r
    ensures w.instance != null ==> Evaluated(w.instance, outcome, r)
  {
    r := true;
    if w.instance != null {
      r := w.instance.IsConditionFulfilled(outcome);
    }
  }

  /**
   * Initializes the held query and reports whether there was one. Without a query nothing
   * changes; with one, the query and its conditions end as `Initialize` leaves them.
   */
  method WrapperInitialize(w: QueryWrapper, newOwner: Option<ActorId>, outcome: Condition -> bool) returns (ok: bool)
    modifies QueryOf(w), WrappedConditions(w)
    ensures ok <==> IsValid(w)
    ensures ok ==> SetUp(w.instance, newOwner, outcome)
    ensures ok ==> forall c | c in w.instance.Instances() ::
      c.hooks == old(c.hooks) + InitHooks(old(w.instance.initialized), old(c.initialized))
  {
    ok := false;
    if w.instance != null {
      w.instance.Initialize(newOwner, outcome);
      ok := true;
    }
  }
}
