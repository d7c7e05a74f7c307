/** Pindex reconciliation of the janitor (manager_janitor.go): which pindexes a node has to add
    and remove to follow the plan, and what applying that leaves. */
module Janitor {
  import opened Common
  import opened Plan

  type PIndexes = map<string, PIndex>

  /** What the janitor reads beside the plan: each index's number of replicas and the number of
      wanted nodes, or nothing when that read fails. */
  datatype Env = Env(numReplicas: Option<map<string, int>>, wantedNodes: Option<nat>)

  predicate PIndexesKeyed(curr: PIndexes) {
    forall n | n in curr :: curr[n].name == n
  }

  // ---------------------------------------------------------------- reusable pindexes

  /** The plan still has fewer assignments than it will get, or none. */
  predicate PlanInProgress(plan: PlanPIndex, env: Env) {
    && env.numReplicas.Some? && plan.indexName in env.numReplicas.value
    && env.wantedNodes.Some?
    && var want := env.numReplicas.value[plan.indexName] + 1;
       |plan.nodes| == 0 || |plan.nodes| < if want < env.wantedNodes.value then want else env.wantedNodes.value
  }

  predicate IsReusable(curr: PIndexes, plan: PlanPIndex, env: Env) {
    plan.name in curr && PlanInProgress(plan, env) && PIndexMatchesPlan(curr[plan.name], plan)
  }

  /** The names of the plans that are in progress and whose pindex is here as they want it. */
  ghost predicate AreReusable(curr: PIndexes, plans: PlanPIndexes, env: Env, reusable: PlanPIndexes) {
    && (forall k | k in plans && IsReusable(curr, plans[k], env) :: plans[k].name in reusable)
    && (forall n | n in reusable ::
        reusable[n].name == n && IsReusable(curr, reusable[n], env) && IsPlan(plans, reusable[n]))
  }

  ghost predicate IsPlan(plans: PlanPIndexes, plan: PlanPIndex) {
    exists k :: k in plans && plans[k] == plan
  }

  method ReusablePIndexesPlanMap(curr: PIndexes, plans: PlanPIndexes, env: Env) returns (reusable: PlanPIndexes)
    ensures AreReusable(curr, plans, env, reusable)
  {
    reusable := map[];
    if env.numReplicas.None? || env.wantedNodes.None? {
      return;
    }
    var todo := plans.Keys;
    while todo != {}
      invariant todo <= plans.Keys
      invariant forall n | n in reusable ::
                  reusable[n].name == n && IsReusable(curr, reusable[n], env) && IsPlan(plans, reusable[n])
      invariant forall k | k in plans && k !in todo && IsReusable(curr, plans[k], env) :: plans[k].name in reusable
      decreases |todo|
    {
      var k :| k in todo;
      todo := todo - {k};
      var plan := plans[k];
      if plan.name in curr {
        if PlanInProgress(plan, env) && PIndexMatchesPlan(curr[plan.name], plan) {
          reusable := reusable[plan.name := plan];
        }
      }
    }
  }

  // ---------------------------------------------------------------- the delta

  predicate WantedHere(mgrUUID: string, plans: PlanPIndexes, n: string) {
    n in plans && mgrUUID in plans[n].nodes
  }

  predicate ToAdd(mgrUUID: string, curr: PIndexes, plans: PlanPIndexes, n: string) {
    WantedHere(mgrUUID, plans, n) && !(n in curr && PIndexMatchesPlan(curr[n], plans[n]))
  }

  predicate ToRemove(mgrUUID: string, curr: PIndexes, plans: PlanPIndexes, reusable: PlanPIndexes, n: string) {
    n in curr &&
    if WantedHere(mgrUUID, plans, n) then !PIndexMatchesPlan(curr[n], plans[n]) else n !in reusable
  }

  ghost predicate DistinctPlans(adds: seq<PlanPIndex>) {
    forall i, j | 0 <= i < j < |adds| :: adds[i].name != adds[j].name
  }

  ghost predicate DistinctPIndexes(removes: seq<PIndex>) {
    forall i, j | 0 <= i < j < |removes| :: removes[i].name != removes[j].name
  }

  /** The lists hold what is to be added and removed, each once. */
  ghost predicate IsDelta(mgrUUID: string, curr: PIndexes, plans: PlanPIndexes, reusable: PlanPIndexes,
                          adds: seq<PlanPIndex>, removes: seq<PIndex>) {
    && DistinctPlans(adds) && DistinctPIndexes(removes)
    && (forall p | p in adds :: ToAdd(mgrUUID, curr, plans, p.name) && plans[p.name] == p)
    && (forall n | ToAdd(mgrUUID, curr, plans, n) :: plans[n] in adds)
    && (forall p | p in removes :: ToRemove(mgrUUID, curr, plans, reusable, p.name) && curr[p.name] == p)
    && (forall n | ToRemove(mgrUUID, curr, plans, reusable, n) :: curr[n] in removes)
  }

  ghost predicate AddsSeen(mgrUUID: string, curr: PIndexes, plans: PlanPIndexes, todo: set<string>,
                           adds: seq<PlanPIndex>)
  {
    && DistinctPlans(adds)
    && (forall p | p in adds :: p.name !in todo && ToAdd(mgrUUID, curr, plans, p.name) && plans[p.name] == p)
    && (forall n | n !in todo && ToAdd(mgrUUID, curr, plans, n) :: plans[n] in adds)
  }

  ghost predicate RemovesSeen(mgrUUID: string, curr: PIndexes, plans: PlanPIndexes, todo: set<string>,
                              removes: seq<PIndex>)
  {
    && DistinctPIndexes(removes)
    && (forall p | p in removes ::
          p.name !in todo && p.name in curr && ToAdd(mgrUUID, curr, plans, p.name) && curr[p.name] == p)
    && (forall n | n !in todo && n in curr && ToAdd(mgrUUID, curr, plans, n) :: curr[n] in removes)
  }

  ghost predicate NamesSeen(mgrUUID: string, curr: PIndexes, plans: PlanPIndexes, reusable: PlanPIndexes,
                            todo: set<string>, wanted: set<string>, removed: set<string>)
  {
    && (forall n :: n in wanted <==> n in reusable || (n !in todo && WantedHere(mgrUUID, plans, n)))
    && (forall n :: n in removed <==> n !in todo && n in curr && ToAdd(mgrUUID, curr, plans, n))
  }

  /** What the first loop leaves, over the plans seen so far. */
  ghost predicate PlansSeen(mgrUUID: string, curr: PIndexes, plans: PlanPIndexes, reusable: PlanPIndexes,
                            todo: set<string>, wanted: set<string>, removed: set<string>,
                            adds: seq<PlanPIndex>, removes: seq<PIndex>)
  {
    && AddsSeen(mgrUUID, curr, plans, todo, adds)
    && RemovesSeen(mgrUUID, curr, plans, todo, removes)
    && NamesSeen(mgrUUID, curr, plans, reusable, todo, wanted, removed)
  }

  lemma AddsStep(mgrUUID: string, curr: PIndexes, plans: PlanPIndexes, todo: set<string>, k: string,
                 adds: seq<PlanPIndex>)
    requires KeyedByName(plans) && k in todo && k in plans && AddsSeen(mgrUUID, curr, plans, todo, adds)
    ensures AddsSeen(mgrUUID, curr, plans, todo - {k},
                     if ToAdd(mgrUUID, curr, plans, k) then adds + [plans[k]] else adds)
  {
  }

  lemma RemovesStep(mgrUUID: string, curr: PIndexes, plans: PlanPIndexes, todo: set<string>, k: string,
                    removes: seq<PIndex>)
    requires PIndexesKeyed(curr) && k in todo && RemovesSeen(mgrUUID, curr, plans, todo, removes)
    ensures RemovesSeen(mgrUUID, curr, plans, todo - {k},
                        if ToAdd(mgrUUID, curr, plans, k) && k in curr then removes + [curr[k]] else removes)
  {
  }

  lemma NamesStep(mgrUUID: string, curr: PIndexes, plans: PlanPIndexes, reusable: PlanPIndexes, todo: set<string>,
                  k: string, wanted: set<string>, removed: set<string>)
    requires k in todo && NamesSeen(mgrUUID, curr, plans, reusable, todo, wanted, removed)
    ensures NamesSeen(mgrUUID, curr, plans, reusable, todo - {k},
                      if WantedHere(mgrUUID, plans, k) then wanted + {k} else wanted,
                      if ToAdd(mgrUUID, curr, plans, k) && k in curr then removed + {k} else removed)
  {
  }

  lemma PlanStep(mgrUUID: string, curr: PIndexes, plans: PlanPIndexes, reusable: PlanPIndexes, todo: set<string>,
                 k: string, wanted: set<string>, removed: set<string>, adds: seq<PlanPIndex>, removes: seq<PIndex>)
    requires PIndexesKeyed(curr) && KeyedByName(plans) && k in todo && k in plans
    requires PlansSeen(mgrUUID, curr, plans, reusable, todo, wanted, removed, adds, removes)
    ensures var add := ToAdd(mgrUUID, curr, plans, k);
            PlansSeen(mgrUUID, curr, plans, reusable, todo - {k},
                      if WantedHere(mgrUUID, plans, k) then wanted + {k} else wanted,
                      if add && k in curr then removed + {k} else removed,
                      if add then adds + [plans[k]] else adds,
                      if add && k in curr then removes + [curr[k]] else removes)
  {
    AddsStep(mgrUUID, curr, plans, todo, k, adds);
    RemovesStep(mgrUUID, curr, plans, todo, k, removes);
    NamesStep(mgrUUID, curr, plans, reusable, todo, k, wanted, removed);
  }

  /** The first loop; those over the nodes of a plan pindex only look for this node's entry. */
  method WantedPlanPIndexes(mgrUUID: string, curr: PIndexes, plans: PlanPIndexes, reusable: PlanPIndexes)
    returns (wanted: set<string>, removed: set<string>, adds: seq<PlanPIndex>, removes: seq<PIndex>)
    ensures PIndexesKeyed(curr) && KeyedByName(plans)
            ==> PlansSeen(mgrUUID, curr, plans, reusable, {}, wanted, removed, adds, removes)
  {
    wanted, removed, adds, removes := reusable.Keys, {}, [], [];
    ghost var keyed := PIndexesKeyed(curr) && KeyedByName(plans);
    var todo := plans.Keys;
    while todo != {}
      invariant todo <= plans.Keys
      invariant keyed ==> PlansSeen(mgrUUID, curr, plans, reusable, todo, wanted, removed, adds, removes)
      decreases |todo|
    {
      var k :| k in todo;
      if keyed {
        PlanStep(mgrUUID, curr, plans, reusable, todo, k, wanted, removed, adds, removes);
      }
      todo := todo - {k};
      var plan := plans[k];
      if mgrUUID in plan.nodes {
        wanted := wanted + {plan.name};
        if plan.name !in curr {
          adds := adds + [plan];
        } else if !PIndexMatchesPlan(curr[plan.name], plan) {
          adds := adds + [plan];
          removes := removes + [curr[plan.name]];
          removed := removed + {curr[plan.name].name};
        }
      }
    }
  }

  /** What the second loop leaves: the mismatched pindexes, and the unwanted ones seen so far. */
  ghost predicate CurrSeen(mgrUUID: string, curr: PIndexes, plans: PlanPIndexes, reusable: PlanPIndexes,
                           todo: set<string>, removed: set<string>, removes: seq<PIndex>) {
    && DistinctPIndexes(removes)
    && (forall n :: n in removed <==>
                      ToRemove(mgrUUID, curr, plans, reusable, n) && (n !in todo || WantedHere(mgrUUID, plans, n)))
    && (forall p | p in removes :: p.name in removed && curr[p.name] == p)
    && (forall n | n in removed :: curr[n] in removes)
  }

  lemma PlansDone(mgrUUID: string, curr: PIndexes, plans: PlanPIndexes, reusable: PlanPIndexes,
                  wanted: set<string>, removed: set<string>, adds: seq<PlanPIndex>, removes: seq<PIndex>)
    requires PIndexesKeyed(curr) && KeyedByName(plans)
    requires PlansSeen(mgrUUID, curr, plans, reusable, {}, wanted, removed, adds, removes)
    ensures CurrSeen(mgrUUID, curr, plans, reusable, curr.Keys, removed, removes)
  {
  }

  lemma CurrStep(mgrUUID: string, curr: PIndexes, plans: PlanPIndexes, reusable: PlanPIndexes,
                 todo: set<string>, k: string, removed: set<string>, removes: seq<PIndex>)
    requires PIndexesKeyed(curr) && k in todo && k in curr
    requires CurrSeen(mgrUUID, curr, plans, reusable, todo, removed, removes)
    ensures var unwanted := k !in reusable && !WantedHere(mgrUUID, plans, k);
            CurrSeen(mgrUUID, curr, plans, reusable, todo - {k},
                     if unwanted && k !in removed then removed + {k} else removed,
                     if unwanted && k !in removed then removes + [curr[k]] else removes)
  {
  }

  /** Exact when both maps are keyed by name, as registerPIndex and the planner store them. */
  method CalcPIndexesDelta(mgrUUID: string, curr: PIndexes, plans: PlanPIndexes, reusable: PlanPIndexes)
    returns (adds: seq<PlanPIndex>, removes: seq<PIndex>)
    ensures PIndexesKeyed(curr) && KeyedByName(plans) ==> IsDelta(mgrUUID, curr, plans, reusable, adds, removes)
  {
    var wanted, removed;
    wanted, removed, adds, removes := WantedPlanPIndexes(mgrUUID, curr, plans, reusable);
    ghost var keyed := PIndexesKeyed(curr) && KeyedByName(plans);
    var todo := curr.Keys;
    if keyed {
      PlansDone(mgrUUID, curr, plans, reusable, wanted, removed, adds, removes);
    }
    while todo != {}
      invariant todo <= curr.Keys
      invariant keyed ==> CurrSeen(mgrUUID, curr, plans, reusable, todo, removed, removes)
      decreases |todo|
    {
      var k :| k in todo;
      if keyed {
        CurrStep(mgrUUID, curr, plans, reusable, todo, k, removed, removes);
      }
      todo := todo - {k};
      var pindex := curr[k];
      if pindex.name !in wanted {
        if pindex.name !in removed {
          removes := removes + [pindex];
          removed := removed + {pindex.name};
        }
      }
    }
  }

  // ---------------------------------------------------------------- applying it

  /** The pindex that startPIndex opens or creates for a plan. */
  function Started(plan: PlanPIndex): (p: PIndex)
    ensures PIndexMatchesPlan(p, plan) && p.hibernationPath == plan.hibernationPath
  {
    PIndex(plan.name, plan.indexType, plan.indexName, plan.indexUUID, plan.indexParams, plan.sourceType,
           plan.sourceName, plan.sourceUUID, plan.sourceParams, plan.sourcePartitions, plan.hibernationPath)
  }

  predicate Stops(removes: seq<PIndex>, n: string) {
    exists p | p in removes :: p.name == n
  }

  predicate Starts(adds: seq<PlanPIndex>, n: string) {
    exists p | p in adds :: p.name == n
  }

  /** The pindexes left once `removes` are stopped and then `adds` started. */
  ghost predicate Reconciled(curr: PIndexes, adds: seq<PlanPIndex>, removes: seq<PIndex>, after: PIndexes) {
    && (forall n :: n in after <==> (n in curr && !Stops(removes, n)) || Starts(adds, n))
    && (forall n | n in curr && !Stops(removes, n) :: after[n] == curr[n])
    && (forall p | p in adds && !(p.name in curr && !Stops(removes, p.name)) :: after[p.name] == Started(p))
  }

  /** When every stop and start succeeds; starting a name that is registered leaves it alone. */
  method Reconcile(curr: PIndexes, adds: seq<PlanPIndex>, removes: seq<PIndex>) returns (after: PIndexes)
    requires DistinctPlans(adds)
    ensures Reconciled(curr, adds, removes, after)
  {
    after := curr;
    for i := 0 to |removes|
      invariant forall n :: n in after <==> n in curr && !Stops(removes[..i], n)
      invariant forall n | n in after :: after[n] == curr[n]
    {
      assert removes[..i + 1] == removes[..i] + [removes[i]];
      after := after - {removes[i].name};
    }
    assert removes[..|removes|] == removes;
    ghost var stopped := after;
    for i := 0 to |adds|
      invariant forall n :: n in after <==> n in stopped || Starts(adds[..i], n)
      invariant forall n | n in stopped :: after[n] == stopped[n]
      invariant forall j | 0 <= j < i && adds[j].name !in stopped :: after[adds[j].name] == Started(adds[j])
    {
      assert adds[..i + 1] == adds[..i] + [adds[i]];
      if adds[i].name !in after {
        after := after[adds[i].name := Started(adds[i])];
      }
    }
    assert adds[..|adds|] == adds;
  }

  /** The pindexes that this node shall end with: those planned here, and those whose plan is still
      in progress and that already are as it wants them. A pindex that matches is left running. */
  predicate InTarget(mgrUUID: string, curr: PIndexes, plans: PlanPIndexes, env: Env, n: string) {
    WantedHere(mgrUUID, plans, n) || (n in plans && IsReusable(curr, plans[n], env))
  }

  function Target(mgrUUID: string, curr: PIndexes, plans: PlanPIndexes, env: Env): (after: PIndexes) {
    map n | n in plans && InTarget(mgrUUID, curr, plans, env, n) ::
      if n in curr && PIndexMatchesPlan(curr[n], plans[n]) then curr[n] else Started(plans[n])
  }

  /** Any delta, computed and applied in any order, leads to the target. */
  lemma DeltaReachesTarget(mgrUUID: string, curr: PIndexes, plans: PlanPIndexes, env: Env, reusable: PlanPIndexes,
                           adds: seq<PlanPIndex>, removes: seq<PIndex>, after: PIndexes)
    requires PIndexesKeyed(curr) && KeyedByName(plans) && AreReusable(curr, plans, env, reusable)
    requires IsDelta(mgrUUID, curr, plans, reusable, adds, removes) && Reconciled(curr, adds, removes, after)
    ensures after == Target(mgrUUID, curr, plans, env)
  {
    var target := Target(mgrUUID, curr, plans, env);
    forall n
      ensures n in after <==> n in target
      ensures n in after ==> after[n] == target[n]
    {
      assert Starts(adds, n) <==> ToAdd(mgrUUID, curr, plans, n) by {
        if ToAdd(mgrUUID, curr, plans, n) { assert plans[n] in adds && plans[n].name == n; }
      }
      assert Stops(removes, n) <==> ToRemove(mgrUUID, curr, plans, reusable, n) by {
        if ToRemove(mgrUUID, curr, plans, reusable, n) { assert curr[n] in removes && curr[n].name == n; }
      }
      assert n in reusable <==> n in plans && IsReusable(curr, plans[n], env);
    }
    assert after == target;
  }

  lemma HasMember<T>(s: seq<T>)
    ensures s == [] || exists x :: x in s
  {
    if s != [] {
      assert s[0] in s;
    }
  }

  /** On the target every pindex matches its plan, and reconciling again changes nothing. */
  lemma TargetMatches(mgrUUID: string, curr: PIndexes, plans: PlanPIndexes, env: Env)
    requires PIndexesKeyed(curr) && KeyedByName(plans)
    ensures var after := Target(mgrUUID, curr, plans, env);
            && PIndexesKeyed(after)
            && (forall n | n in after :: n in plans && PIndexMatchesPlan(after[n], plans[n]))
            && Target(mgrUUID, after, plans, env) == after
  {
    var after := Target(mgrUUID, curr, plans, env);
    assert Target(mgrUUID, after, plans, env) == after;
  }

  lemma NothingToDo(mgrUUID: string, curr: PIndexes, plans: PlanPIndexes, env: Env, reusable: PlanPIndexes, n: string)
    requires PIndexesKeyed(curr) && KeyedByName(plans)
    requires AreReusable(Target(mgrUUID, curr, plans, env), plans, env, reusable)
    ensures var after := Target(mgrUUID, curr, plans, env);
            !ToAdd(mgrUUID, after, plans, n) && !ToRemove(mgrUUID, after, plans, reusable, n)
  {
    var after := Target(mgrUUID, curr, plans, env);
    if n in after && !WantedHere(mgrUUID, plans, n) {
      assert IsReusable(after, plans[n], env);
    }
  }

  /** On the target the next delta is empty. */
  lemma NextDeltaEmpty(mgrUUID: string, curr: PIndexes, plans: PlanPIndexes, env: Env, reusable: PlanPIndexes,
                       adds: seq<PlanPIndex>, removes: seq<PIndex>)
    requires PIndexesKeyed(curr) && KeyedByName(plans)
    requires AreReusable(Target(mgrUUID, curr, plans, env), plans, env, reusable)
    requires IsDelta(mgrUUID, Target(mgrUUID, curr, plans, env), plans, reusable, adds, removes)
    ensures adds == [] && removes == []
  {
    HasMember(adds);
    HasMember(removes);
    forall n {
      NothingToDo(mgrUUID, curr, plans, env, reusable, n);
    }
  }

  /** One round of pindex reconciliation. */
  method JanitorPIndexes(mgrUUID: string, curr: PIndexes, plans: PlanPIndexes, env: Env) returns (after: PIndexes)
    requires PIndexesKeyed(curr) && KeyedByName(plans)
    ensures after == Target(mgrUUID, curr, plans, env)
  {
    var reusable := ReusablePIndexesPlanMap(curr, plans, env);
    var adds, removes := CalcPIndexesDelta(mgrUUID, curr, plans, reusable);
    after := Reconcile(curr, adds, removes);
    DeltaReachesTarget(mgrUUID, curr, plans, env, reusable, adds, removes, after);
  }
}
