/** The janitor's classifier (manager_janitor.go): which of the pindexes to remove can instead be
    restarted or hibernated under one of the plans to add. */
module Classifier {
  import opened Common
  import opened Plan
  import opened Janitor

  datatype IndexDef = IndexDef(
    name: string, uuid: string, sourceName: string, sourceParams: string, sourceType: string,
    sourceUUID: string, indexType: string, params: string, hibernationPath: string)

  datatype ConfigAnalyzeRequest = ConfigAnalyzeRequest(
    indexDefnCur: IndexDef, indexDefnPrev: IndexDef,
    sourcePartitionsCur: set<string>, sourcePartitionsPrev: set<string>)

  /** The delta to classify and the registered index types: `restarts` says whether the type's
      analyzer, if it has one, answers with a restart. */
  datatype Delta = Delta(
    adds: seq<PlanPIndex>, removes: seq<PIndex>,
    types: set<string>, restarts: (string, ConfigAnalyzeRequest) -> bool)

  /** A pindex brought up to its new plan, and that plan. */
  datatype Req = Req(pindex: PIndex, plan: PlanPIndex)

  datatype Item = Remove(pindex: PIndex) | Restart(req: Req) | Hibernate(req: Req)

  // ---------------------------------------------------------------- one pindex

  /** What follows the last underscore of a name, or all of it. */
  function Suffix(name: string): (s: string) {
    if name == "" || name[|name| - 1] == '_' then "" else Suffix(name[..|name| - 1]) + [name[|name| - 1]]
  }

  function PIndexesOf(ps: seq<PIndex>, index: string): (r: seq<PIndex>) {
    if ps == [] then []
    else PIndexesOf(ps[..|ps| - 1], index) + if ps[|ps| - 1].indexName == index then [ps[|ps| - 1]] else []
  }

  function PlansOf(ps: seq<PlanPIndex>, index: string): (r: seq<PlanPIndex>) {
    if ps == [] then []
    else PlansOf(ps[..|ps| - 1], index) + if ps[|ps| - 1].indexName == index then [ps[|ps| - 1]] else []
  }

  function FirstWithSuffix(plans: seq<PlanPIndex>, suffix: string): (r: Option<PlanPIndex>) {
    if plans == [] then None
    else if Suffix(plans[0].name) == suffix then Some(plans[0])
    else FirstWithSuffix(plans[1..], suffix)
  }

  function DefOfPIndex(p: PIndex): (d: IndexDef) {
    IndexDef(p.indexName, p.indexUUID, p.sourceName, p.sourceParams, p.sourceType, p.sourceUUID,
             p.indexType, p.indexParams, p.hibernationPath)
  }

  function DefOfPlan(p: PlanPIndex): (d: IndexDef) {
    IndexDef(p.indexName, p.indexUUID, p.sourceName, p.sourceParams, p.sourceType, p.sourceUUID,
             p.indexType, p.indexParams, p.hibernationPath)
  }

  function PartitionsOf(p: PIndex): (r: set<string>) {
    if p.sourcePartitions == "" then {} else {p.sourcePartitions}
  }

  /** The index is now to be paused, and was not before. */
  predicate IsHibernateChange(cur: string, prev: string) {
    "pause" <= cur && cur != prev
  }

  /** How one pindex is classified, given all plans and all pindexes of its index. */
  function Classify(d: Delta, plans: seq<PlanPIndex>, pindexes: seq<PIndex>, p: PIndex): (item: Item)
    requires plans == [] || pindexes != []
  {
    var target := FirstWithSuffix(plans, Suffix(p.name));
    if target.None? || plans == [] || p.indexType !in d.types then Remove(p) else
    var plan := target.value;
    var cur, prev := DefOfPlan(plans[0]), DefOfPIndex(pindexes[0]);
    var moved := p.(indexUUID := plan.indexUUID, indexParams := plan.indexParams, sourceParams := plan.sourceParams);
    if IsHibernateChange(cur.hibernationPath, prev.hibernationPath) then
      Hibernate(Req(moved.(hibernationPath := plan.hibernationPath), plan))
    else if d.restarts(p.indexType, ConfigAnalyzeRequest(cur, prev, {plan.sourcePartitions}, PartitionsOf(p))) then
      Restart(Req(moved, plan))
    else Remove(p)
  }

  lemma {:induction false} OwnGroup(ps: seq<PIndex>, p: PIndex)
    ensures p in PIndexesOf(ps, p.indexName) <==> p in ps
  {
    if ps != [] {
      var n := |ps| - 1;
      OwnGroup(ps[..n], p);
      assert ps == ps[..n] + [ps[n]];
    }
  }

  function ItemOf(d: Delta, p: PIndex): (item: Item)
    requires p in d.removes
  {
    OwnGroup(d.removes, p);
    Classify(d, PlansOf(d.adds, p.indexName), PIndexesOf(d.removes, p.indexName), p)
  }

  // ---------------------------------------------------------------- all pindexes

  /** The items of those `ps` whose index is in `done`. */
  ghost function ItemsIn(d: Delta, ps: seq<PIndex>, done: set<string>): (items: multiset<Item>)
    requires forall p | p in ps :: p in d.removes
  {
    if ps == [] then multiset{}
    else
      var last := ps[|ps| - 1];
      ItemsIn(d, ps[..|ps| - 1], done) + if last.indexName in done then multiset{ItemOf(d, last)} else multiset{}
  }

  /** The three lists hold these items, each as often as it occurs. */
  ghost predicate Lists(items: multiset<Item>, removes: seq<PIndex>, restarts: seq<Req>, hibernates: seq<Req>) {
    && (forall p :: multiset(removes)[p] == items[Remove(p)])
    && (forall r :: multiset(restarts)[r] == items[Restart(r)])
    && (forall r :: multiset(hibernates)[r] == items[Hibernate(r)])
  }

  /** A request takes the plan of that name and index. */
  ghost predicate Targeted(d: Delta, index: string, name: string) {
    exists p :: p in d.removes && p.indexName == index && Targets(ItemOf(d, p), name)
  }

  predicate Targets(item: Item, name: string) {
    !item.Remove? && item.req.plan.name == name
  }

  ghost function UntargetedIn(d: Delta, plans: seq<PlanPIndex>, done: set<string>): (r: multiset<PlanPIndex>) {
    if plans == [] then multiset{}
    else
      var last := plans[|plans| - 1];
      UntargetedIn(d, plans[..|plans| - 1], done) +
      if last.indexName in done && !Targeted(d, last.indexName, last.name) then multiset{last} else multiset{}
  }

  lemma ListsConcat(items: multiset<Item>, removes: seq<PIndex>, restarts: seq<Req>, hibernates: seq<Req>,
                    items': multiset<Item>, removes': seq<PIndex>, restarts': seq<Req>, hibernates': seq<Req>)
    requires Lists(items, removes, restarts, hibernates) && Lists(items', removes', restarts', hibernates')
    ensures Lists(items + items', removes + removes', restarts + restarts', hibernates + hibernates')
  {
  }

  lemma {:induction false} GroupItems(d: Delta, ps: seq<PIndex>, index: string)
    requires forall p | p in ps :: p in d.removes
    ensures forall p | p in PIndexesOf(ps, index) :: p in d.removes && p.indexName == index
    ensures ItemsIn(d, PIndexesOf(ps, index), {index}) == ItemsIn(d, ps, {index})
  {
    if ps != [] {
      var n := |ps| - 1;
      GroupItems(d, ps[..n], index);
      var group, last := PIndexesOf(ps[..n], index), ps[n];
      assert last in ps && last in d.removes;
      if last.indexName == index {
        assert PIndexesOf(ps, index)[..|group|] == group;
      } else {
        assert PIndexesOf(ps, index) == group;
      }
    }
  }

  lemma {:induction false} ItemsSplit(d: Delta, ps: seq<PIndex>, done: set<string>, index: string)
    requires (forall p | p in ps :: p in d.removes) && index !in done
    ensures ItemsIn(d, ps, done + {index}) == ItemsIn(d, ps, done) + ItemsIn(d, ps, {index})
  {
    if ps != [] {
      var n := |ps| - 1;
      assert ps[n] in ps;
      ItemsSplit(d, ps[..n], done, index);
    }
  }

  lemma {:induction false} PlansWithin(plans: seq<PlanPIndex>, index: string)
    ensures forall p | p in PlansOf(plans, index) :: p.indexName == index && p in plans
  {
    if plans != [] {
      var init, last := plans[..|plans| - 1], plans[|plans| - 1];
      assert plans == init + [last];
      PlansWithin(init, index);
    }
  }

  lemma {:induction false} UntargetedAppend(d: Delta, plans: seq<PlanPIndex>, last: PlanPIndex, done: set<string>)
    ensures UntargetedIn(d, plans + [last], done) ==
            UntargetedIn(d, plans, done) +
            if last.indexName in done && !Targeted(d, last.indexName, last.name) then multiset{last} else multiset{}
  {
    assert (plans + [last])[..|plans|] == plans;
  }

  lemma {:induction false} PlansOfAppend(plans: seq<PlanPIndex>, last: PlanPIndex, index: string)
    ensures PlansOf(plans + [last], index) ==
            if last.indexName == index then PlansOf(plans, index) + [last] else PlansOf(plans, index)
  {
    assert (plans + [last])[..|plans|] == plans;
  }

  lemma {:induction false} GroupUntargeted(d: Delta, plans: seq<PlanPIndex>, index: string)
    ensures UntargetedIn(d, PlansOf(plans, index), {index}) == UntargetedIn(d, plans, {index})
  {
    if plans != [] {
      var init, last := plans[..|plans| - 1], plans[|plans| - 1];
      assert plans == init + [last];
      GroupUntargeted(d, init, index);
      PlansOfAppend(init, last, index);
      UntargetedAppend(d, init, last, {index});
      UntargetedAppend(d, PlansOf(init, index), last, {index});
    }
  }

  lemma GroupPlans(d: Delta, plans: seq<PlanPIndex>, index: string)
    ensures UntargetedIn(d, PlansOf(plans, index), {index}) == UntargetedIn(d, plans, {index})
    ensures forall p | p in PlansOf(plans, index) :: p.indexName == index && p in plans
  {
    GroupUntargeted(d, plans, index);
    PlansWithin(plans, index);
  }

  lemma {:induction false} PlansSplit(d: Delta, plans: seq<PlanPIndex>, done: set<string>, index: string)
    requires index !in done
    ensures UntargetedIn(d, plans, done + {index}) == UntargetedIn(d, plans, done) + UntargetedIn(d, plans, {index})
  {
    if plans != [] {
      PlansSplit(d, plans[..|plans| - 1], done, index);
    }
  }

  // ---------------------------------------------------------------- the loops

  method GroupRemoves(ps: seq<PIndex>) returns (groups: map<string, seq<PIndex>>)
    ensures forall i :: i in groups <==> PIndexesOf(ps, i) != []
    ensures forall i | i in groups :: groups[i] == PIndexesOf(ps, i)
  {
    groups := map[];
    for j := 0 to |ps|
      invariant forall i :: i in groups <==> PIndexesOf(ps[..j], i) != []
      invariant forall i | i in groups :: groups[i] == PIndexesOf(ps[..j], i)
    {
      var p, before := ps[j], ps[..j];
      assert ps[..j + 1][..j] == before && ps[..j + 1][j] == p;
      var group := if p.indexName in groups then groups[p.indexName] else [];
      groups := groups[p.indexName := group + [p]];
    }
    assert ps[..|ps|] == ps;
  }

  method GroupAdds(ps: seq<PlanPIndex>) returns (groups: map<string, seq<PlanPIndex>>)
    ensures forall i :: i in groups <==> PlansOf(ps, i) != []
    ensures forall i | i in groups :: groups[i] == PlansOf(ps, i)
  {
    groups := map[];
    for j := 0 to |ps|
      invariant forall i :: i in groups <==> PlansOf(ps[..j], i) != []
      invariant forall i | i in groups :: groups[i] == PlansOf(ps[..j], i)
    {
      var p, before := ps[j], ps[..j];
      assert ps[..j + 1][..j] == before && ps[..j + 1][j] == p;
      var group := if p.indexName in groups then groups[p.indexName] else [];
      groups := groups[p.indexName := group + [p]];
    }
    assert ps[..|ps|] == ps;
  }

  method FindTarget(plans: seq<PlanPIndex>, name: string) returns (target: Option<PlanPIndex>)
    ensures target == FirstWithSuffix(plans, Suffix(name))
  {
    var suffix := Suffix(name);
    for j := 0 to |plans|
      invariant FirstWithSuffix(plans, suffix) == FirstWithSuffix(plans[j..], suffix)
    {
      if suffix == Suffix(plans[j].name) {
        return Some(plans[j]);
      }
      assert plans[j..][1..] == plans[j + 1..];
    }
    return None;
  }

  method ClassifyPIndex(d: Delta, plans: seq<PlanPIndex>, pindexes: seq<PIndex>, pindex: PIndex) returns (item: Item)
    requires plans != [] && pindexes != []
    ensures item == Classify(d, plans, pindexes, pindex)
  {
    var indexDefnCur, indexDefnPrev := DefOfPlan(plans[0]), DefOfPIndex(pindexes[0]);
    var target := FindTarget(plans, pindex.name);
    if target.None? {
      return Remove(pindex);
    }
    var plan := target.value;
    var req := ConfigAnalyzeRequest(indexDefnCur, indexDefnPrev, {plan.sourcePartitions}, PartitionsOf(pindex));
    if pindex.indexType !in d.types {
      return Remove(pindex);
    }
    if IsHibernateChange(req.indexDefnCur.hibernationPath, req.indexDefnPrev.hibernationPath) {
      return Hibernate(Req(pindex.(indexUUID := plan.indexUUID, indexParams := plan.indexParams,
                                   sourceParams := plan.sourceParams, hibernationPath := plan.hibernationPath), plan));
    }
    if d.restarts(pindex.indexType, req) {
      return Restart(Req(pindex.(indexUUID := plan.indexUUID, indexParams := plan.indexParams,
                                 sourceParams := plan.sourceParams), plan));
    }
    return Remove(pindex);
  }

  lemma ListsAppend(items: multiset<Item>, removes: seq<PIndex>, restarts: seq<Req>, hibernates: seq<Req>, item: Item)
    requires Lists(items, removes, restarts, hibernates)
    ensures Lists(items + multiset{item},
                  if item.Remove? then removes + [item.pindex] else removes,
                  if item.Restart? then restarts + [item.req] else restarts,
                  if item.Hibernate? then hibernates + [item.req] else hibernates)
  {
  }

  /** The lists that one index's pindexes make, and the names of the plans their requests take. */
  datatype Group = Group(removes: seq<PIndex>, restarts: seq<Req>, hibernates: seq<Req>, taken: set<string>)

  function Put(g: Group, item: Item): (g': Group) {
    match item
    case Remove(p) => g.(removes := g.removes + [p])
    case Restart(req) => g.(restarts := g.restarts + [req], taken := g.taken + {req.plan.name})
    case Hibernate(req) => g.(hibernates := g.hibernates + [req], taken := g.taken + {req.plan.name})
  }

  function GroupOf(d: Delta, ps: seq<PIndex>): (g: Group)
    requires forall p | p in ps :: p in d.removes
  {
    if ps == [] then Group([], [], [], {}) else Put(GroupOf(d, ps[..|ps| - 1]), ItemOf(d, ps[|ps| - 1]))
  }

  lemma {:induction false} GroupLists(d: Delta, ps: seq<PIndex>, index: string)
    requires forall p | p in ps :: p in d.removes && p.indexName == index
    ensures var g := GroupOf(d, ps); Lists(ItemsIn(d, ps, {index}), g.removes, g.restarts, g.hibernates)
  {
    if ps != [] {
      var n := |ps| - 1;
      assert ps[n] in ps;
      GroupLists(d, ps[..n], index);
      var g, item := GroupOf(d, ps[..n]), ItemOf(d, ps[n]);
      ListsAppend(ItemsIn(d, ps[..n], {index}), g.removes, g.restarts, g.hibernates, item);
    }
  }

  ghost predicate IsTaken(d: Delta, ps: seq<PIndex>, name: string)
    requires forall p | p in ps :: p in d.removes
  {
    exists p :: p in ps && Targets(ItemOf(d, p), name)
  }

  lemma {:induction false} TakenStep(d: Delta, init: seq<PIndex>, last: PIndex, name: string)
    requires forall p | p in init + [last] :: p in d.removes
    ensures last in d.removes && forall p | p in init :: p in d.removes
    ensures IsTaken(d, init + [last], name) <==> IsTaken(d, init, name) || Targets(ItemOf(d, last), name)
  {
    var ps := init + [last];
    assert last in ps && forall p | p in init :: p in ps;
    if IsTaken(d, init, name) {
      var p :| p in init && Targets(ItemOf(d, p), name);
      assert p in ps;
    }
  }

  lemma {:induction false} TakenIff(d: Delta, ps: seq<PIndex>, name: string)
    requires forall p | p in ps :: p in d.removes
    ensures name in GroupOf(d, ps).taken <==> IsTaken(d, ps, name)
  {
    if ps != [] {
      var n := |ps| - 1;
      assert ps == ps[..n] + [ps[n]];
      TakenStep(d, ps[..n], ps[n], name);
      TakenIff(d, ps[..n], name);
    }
  }

  lemma TakenIsTargeted(d: Delta, index: string, name: string)
    requires forall p | p in PIndexesOf(d.removes, index) :: p in d.removes && p.indexName == index
    ensures name in GroupOf(d, PIndexesOf(d.removes, index)).taken <==> Targeted(d, index, name)
  {
    TakenIff(d, PIndexesOf(d.removes, index), name);
    if Targeted(d, index, name) {
      var p :| p in d.removes && p.indexName == index && Targets(ItemOf(d, p), name);
      OwnGroup(d.removes, p);
    }
  }

  method Append(g: Group, item: Item) returns (g': Group)
    ensures g' == Put(g, item)
  {
    var removes, restarts, hibernates, restartable := g.removes, g.restarts, g.hibernates, g.taken;
    match item {
      case Remove(p) =>
        removes := removes + [p];
      case Restart(req) =>
        restarts := restarts + [req];
        restartable := restartable + {req.plan.name};
      case Hibernate(req) =>
        hibernates := hibernates + [req];
        restartable := restartable + {req.plan.name};
    }
    g' := Group(removes, restarts, hibernates, restartable);
  }

  lemma {:induction false} GroupNext(d: Delta, ps: seq<PIndex>, j: nat)
    requires j < |ps| && forall p | p in ps :: p in d.removes
    ensures ps[j] in d.removes && (forall p | p in ps[..j] :: p in d.removes)
            && (forall p | p in ps[..j + 1] :: p in d.removes)
    ensures GroupOf(d, ps[..j + 1]) == Put(GroupOf(d, ps[..j]), ItemOf(d, ps[j]))
  {
    assert ps[j] in ps;
    assert ps[..j + 1] == ps[..j] + [ps[j]] && ps[..j + 1][..j] == ps[..j];
  }

  /** The pindexes of one index. */
  method ClassifyPIndexes(d: Delta, ghost index: string, pindexes: seq<PIndex>, plans: seq<PlanPIndex>)
    returns (g: Group)
    requires pindexes == PIndexesOf(d.removes, index) != [] && plans == PlansOf(d.adds, index) != []
    requires forall p | p in pindexes :: p in d.removes && p.indexName == index
    ensures g == GroupOf(d, pindexes)
  {
    g := Group([], [], [], {});
    for j := 0 to |pindexes|
      invariant forall p | p in pindexes[..j] :: p in d.removes
      invariant g == GroupOf(d, pindexes[..j])
    {
      GroupNext(d, pindexes, j);
      var item := ClassifyPIndex(d, plans, pindexes, pindexes[j]);
      assert pindexes[j] in pindexes && item == ItemOf(d, pindexes[j]);
      g := Append(g, item);
    }
    assert pindexes[..|pindexes|] == pindexes;
  }

  /** The plans of one index that no request takes. */
  method RemainingPlans(d: Delta, ghost index: string, plans: seq<PlanPIndex>, restartable: set<string>)
    returns (adds: seq<PlanPIndex>)
    requires forall p | p in plans :: p.indexName == index
    requires forall name :: name in restartable <==> Targeted(d, index, name)
    ensures multiset(adds) == UntargetedIn(d, plans, {index})
  {
    adds := [];
    for j := 0 to |plans|
      invariant multiset(adds) == UntargetedIn(d, plans[..j], {index})
    {
      assert plans[..j + 1][..j] == plans[..j] && plans[j] in plans;
      if plans[j].name !in restartable {
        adds := adds + [plans[j]];
      }
    }
    assert plans[..|plans|] == plans;
  }

  // ---------------------------------------------------------------- the classifier

  datatype Classified = Classified(adds: seq<PlanPIndex>, removes: seq<PIndex>, restarts: seq<Req>,
                                   hibernates: seq<Req>)

  /** The lists that the indexes in `done` make. */
  ghost predicate IsClassified(d: Delta, done: set<string>, out: Classified) {
    && Lists(ItemsIn(d, d.removes, done), out.removes, out.restarts, out.hibernates)
    && multiset(out.adds) == UntargetedIn(d, d.adds, done)
  }

  ghost function IndexNames(d: Delta): (names: set<string>) {
    (set p | p in d.removes :: p.indexName) + (set p | p in d.adds :: p.indexName)
  }

  lemma {:induction false} NoIndexes(d: Delta, ps: seq<PIndex>, plans: seq<PlanPIndex>)
    requires forall p | p in ps :: p in d.removes
    ensures ItemsIn(d, ps, {}) == multiset{} && UntargetedIn(d, plans, {}) == multiset{}
    decreases |ps| + |plans|
  {
    if ps != [] {
      NoIndexes(d, ps[..|ps| - 1], plans);
    } else if plans != [] {
      NoIndexes(d, ps, plans[..|plans| - 1]);
    }
  }

  lemma IndexDone(d: Delta, done: set<string>, index: string, out: Classified, g: Group, adds: seq<PlanPIndex>)
    requires IsClassified(d, done, out) && index !in done
    requires Lists(ItemsIn(d, d.removes, {index}), g.removes, g.restarts, g.hibernates)
    requires multiset(adds) == UntargetedIn(d, d.adds, {index})
    ensures IsClassified(d, done + {index},
                         Classified(out.adds + adds, out.removes + g.removes, out.restarts + g.restarts,
                                    out.hibernates + g.hibernates))
  {
    ItemsSplit(d, d.removes, done, index);
    PlansSplit(d, d.adds, done, index);
    ListsConcat(ItemsIn(d, d.removes, done), out.removes, out.restarts, out.hibernates,
                ItemsIn(d, d.removes, {index}), g.removes, g.restarts, g.hibernates);
  }

  lemma NoPlansItem(d: Delta, p: PIndex)
    requires PlansOf(d.adds, p.indexName) == [] && p in d.removes
    ensures ItemOf(d, p) == Remove(p)
  {
    OwnGroup(d.removes, p);
    assert FirstWithSuffix([], Suffix(p.name)).None?;
  }

  lemma {:induction false} NoPlansGroup(d: Delta, index: string, ps: seq<PIndex>)
    requires PlansOf(d.adds, index) == [] && forall p | p in ps :: p in d.removes && p.indexName == index
    ensures GroupOf(d, ps) == Group(ps, [], [], {})
  {
    if ps != [] {
      var init, last := ps[..|ps| - 1], ps[|ps| - 1];
      assert ps == init + [last];
      assert last in ps;
      NoPlansGroup(d, index, init);
      NoPlansItem(d, last);
      assert GroupOf(d, ps) == Put(GroupOf(d, init), Remove(last));
    }
  }

  lemma {:induction false} NoneTargeted(d: Delta, index: string, name: string)
    requires PIndexesOf(d.removes, index) == []
    ensures !Targeted(d, index, name)
  {
    forall p | p in d.removes
      ensures p.indexName != index
    {
      OwnGroup(d.removes, p);
    }
  }

  lemma {:induction false} NoPIndexesGroup(d: Delta, index: string, plans: seq<PlanPIndex>)
    requires PIndexesOf(d.removes, index) == [] && forall p | p in plans :: p.indexName == index
    ensures UntargetedIn(d, plans, {index}) == multiset(plans)
  {
    if plans != [] {
      var n := |plans| - 1;
      assert plans[n] in plans;
      NoneTargeted(d, index, plans[n].name);
      NoPIndexesGroup(d, index, plans[..n]);
      assert plans == plans[..n] + [plans[n]];
    }
  }

  /** One index of the pindexes to remove. */
  method ClassifyIndex(d: Delta, index: string, pindexes: seq<PIndex>, addGroups: map<string, seq<PlanPIndex>>)
    returns (g: Group, adds: seq<PlanPIndex>)
    requires pindexes == PIndexesOf(d.removes, index) != []
    requires index in addGroups <==> PlansOf(d.adds, index) != []
    requires index in addGroups ==> addGroups[index] == PlansOf(d.adds, index)
    ensures Lists(ItemsIn(d, d.removes, {index}), g.removes, g.restarts, g.hibernates)
    ensures multiset(adds) == UntargetedIn(d, d.adds, {index})
  {
    GroupItems(d, d.removes, index);
    GroupPlans(d, d.adds, index);
    GroupLists(d, pindexes, index);
    if index in addGroups {
      var plans := addGroups[index];
      g := ClassifyPIndexes(d, index, pindexes, plans);
      forall name {
        TakenIsTargeted(d, index, name);
      }
      adds := RemainingPlans(d, index, plans, g.taken);
    } else {
      NoPlansGroup(d, index, pindexes);
      g, adds := Group(pindexes, [], [], {}), [];
    }
  }

  lemma NamesOfGroups(d: Delta, index: string)
    ensures index in IndexNames(d) <==> PIndexesOf(d.removes, index) != [] || PlansOf(d.adds, index) != []
  {
    GroupItems(d, d.removes, index);
    GroupPlans(d, d.adds, index);
    if p :| p in d.removes && p.indexName == index {
      OwnGroup(d.removes, p);
    } else if p :| p in d.adds && p.indexName == index {
      OwnPlans(d.adds, p);
    }
    if PIndexesOf(d.removes, index) != [] {
      assert PIndexesOf(d.removes, index)[0] in PIndexesOf(d.removes, index);
    } else if PlansOf(d.adds, index) != [] {
      assert PlansOf(d.adds, index)[0] in PlansOf(d.adds, index);
    }
  }

  lemma {:induction false} OwnPlans(ps: seq<PlanPIndex>, p: PlanPIndex)
    ensures p in PlansOf(ps, p.indexName) <==> p in ps
  {
    if ps != [] {
      var n := |ps| - 1;
      OwnPlans(ps[..n], p);
      assert ps == ps[..n] + [ps[n]];
    }
  }

  /** For every order in which the indexes are visited. */
  method AdvPIndexClassifier(d: Delta, removeGroups: map<string, seq<PIndex>>,
                             allAddGroups: map<string, seq<PlanPIndex>>)
    returns (out: Classified)
    requires forall i :: i in removeGroups <==> PIndexesOf(d.removes, i) != []
    requires forall i | i in removeGroups :: removeGroups[i] == PIndexesOf(d.removes, i)
    requires forall i :: i in allAddGroups <==> PlansOf(d.adds, i) != []
    requires forall i | i in allAddGroups :: allAddGroups[i] == PlansOf(d.adds, i)
    ensures IsClassified(d, IndexNames(d), out)
  {
    ghost var done;
    var addGroups;
    out, addGroups, done := ClassifyRemoved(d, removeGroups, allAddGroups);
    out := RestOfPlans(d, addGroups, done, out);
    forall i
      ensures i in done + addGroups.Keys <==> i in IndexNames(d)
    {
      NamesOfGroups(d, i);
    }
    assert done + addGroups.Keys == IndexNames(d);
  }

  /** The indexes that have pindexes to remove; their plans are taken out of the groups. */
  method ClassifyRemoved(d: Delta, removeGroups: map<string, seq<PIndex>>, allAddGroups: map<string, seq<PlanPIndex>>)
    returns (out: Classified, addGroups: map<string, seq<PlanPIndex>>, ghost done: set<string>)
    requires forall i :: i in removeGroups <==> PIndexesOf(d.removes, i) != []
    requires forall i | i in removeGroups :: removeGroups[i] == PIndexesOf(d.removes, i)
    requires forall i :: i in allAddGroups <==> PlansOf(d.adds, i) != []
    requires forall i | i in allAddGroups :: allAddGroups[i] == PlansOf(d.adds, i)
    ensures IsClassified(d, done, out) && forall i :: i in done <==> i in removeGroups
    ensures forall i :: i in addGroups <==> i in allAddGroups && i !in removeGroups
    ensures forall i | i in addGroups :: addGroups[i] == allAddGroups[i]
  {
    out, done := Classified([], [], [], []), {};
    NoIndexes(d, d.removes, d.adds);
    addGroups := allAddGroups;
    var todo := removeGroups.Keys;
    while todo != {}
      invariant forall i :: i in removeGroups <==> i in todo || i in done
      invariant forall i | i in todo :: i !in done
      invariant forall i :: i in addGroups <==> i in allAddGroups && i !in done
      invariant forall i | i in addGroups :: addGroups[i] == allAddGroups[i]
      invariant IsClassified(d, done, out)
      decreases |todo|
    {
      var index :| index in todo;
      var g, adds := ClassifyIndex(d, index, removeGroups[index], addGroups);
      IndexDone(d, done, index, out, g, adds);
      out := Classified(out.adds + adds, out.removes + g.removes, out.restarts + g.restarts,
                        out.hibernates + g.hibernates);
      addGroups := addGroups - {index};
      todo := todo - {index};
      done := done + {index};
    }
  }

  /** The plans of the indexes that have no pindex to remove. */
  method RestOfPlans(d: Delta, addGroups: map<string, seq<PlanPIndex>>, ghost done: set<string>, sofar: Classified)
    returns (out: Classified)
    requires forall i | i in addGroups ::
             i !in done && PIndexesOf(d.removes, i) == [] && addGroups[i] == PlansOf(d.adds, i)
    requires IsClassified(d, done, sofar)
    ensures IsClassified(d, done + addGroups.Keys, out)
  {
    out := sofar;
    var todo := addGroups.Keys;
    ghost var seen := done;
    while todo != {}
      invariant todo <= addGroups.Keys && seen == done + (addGroups.Keys - todo)
      invariant IsClassified(d, seen, out)
      decreases |todo|
    {
      var index :| index in todo;
      RestDone(d, seen, index, out);
      out := out.(adds := out.adds + addGroups[index]);
      todo := todo - {index};
      seen := seen + {index};
    }
    assert seen == done + addGroups.Keys;
  }

  lemma RestDone(d: Delta, done: set<string>, index: string, out: Classified)
    requires IsClassified(d, done, out) && index !in done && PIndexesOf(d.removes, index) == []
    ensures IsClassified(d, done + {index}, out.(adds := out.adds + PlansOf(d.adds, index)))
  {
    var plans := PlansOf(d.adds, index);
    GroupItems(d, d.removes, index);
    GroupPlans(d, d.adds, index);
    NoPIndexesGroup(d, index, plans);
    IndexDone(d, done, index, out, Group([], [], [], {}), plans);
    assert out.(adds := out.adds + plans)
        == Classified(out.adds + plans, out.removes + [], out.restarts + [], out.hibernates + []);
  }

  method ClassifyAddRemoveRestartPIndexes(d: Delta) returns (out: Classified)
    ensures IsClassified(d, IndexNames(d), out)
  {
    if |d.removes| == 0 {
      out := Classified(d.adds, [], [], []);
      AllUntargeted(d, d.adds);
      return;
    }
    var removeGroups := GroupRemoves(d.removes);
    var addGroups := GroupAdds(d.adds);
    out := AdvPIndexClassifier(d, removeGroups, addGroups);
  }

  lemma {:induction false} AllUntargeted(d: Delta, plans: seq<PlanPIndex>)
    requires d.removes == [] && forall p | p in plans :: p in d.adds
    ensures UntargetedIn(d, plans, IndexNames(d)) == multiset(plans)
  {
    if plans != [] {
      var init, last := plans[..|plans| - 1], plans[|plans| - 1];
      assert plans == init + [last];
      AllUntargeted(d, init);
      UntargetedAppend(d, init, last, IndexNames(d));
      NoneTargeted(d, last.indexName, last.name);
    }
  }

  // ---------------------------------------------------------------- conservation

  function NameOf(item: Item): (name: string) {
    if item.Remove? then item.pindex.name else item.req.pindex.name
  }

  lemma {:induction false} TargetIsAPlan(plans: seq<PlanPIndex>, suffix: string)
    ensures var r := FirstWithSuffix(plans, suffix);
            r.Some? ==> r.value in plans && Suffix(r.value.name) == suffix
  {
    if plans != [] {
      TargetIsAPlan(plans[1..], suffix);
    }
  }

  /** An item is about its pindex, and its plan is one to add for the same index, with the same
      last part of the name. */
  lemma ItemIsAbout(d: Delta, p: PIndex)
    requires p in d.removes
    ensures var item := ItemOf(d, p);
            && NameOf(item) == p.name
            && (!item.Remove? ==>
                  && item.req.plan in d.adds && item.req.plan.indexName == p.indexName
                  && Suffix(item.req.plan.name) == Suffix(p.name)
                  && PIndexMatchesPlan(item.req.pindex, item.req.plan.(
                       name := p.name, indexType := p.indexType, sourceType := p.sourceType, sourceName := p.sourceName,
                       sourceUUID := p.sourceUUID, sourcePartitions := p.sourcePartitions)))
  {
    TargetIsAPlan(PlansOf(d.adds, p.indexName), Suffix(p.name));
    GroupPlans(d, d.adds, p.indexName);
  }

  lemma {:induction false} ItemsFrom(d: Delta, ps: seq<PIndex>, done: set<string>, item: Item)
    requires (forall p | p in ps :: p in d.removes) && item in ItemsIn(d, ps, done)
    ensures exists p :: p in ps && ItemOf(d, p) == item
  {
    var n := |ps| - 1;
    assert ps[n] in ps;
    if item in ItemsIn(d, ps[..n], done) {
      ItemsFrom(d, ps[..n], done, item);
      var p :| p in ps[..n] && ItemOf(d, p) == item;
      assert p in ps;
    }
  }

  lemma {:induction false} ItemOnce(d: Delta, ps: seq<PIndex>, done: set<string>, p: PIndex)
    requires (forall q | q in ps :: q in d.removes && q.indexName in done) && DistinctPIndexes(ps) && p in ps
    ensures ItemsIn(d, ps, done)[ItemOf(d, p)] == 1
  {
    var init, last := ps[..|ps| - 1], ps[|ps| - 1];
    assert ps == init + [last] && last in ps;
    if p in init {
      ItemOnce(d, init, done, p);
      assert p.name != last.name;
      ItemIsAbout(d, p);
      ItemIsAbout(d, last);
    } else if ItemOf(d, p) in ItemsIn(d, init, done) {
      ItemsFrom(d, init, done, ItemOf(d, p));
      var q :| q in init && ItemOf(d, q) == ItemOf(d, p);
      ItemIsAbout(d, p);
      ItemIsAbout(d, q);
    }
  }

  /** How often the item is in its list. */
  function Occurs(out: Classified, item: Item): (n: nat) {
    match item
    case Remove(p) => multiset(out.removes)[p]
    case Restart(r) => multiset(out.restarts)[r]
    case Hibernate(r) => multiset(out.hibernates)[r]
  }

  /** The item is in its list once, and no list has another entry of that name. */
  ghost predicate OnlyEntry(out: Classified, item: Item) {
    && Occurs(out, item) == 1
    && forall x | Occurs(out, x) > 0 && NameOf(x) == NameOf(item) :: x == item
  }

  lemma OccursAsItem(d: Delta, out: Classified, item: Item)
    requires IsClassified(d, IndexNames(d), out)
    ensures Occurs(out, item) == ItemsIn(d, d.removes, IndexNames(d))[item]
  {
  }

  lemma SameName(d: Delta, p: PIndex, item: Item)
    requires DistinctPIndexes(d.removes) && p in d.removes
    requires item in ItemsIn(d, d.removes, IndexNames(d)) && NameOf(item) == p.name
    ensures item == ItemOf(d, p)
  {
    ItemsFrom(d, d.removes, IndexNames(d), item);
    var q :| q in d.removes && ItemOf(d, q) == item;
    ItemIsAbout(d, q);
    SamePIndex(d.removes, p, q);
  }

  lemma SamePIndex(ps: seq<PIndex>, p: PIndex, q: PIndex)
    requires DistinctPIndexes(ps) && p in ps && q in ps && p.name == q.name
    ensures p == q
  {
  }

  /** Every pindex to remove ends in exactly one of the lists remove, restart and hibernate. */
  lemma RemovedExactlyOnce(d: Delta, out: Classified, p: PIndex)
    requires IsClassified(d, IndexNames(d), out) && DistinctPIndexes(d.removes) && p in d.removes
    ensures OnlyEntry(out, ItemOf(d, p)) && NameOf(ItemOf(d, p)) == p.name
  {
    var item := ItemOf(d, p);
    ItemOnce(d, d.removes, IndexNames(d), p);
    ItemIsAbout(d, p);
    OccursAsItem(d, out, item);
    forall x | Occurs(out, x) > 0 && NameOf(x) == p.name
      ensures x == item
    {
      OccursAsItem(d, out, x);
      SameName(d, p, x);
    }
  }

  lemma {:induction false} UntargetedCount(d: Delta, plans: seq<PlanPIndex>, done: set<string>, q: PlanPIndex)
    requires q.indexName in done
    ensures UntargetedIn(d, plans, done)[q] == if Targeted(d, q.indexName, q.name) then 0 else multiset(plans)[q]
  {
    if plans != [] {
      var n := |plans| - 1;
      UntargetedCount(d, plans[..n], done, q);
      assert plans == plans[..n] + [plans[n]];
    }
  }

  /** The plan is the target of a restart or hibernate request. */
  ghost predicate TakenBy(out: Classified, q: PlanPIndex) {
    exists r :: (r in out.restarts || r in out.hibernates) && r.plan == q
  }

  lemma TakenFrom(d: Delta, out: Classified, q: PlanPIndex) returns (p: PIndex)
    requires IsClassified(d, IndexNames(d), out) && TakenBy(out, q)
    ensures p in d.removes && !ItemOf(d, p).Remove? && ItemOf(d, p).req.plan == q
  {
    var r :| (r in out.restarts || r in out.hibernates) && r.plan == q;
    var items := ItemsIn(d, d.removes, IndexNames(d));
    var item := if r in out.restarts then Restart(r) else Hibernate(r);
    assert multiset(out.restarts)[r] == items[Restart(r)] && multiset(out.hibernates)[r] == items[Hibernate(r)];
    ItemsFrom(d, d.removes, IndexNames(d), item);
    p :| p in d.removes && ItemOf(d, p) == item;
  }

  lemma TargetedIsTaken(d: Delta, out: Classified, q: PlanPIndex)
    requires IsClassified(d, IndexNames(d), out) && DistinctPlans(d.adds) && DistinctPIndexes(d.removes) && q in d.adds
    requires Targeted(d, q.indexName, q.name)
    ensures TakenBy(out, q)
  {
    var p :| p in d.removes && p.indexName == q.indexName && Targets(ItemOf(d, p), q.name);
    ItemIsAbout(d, p);
    SamePlan(d.adds, ItemOf(d, p).req.plan, q);
    RemovedExactlyOnce(d, out, p);
  }

  lemma SamePlan(plans: seq<PlanPIndex>, p: PlanPIndex, q: PlanPIndex)
    requires DistinctPlans(plans) && p in plans && q in plans && p.name == q.name
    ensures p == q
  {
  }

  /** Every plan to add is in the add list exactly once or is taken by a request, never both; the
      add list holds nothing else. */
  lemma PlansConserved(d: Delta, out: Classified, q: PlanPIndex)
    requires IsClassified(d, IndexNames(d), out) && DistinctPlans(d.adds) && DistinctPIndexes(d.removes)
    ensures q in d.adds ==> multiset(out.adds)[q] == if TakenBy(out, q) then 0 else 1
    ensures q in out.adds || TakenBy(out, q) ==> q in d.adds
  {
    if q in d.adds {
      UntargetedCount(d, d.adds, IndexNames(d), q);
      PlanOnce(d.adds, q);
      if Targeted(d, q.indexName, q.name) {
        TargetedIsTaken(d, out, q);
      }
    }
    if q in out.adds {
      UntargetedFrom(d, d.adds, IndexNames(d), q);
    }
    if TakenBy(out, q) {
      var p := TakenFrom(d, out, q);
      ItemIsAbout(d, p);
      assert Targets(ItemOf(d, p), q.name);
    }
  }

  lemma {:induction false} PlanOnce(plans: seq<PlanPIndex>, q: PlanPIndex)
    requires DistinctPlans(plans) && q in plans
    ensures multiset(plans)[q] == 1
  {
    var init, last := plans[..|plans| - 1], plans[|plans| - 1];
    assert plans == init + [last];
    if q in init {
      PlanOnce(init, q);
    }
  }

  lemma {:induction false} UntargetedFrom(d: Delta, plans: seq<PlanPIndex>, done: set<string>, q: PlanPIndex)
    requires q in UntargetedIn(d, plans, done)
    ensures q in plans
  {
    var n := |plans| - 1;
    if q in UntargetedIn(d, plans[..n], done) {
      UntargetedFrom(d, plans[..n], done, q);
    }
  }

  // ---------------------------------------------------------------- one request per plan

  /** The item is one of the restart and hibernate requests. */
  predicate IsRequest(out: Classified, item: Item) {
    !item.Remove? && Occurs(out, item) > 0
  }

  /** No two requests take the same plan. */
  ghost predicate OneRequestEach(out: Classified) {
    forall x, y | IsRequest(out, x) && IsRequest(out, y) && x.req.plan == y.req.plan :: x == y
  }

  /** The pindex can be reused under a plan: there is one with the same last part of the name, its
      type is known, and its index is to hibernate or its analyzer says restart. */
  predicate CanReuse(d: Delta, p: PIndex)
    requires p in d.removes
  {
    OwnGroup(d.removes, p);
    var plans, pindexes := PlansOf(d.adds, p.indexName), PIndexesOf(d.removes, p.indexName);
    var target := FirstWithSuffix(plans, Suffix(p.name));
    && plans != [] && target.Some? && p.indexType in d.types
    && var cur, prev := DefOfPlan(plans[0]), DefOfPIndex(pindexes[0]);
       || IsHibernateChange(cur.hibernationPath, prev.hibernationPath)
       || d.restarts(p.indexType, ConfigAnalyzeRequest(cur, prev, {target.value.sourcePartitions}, PartitionsOf(p)))
  }

  /** No two pindexes of an index that can be reused have the same last part of the name. */
  ghost predicate DistinctSuffixes(d: Delta) {
    forall p, q | p in d.removes && q in d.removes && p != q && p.indexName == q.indexName
                  && CanReuse(d, p) && CanReuse(d, q) :: Suffix(p.name) != Suffix(q.name)
  }

  lemma ReusableIsRequest(d: Delta, p: PIndex)
    requires p in d.removes
    ensures CanReuse(d, p) <==> !ItemOf(d, p).Remove?
    ensures CanReuse(d, p) ==>
              Some(ItemOf(d, p).req.plan) == FirstWithSuffix(PlansOf(d.adds, p.indexName), Suffix(p.name))
  {
    OwnGroup(d.removes, p);
  }

  lemma RequestFrom(d: Delta, out: Classified, item: Item) returns (p: PIndex)
    requires IsClassified(d, IndexNames(d), out) && IsRequest(out, item)
    ensures p in d.removes && ItemOf(d, p) == item && CanReuse(d, p)
  {
    OccursAsItem(d, out, item);
    ItemsFrom(d, d.removes, IndexNames(d), item);
    p :| p in d.removes && ItemOf(d, p) == item;
    ReusableIsRequest(d, p);
  }

  lemma ReusableRequested(d: Delta, out: Classified, p: PIndex)
    requires IsClassified(d, IndexNames(d), out) && DistinctPIndexes(d.removes) && p in d.removes && CanReuse(d, p)
    ensures IsRequest(out, ItemOf(d, p))
  {
    ReusableIsRequest(d, p);
    RemovedExactlyOnce(d, out, p);
  }

  lemma SamePlanTwice(d: Delta, out: Classified, p: PIndex, q: PIndex)
    requires IsClassified(d, IndexNames(d), out) && DistinctPIndexes(d.removes) && OneRequestEach(out)
    requires p in d.removes && q in d.removes && p.indexName == q.indexName && Suffix(p.name) == Suffix(q.name)
    requires CanReuse(d, p) && CanReuse(d, q)
    ensures p == q
  {
    ReusableRequested(d, out, p);
    ReusableRequested(d, out, q);
    ReusableIsRequest(d, p);
    ReusableIsRequest(d, q);
    ItemIsAbout(d, p);
    ItemIsAbout(d, q);
    SamePIndex(d.removes, p, q);
  }

  /** Every plan is taken by at most one request, if and only if the pindexes of an index that can be
      reused differ in the last part of their names. */
  lemma OneRequestEachIff(d: Delta, out: Classified)
    requires IsClassified(d, IndexNames(d), out) && DistinctPIndexes(d.removes)
    ensures OneRequestEach(out) <==> DistinctSuffixes(d)
  {
    if OneRequestEach(out) {
      forall p, q | p in d.removes && q in d.removes && p.indexName == q.indexName
                    && CanReuse(d, p) && CanReuse(d, q) && Suffix(p.name) == Suffix(q.name)
        ensures p == q
      {
        SamePlanTwice(d, out, p, q);
      }
    }
    if DistinctSuffixes(d) {
      forall x, y | IsRequest(out, x) && IsRequest(out, y) && x.req.plan == y.req.plan
        ensures x == y
      {
        var p := RequestFrom(d, out, x);
        var q := RequestFrom(d, out, y);
        ItemIsAbout(d, p);
        ItemIsAbout(d, q);
      }
    }
  }

  const OLD := PIndex("u_a", "t", "i", "u", "", "", "", "", "", "", "")
  const OLDER := PIndex("v_a", "t", "i", "v", "", "", "", "", "", "", "")
  const NEW := PlanPIndex("w_a", "", "t", "i", "w", "", "", "", "", "", "", "", map[])

  /** Two generations of a pindex that are both still open have the same last part of the name. */
  function TwoGenerations(): (d: Delta) {
    Delta([NEW], [OLD, OLDER], {"t"}, (_, _) => true)
  }

  lemma SuffixOf(c: char)
    requires c != '_'
    ensures Suffix([c, '_', 'a']) == "a"
  {
    var name := [c, '_', 'a'];
    assert name[..2] == [c, '_'];
    assert Suffix(name[..2]) == "";
  }

  lemma GenerationReused(p: PIndex)
    requires p == OLD || p == OLDER
    ensures p in TwoGenerations().removes && CanReuse(TwoGenerations(), p) && Suffix(p.name) == "a"
  {
    var d := TwoGenerations();
    assert OLD == d.removes[0] && OLDER == d.removes[1];
    OwnGroup(d.removes, p);
    SuffixOf(p.name[0]);
    SuffixOf('w');
    assert p.name == [p.name[0], '_', 'a'];
    assert d.adds[..0] == [];
    assert PlansOf(d.adds, "i") == [NEW];
  }

  /** Both are to be restarted as the same new pindex. */
  lemma TakenTwice(out: Classified)
    requires IsClassified(TwoGenerations(), IndexNames(TwoGenerations()), out)
    ensures DistinctPIndexes(TwoGenerations().removes) && !OneRequestEach(out)
  {
    GenerationReused(OLD);
    GenerationReused(OLDER);
    OneRequestEachIff(TwoGenerations(), out);
  }
}
