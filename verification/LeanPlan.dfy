/** The lean form of a plan (cfg_metakv_lean.go): one child per index, with the fields that the
    pindexes of an index share written once. */
module LeanPlan {
  import opened Plan
  import Version

  type Warnings = map<string, seq<string>>

  datatype FullPlan = FullPlan(uuid: string, implVersion: string, plans: PlanPIndexes, warnings: Warnings)

  datatype LeanDef = LeanDef(
    name: string, uuid: string, sourceName: string, sourceParams: string, sourceType: string,
    sourceUUID: string, indexType: string, params: string)

  datatype LeanPIndex = LeanPIndex(name: string, uuid: string, sourcePartitions: string, nodes: Nodes)

  datatype LeanIndex = LeanIndex(def: LeanDef, pindexes: map<string, LeanPIndex>)

  type LeanIndexes = map<string, LeanIndex>

  datatype Child = Child(uuid: string, implVersion: string, indexes: LeanIndexes, warnings: Warnings)

  function DefOf(p: PlanPIndex): (d: LeanDef) {
    LeanDef(p.indexName, p.indexUUID, p.sourceName, p.sourceParams, p.sourceType, p.sourceUUID, p.indexType,
            p.indexParams)
  }

  function LeanOf(p: PlanPIndex): (l: LeanPIndex) {
    LeanPIndex(p.name, p.uuid, p.sourcePartitions, p.nodes)
  }

  /** A pindex put together again; the lean form has no hibernation path. */
  function Woven(d: LeanDef, l: LeanPIndex): (p: PlanPIndex) {
    PlanPIndex(l.name, l.uuid, d.indexType, d.name, d.uuid, d.params, d.sourceType, d.sourceName,
               d.sourceUUID, d.sourceParams, l.sourcePartitions, "", l.nodes)
  }

  // ---------------------------------------------------------------- writing

  ghost predicate IsDefOf(plans: PlanPIndexes, todo: set<string>, i: string, d: LeanDef) {
    exists k :: k in plans && k !in todo && plans[k].indexName == i && DefOf(plans[k]) == d
  }

  ghost predicate IsLeanOf(plans: PlanPIndexes, todo: set<string>, i: string, l: LeanPIndex) {
    exists k :: k in plans && k !in todo && plans[k].indexName == i && LeanOf(plans[k]) == l
  }

  predicate Has(lean: LeanIndexes, i: string, n: string) {
    i in lean && n in lean[i].pindexes
  }

  /** `lean` groups the pindexes that are not left to do, each under its index and its name; the shared fields of an
      index are those of one of its pindexes. */
  ghost predicate IsLean(plans: PlanPIndexes, todo: set<string>, lean: LeanIndexes) {
    && (forall k | k in plans && k !in todo :: Has(lean, plans[k].indexName, plans[k].name))
    && (forall i | i in lean :: IsDefOf(plans, todo, i, lean[i].def))
    && (forall i, n | Has(lean, i, n) :: lean[i].pindexes[n].name == n && IsLeanOf(plans, todo, i, lean[i].pindexes[n]))
  }

  method AddPIndex(lean0: LeanIndexes, ppi: PlanPIndex) returns (lean: LeanIndexes)
    ensures lean == WithPIndex(lean0, ppi)
  {
    lean := lean0;
    if ppi.indexName !in lean {
      lean := lean[ppi.indexName := LeanIndex(DefOf(ppi), map[])];
    }
    if ppi.name !in lean[ppi.indexName].pindexes {
      var index := lean[ppi.indexName];
      lean := lean[ppi.indexName := index.(pindexes := index.pindexes[ppi.name := LeanOf(ppi)])];
    }
  }

  method GroupByIndex(plans: PlanPIndexes) returns (lean: LeanIndexes)
    ensures IsLean(plans, {}, lean)
  {
    lean := map[];
    var todo := plans.Keys;
    while todo != {}
      invariant todo <= plans.Keys && IsLean(plans, todo, lean)
      decreases |todo|
    {
      var k :| k in todo;
      lean := AddNext(plans, todo, lean, k);
      todo := todo - {k};
    }
  }

  method AddNext(plans: PlanPIndexes, ghost todo: set<string>, lean: LeanIndexes, k: string) returns (next: LeanIndexes)
    requires k in plans && IsLean(plans, todo, lean)
    ensures IsLean(plans, todo - {k}, next)
  {
    LeanStep(plans, todo, lean, k);
    next := AddPIndex(lean, plans[k]);
  }

  function WithPIndex(lean: LeanIndexes, ppi: PlanPIndex): (r: LeanIndexes) {
    var index := if ppi.indexName in lean then lean[ppi.indexName] else LeanIndex(DefOf(ppi), map[]);
    lean[ppi.indexName := if ppi.name in index.pindexes then index
                          else index.(pindexes := index.pindexes[ppi.name := LeanOf(ppi)])]
  }

  lemma DefStep(plans: PlanPIndexes, todo: set<string>, lean: LeanIndexes, k: string, i: string)
    requires k in plans && IsLean(plans, todo, lean) && i in WithPIndex(lean, plans[k])
    ensures IsDefOf(plans, todo - {k}, i, WithPIndex(lean, plans[k])[i].def)
  {
    var todo' := todo - {k};
    assert k !in todo';
    if i in lean {
      assert IsDefOf(plans, todo, i, lean[i].def);
      var j :| j in plans && j !in todo && plans[j].indexName == i && DefOf(plans[j]) == lean[i].def;
      assert j !in todo';
    }
  }

  lemma PIndexStep(plans: PlanPIndexes, todo: set<string>, lean: LeanIndexes, k: string, i: string, n: string)
    requires k in plans && IsLean(plans, todo, lean) && Has(WithPIndex(lean, plans[k]), i, n)
    ensures var l := WithPIndex(lean, plans[k])[i].pindexes[n]; l.name == n && IsLeanOf(plans, todo - {k}, i, l)
  {
    var todo' := todo - {k};
    assert k !in todo';
    if Has(lean, i, n) {
      assert IsLeanOf(plans, todo, i, lean[i].pindexes[n]);
      var j :| j in plans && j !in todo && plans[j].indexName == i && LeanOf(plans[j]) == lean[i].pindexes[n];
      assert j !in todo';
    }
  }

  lemma HasStep(lean: LeanIndexes, ppi: PlanPIndex, i: string, n: string)
    requires Has(lean, i, n) || (ppi.indexName == i && ppi.name == n)
    ensures Has(WithPIndex(lean, ppi), i, n)
  {
  }

  lemma LeanStep(plans: PlanPIndexes, todo: set<string>, lean: LeanIndexes, k: string)
    requires k in plans && IsLean(plans, todo, lean)
    ensures IsLean(plans, todo - {k}, WithPIndex(lean, plans[k]))
  {
    var todo', lean' := todo - {k}, WithPIndex(lean, plans[k]);
    forall i | i in lean'
      ensures IsDefOf(plans, todo', i, lean'[i].def)
    {
      DefStep(plans, todo, lean, k, i);
    }
    forall i, n | Has(lean', i, n)
      ensures lean'[i].pindexes[n].name == n && IsLeanOf(plans, todo', i, lean'[i].pindexes[n])
    {
      PIndexStep(plans, todo, lean, k, i, n);
    }
    forall j | j in plans && j !in todo'
      ensures Has(lean', plans[j].indexName, plans[j].name)
    {
      HasStep(lean, plans[k], plans[j].indexName, plans[j].name);
    }
  }

  /** One child per index, keyed by index name, each with the plan's own UUID, version and warnings. */
  ghost predicate AreChildren(plan: FullPlan, lean: LeanIndexes, children: map<string, Child>) {
    && (forall i :: i in children <==> i in lean)
    && (forall i | i in children :: children[i] == Child(plan.uuid, plan.implVersion, map[i := lean[i]], plan.warnings))
  }

  method WriteChildren(plan: FullPlan, lean: LeanIndexes) returns (children: map<string, Child>)
    ensures AreChildren(plan, lean, children)
  {
    children := map[];
    var todo := lean.Keys;
    while todo != {}
      invariant todo <= lean.Keys
      invariant forall i :: i in children <==> i in lean && i !in todo
      invariant forall i | i in children ::
                children[i] == Child(plan.uuid, plan.implVersion, map[i := lean[i]], plan.warnings)
      decreases |todo|
    {
      var i :| i in todo;
      children := children[i := Child(plan.uuid, plan.implVersion, map[i := lean[i]], plan.warnings)];
      todo := todo - {i};
    }
  }

  /** The children are those of the plan in a lean form. */
  ghost predicate IsLeanForm(plan: FullPlan, children: map<string, Child>) {
    exists lean :: IsLean(plan.plans, {}, lean) && AreChildren(plan, lean, children)
  }

  /** The children written below the plan's directory. */
  method SetLeanPlan(plan: FullPlan) returns (children: map<string, Child>)
    ensures IsLeanForm(plan, children)
  {
    var indexes := GroupByIndex(plan.plans);
    children := WriteChildren(plan, indexes);
  }

  // ---------------------------------------------------------------- reading

  predicate Holds(child: Child, i: string, m: string) {
    i in child.indexes && m in child.indexes[i].pindexes
  }

  ghost predicate IsFrom(child: Child, i: string, m: string, p: PlanPIndex) {
    Holds(child, i, m) && p == Woven(child.indexes[i].def, child.indexes[i].pindexes[m])
  }

  ghost predicate ComesFrom(children: seq<Child>, p: PlanPIndex) {
    exists c, i, m :: 0 <= c < |children| && IsFrom(children[c], i, m, p)
  }

  /** The plan pindexes are those of the children, each under its name. */
  ghost predicate IsWoven(children: seq<Child>, plans: PlanPIndexes) {
    && (forall c, i, m | 0 <= c < |children| && Holds(children[c], i, m) ::
        children[c].indexes[i].pindexes[m].name in plans)
    && (forall n | n in plans :: plans[n].name == n && ComesFrom(children, plans[n]))
  }

  /** Each child holds one index, under its own name, and no two the same. */
  ghost predicate IsSplit(children: seq<Child>, names: seq<string>) {
    && |names| == |children|
    && (forall c | 0 <= c < |children| :: OneIndex(children[c], names[c]))
    && (forall b, c | 0 <= b < c < |names| :: names[b] != names[c])
  }

  predicate OneIndex(child: Child, name: string) {
    child.indexes.Keys == {name} && child.indexes[name].def.name == name
  }

  function AddWarnings(warnings: Warnings, child: Child, name: string): (r: Warnings) {
    if name !in child.warnings then warnings
    else if child.warnings[name] == [] then warnings[name := []]
    else warnings[name := (if name in warnings then warnings[name] else []) + child.warnings[name]]
  }

  ghost predicate FromChild(child: Child, p: PlanPIndex) {
    exists i, m :: IsFrom(child, i, m, p)
  }

  /** `after` is `before` with pindexes of the child put over it. */
  ghost predicate Grows(child: Child, before: PlanPIndexes, after: PlanPIndexes) {
    && (forall n | n in before :: n in after)
    && (forall n | n in after :: KeptOrFrom(child, before, after, n))
  }

  ghost predicate KeptOrFrom(child: Child, before: PlanPIndexes, after: PlanPIndexes, n: string)
    requires n in after
  {
    (n in before && after[n] == before[n]) || (after[n].name == n && FromChild(child, after[n]))
  }

  lemma GrowsTrans(child: Child, a: PlanPIndexes, b: PlanPIndexes, c: PlanPIndexes)
    requires Grows(child, a, b) && Grows(child, b, c)
    ensures Grows(child, a, c)
  {
    forall n | n in c
      ensures KeptOrFrom(child, a, c, n)
    {
      assert KeptOrFrom(child, b, c, n);
      assert n in b ==> KeptOrFrom(child, a, b, n);
    }
  }

  lemma GrowsOne(child: Child, i: string, m: string, before: PlanPIndexes)
    requires Holds(child, i, m)
    ensures var p := Woven(child.indexes[i].def, child.indexes[i].pindexes[m]);
            Grows(child, before, before[p.name := p])
  {
    var p := Woven(child.indexes[i].def, child.indexes[i].pindexes[m]);
    assert IsFrom(child, i, m, p);
  }

  method WeaveIndex(ghost child: Child, ghost i: string, index: LeanIndex, before: PlanPIndexes)
    returns (plans: PlanPIndexes)
    requires i in child.indexes && child.indexes[i] == index
    ensures Grows(child, before, plans)
    ensures forall m | m in index.pindexes :: index.pindexes[m].name in plans
  {
    plans := before;
    var todo := index.pindexes.Keys;
    while todo != {}
      invariant todo <= index.pindexes.Keys && Grows(child, before, plans)
      invariant forall m | m in index.pindexes && m !in todo :: index.pindexes[m].name in plans
      decreases |todo|
    {
      var m :| m in todo;
      var lpp := index.pindexes[m];
      GrowsOne(child, i, m, plans);
      GrowsTrans(child, before, plans, plans[lpp.name := Woven(index.def, lpp)]);
      plans := plans[lpp.name := Woven(index.def, lpp)];
      todo := todo - {m};
    }
  }

  method AppendWarnings(before: Warnings, child: Child, name: string) returns (warnings: Warnings)
    ensures warnings == AddWarnings(before, child, name)
  {
    warnings := before;
    if name in child.warnings {
      if |child.warnings[name]| == 0 {
        warnings := warnings[name := []];
      }
      warnings := warnings[name := (if name in warnings then warnings[name] else []) + child.warnings[name]];
      if |child.warnings[name]| == 0 {
        assert warnings[name] == [];
        assert warnings == before[name := []];
      }
    }
  }

  /** When the child holds one index, its own warnings are added and no others. */
  method WeaveChild(child: Child, before: PlanPIndexes, warningsBefore: Warnings)
    returns (plans: PlanPIndexes, warnings: Warnings)
    ensures Grows(child, before, plans)
    ensures forall i, m | Holds(child, i, m) :: child.indexes[i].pindexes[m].name in plans
    ensures forall name | OneIndex(child, name) :: warnings == AddWarnings(warningsBefore, child, name)
  {
    plans, warnings := before, warningsBefore;
    var todo := child.indexes.Keys;
    while todo != {}
      invariant todo <= child.indexes.Keys && Grows(child, before, plans)
      invariant forall i, m | Holds(child, i, m) && i !in todo :: child.indexes[i].pindexes[m].name in plans
      invariant forall name | OneIndex(child, name) ::
                  warnings == if name in todo then warningsBefore else AddWarnings(warningsBefore, child, name)
      decreases |todo|
    {
      var i :| i in todo;
      var index := child.indexes[i];
      var grown := WeaveIndex(child, i, index, plans);
      GrowsTrans(child, before, plans, grown);
      plans := grown;
      warnings := AppendWarnings(warnings, child, index.def.name);
      todo := todo - {i};
    }
  }

  lemma WovenStep(children: seq<Child>, c: nat, before: PlanPIndexes, after: PlanPIndexes)
    requires c < |children| && IsWoven(children[..c], before) && Grows(children[c], before, after)
    requires forall i, m | Holds(children[c], i, m) :: children[c].indexes[i].pindexes[m].name in after
    ensures IsWoven(children[..c + 1], after)
  {
    var seen, next := children[..c], children[..c + 1];
    assert next == seen + [children[c]];
    forall n | n in after
      ensures after[n].name == n && ComesFrom(next, after[n])
    {
      assert KeptOrFrom(children[c], before, after, n);
      if n in before && after[n] == before[n] {
        var b, i, m :| 0 <= b < |seen| && IsFrom(seen[b], i, m, before[n]);
        assert IsFrom(next[b], i, m, after[n]);
      } else {
        var i, m :| IsFrom(children[c], i, m, after[n]);
        assert IsFrom(next[c], i, m, after[n]);
      }
    }
    forall b, i, m | 0 <= b < |next| && Holds(next[b], i, m)
      ensures next[b].indexes[i].pindexes[m].name in after
    {
      assert b < c ==> Holds(seen[b], i, m);
    }
  }

  ghost predicate IsWarned(children: seq<Child>, names: seq<string>, c: nat, n: string)
    requires |names| == |children| && c <= |children|
  {
    exists b :: 0 <= b < c && names[b] == n && n in children[b].warnings
  }

  /** The warnings of the first children, each under its own index. */
  ghost predicate WarningsSoFar(children: seq<Child>, names: seq<string>, c: nat, warnings: Warnings)
    requires |names| == |children| && c <= |children|
  {
    && (forall n | n in warnings :: IsWarned(children, names, c, n))
    && (forall b | 0 <= b < c && names[b] in children[b].warnings ::
          names[b] in warnings && warnings[names[b]] == children[b].warnings[names[b]])
  }

  lemma WarningsStep(children: seq<Child>, names: seq<string>, c: nat, warnings: Warnings)
    requires IsSplit(children, names) && c < |children| && WarningsSoFar(children, names, c, warnings)
    ensures WarningsSoFar(children, names, c + 1, AddWarnings(warnings, children[c], names[c]))
  {
    var after, c' := AddWarnings(warnings, children[c], names[c]), c + 1;
    NotWarnedYet(children, names, c, warnings);
    forall n | n in after
      ensures IsWarned(children, names, c', n)
    {
      WarnedStep(children, names, c, warnings, n);
    }
    forall b | 0 <= b < c' && names[b] in children[b].warnings
      ensures names[b] in after && after[names[b]] == children[b].warnings[names[b]]
    {
      KeptWarnings(warnings, children[c], names[c], names[b]);
      assert b < c ==> names[b] != names[c];
    }
  }

  lemma KeptWarnings(warnings: Warnings, child: Child, name: string, n: string)
    requires name !in warnings
    ensures var after := AddWarnings(warnings, child, name);
            && (n != name ==> (n in after <==> n in warnings) && (n in warnings ==> after[n] == warnings[n]))
            && (name in child.warnings ==> name in after && after[name] == child.warnings[name])
  {
  }

  lemma WarnedStep(children: seq<Child>, names: seq<string>, c: nat, warnings: Warnings, n: string)
    requires |names| == |children| && c < |children| && WarningsSoFar(children, names, c, warnings)
    requires n in AddWarnings(warnings, children[c], names[c])
    ensures IsWarned(children, names, c + 1, n)
  {
    if n in warnings {
      assert IsWarned(children, names, c, n);
    } else {
      assert names[c] == n;
    }
  }

  lemma NotWarnedYet(children: seq<Child>, names: seq<string>, c: nat, warnings: Warnings)
    requires IsSplit(children, names) && c < |children| && WarningsSoFar(children, names, c, warnings)
    ensures names[c] !in warnings
  {
    assert !IsWarned(children, names, c, names[c]);
  }

  method AddChild(children: seq<Child>, ghost names: seq<string>, c: nat, plans: PlanPIndexes, warnings: Warnings)
    returns (grown: PlanPIndexes, warned: Warnings)
    requires c < |children| && IsWoven(children[..c], plans)
    requires IsSplit(children, names) ==> WarningsSoFar(children, names, c, warnings)
    ensures IsWoven(children[..c + 1], grown)
    ensures IsSplit(children, names) ==> WarningsSoFar(children, names, c + 1, warned)
  {
    grown, warned := WeaveChild(children[c], plans, warnings);
    WovenStep(children, c, plans, grown);
    if IsSplit(children, names) {
      assert OneIndex(children[c], names[c]);
      WarningsStep(children, names, c, warnings);
    }
  }

  /** The UUID is the first there is, the version the lowest. */
  method AddMeta(child: Child, uuid: string, version: string) returns (uuid': string, version': string)
    ensures uuid' == if uuid == "" then child.uuid else uuid
    ensures version' == if version == "" || !Version.GTE(child.implVersion, version) then child.implVersion else version
  {
    uuid', version' := uuid, version;
    var gte := Version.VersionGTE(child.implVersion, version);
    if version == "" || !gte {
      version' := child.implVersion;
    }
    if uuid == "" {
      uuid' := child.uuid;
    }
  }

  /** The children are read in any order. `uuid` and `implVersion` come from the plan's meta entry,
      `clusterVersion` is what the version key holds. */
  method GetLeanPlan(uuid: string, implVersion: string, children: seq<Child>, clusterVersion: string,
                     ghost names: seq<string>)
    returns (plan: FullPlan)
    ensures IsWoven(children, plan.plans)
    ensures IsSplit(children, names) ==> WarningsSoFar(children, names, |children|, plan.warnings)
    ensures (forall c | 0 <= c < |children| :: children[c].uuid == uuid) ==> plan.uuid == uuid
    ensures (forall c | 0 <= c < |children| :: children[c].implVersion == implVersion)
            ==> plan.implVersion == if implVersion == "" then clusterVersion else implVersion
  {
    var plans, warnings, planUUID, version := map[], map[], uuid, implVersion;
    for c := 0 to |children|
      invariant IsWoven(children[..c], plans)
      invariant IsSplit(children, names) ==> WarningsSoFar(children, names, c, warnings)
      invariant (forall b | 0 <= b < c :: children[b].uuid == uuid) ==> planUUID == uuid
      invariant (forall b | 0 <= b < c :: children[b].implVersion == implVersion) ==> version == implVersion
    {
      plans, warnings := AddChild(children, names, c, plans, warnings);
      planUUID, version := AddMeta(children[c], planUUID, version);
    }
    assert children[..|children|] == children;
    if version == "" {
      version := clusterVersion;
    }
    plan := FullPlan(planUUID, version, plans, warnings);
  }

  // ---------------------------------------------------------------- round trip

  /** What makes a plan survive the lean form. */
  predicate IsLeanable(plans: PlanPIndexes) {
    && KeyedByName(plans)
    && (forall j, k | j in plans && k in plans && plans[j].indexName == plans[k].indexName ::
        DefOf(plans[j]) == DefOf(plans[k]))
    && (forall k | k in plans :: plans[k].hibernationPath == "")
  }

  /** `children` is some listing of the written children, and `names` the indexes in that order. */
  ghost predicate IsListing(written: map<string, Child>, children: seq<Child>, names: seq<string>) {
    && |names| == |children|
    && (forall i :: i in written <==> i in names)
    && (forall c | 0 <= c < |names| :: names[c] in written && children[c] == written[names[c]])
    && (forall b, c | 0 <= b < c < |names| :: names[b] != names[c])
  }

  /** The children as written below the plan's directory and listed again, in some order. */
  ghost predicate IsStored(plan: FullPlan, lean: LeanIndexes, children: seq<Child>, names: seq<string>) {
    && |names| == |children|
    && (forall i :: i in lean <==> i in names)
    && (forall c | 0 <= c < |names| ::
          && names[c] in lean
          && children[c] == Child(plan.uuid, plan.implVersion, map[names[c] := lean[names[c]]], plan.warnings))
    && (forall b, c | 0 <= b < c < |names| :: names[b] != names[c])
  }

  lemma ListingIsStored(plan: FullPlan, lean: LeanIndexes, written: map<string, Child>, children: seq<Child>,
                        names: seq<string>)
    requires AreChildren(plan, lean, written) && IsListing(written, children, names)
    ensures IsStored(plan, lean, children, names)
  {
  }

  /** Indexes and pindexes are stored under their own names. */
  ghost predicate IsNamed(lean: LeanIndexes) {
    && (forall i | i in lean :: lean[i].def.name == i)
    && (forall i, n | Has(lean, i, n) :: lean[i].pindexes[n].name == n)
  }

  lemma LeanIsNamed(plans: PlanPIndexes, lean: LeanIndexes)
    requires IsLean(plans, {}, lean)
    ensures IsNamed(lean)
  {
    forall i | i in lean
      ensures lean[i].def.name == i
    {
      assert IsDefOf(plans, {}, i, lean[i].def);
    }
  }

  lemma StoredIsSplit(plan: FullPlan, lean: LeanIndexes, children: seq<Child>, names: seq<string>)
    requires IsStored(plan, lean, children, names) && IsNamed(lean)
    ensures IsSplit(children, names)
  {
    forall c | 0 <= c < |children|
      ensures OneIndex(children[c], names[c])
    {
      assert children[c].indexes == map[names[c] := lean[names[c]]];
    }
  }

  /** Where a pindex that is read comes from. */
  lemma OriginOf(plan: FullPlan, lean: LeanIndexes, children: seq<Child>, names: seq<string>, p: PlanPIndex)
    requires IsStored(plan, lean, children, names) && IsNamed(lean) && ComesFrom(children, p)
    ensures p.hibernationPath == "" && Has(lean, p.indexName, p.name)
    ensures DefOf(p) == lean[p.indexName].def && LeanOf(p) == lean[p.indexName].pindexes[p.name]
  {
    var c, i, m :| 0 <= c < |children| && IsFrom(children[c], i, m, p);
    assert children[c].indexes == map[names[c] := lean[names[c]]];
    assert i == names[c] && Has(lean, i, m);
  }

  lemma SamePlan(p: PlanPIndex, q: PlanPIndex)
    requires DefOf(p) == DefOf(q) && LeanOf(p) == LeanOf(q) && p.hibernationPath == q.hibernationPath
    ensures p == q
  {
  }

  lemma ReadsBack(plans: PlanPIndexes, lean: LeanIndexes, p: PlanPIndex)
    requires IsLean(plans, {}, lean) && IsLeanable(plans)
    requires p.hibernationPath == "" && Has(lean, p.indexName, p.name)
    requires DefOf(p) == lean[p.indexName].def && LeanOf(p) == lean[p.indexName].pindexes[p.name]
    ensures p.name in plans && plans[p.name] == p
  {
    var i := p.indexName;
    assert IsLeanOf(plans, {}, i, lean[i].pindexes[p.name]);
    assert IsDefOf(plans, {}, i, lean[i].def);
    var k :| k in plans && plans[k].indexName == i && LeanOf(plans[k]) == lean[i].pindexes[p.name];
    var j :| j in plans && plans[j].indexName == i && DefOf(plans[j]) == lean[i].def;
    SamePlan(p, plans[k]);
  }

  lemma NothingDropped(plan: FullPlan, lean: LeanIndexes, children: seq<Child>, names: seq<string>,
                       decoded: PlanPIndexes, i: string, n: string)
    requires IsStored(plan, lean, children, names) && IsNamed(lean) && IsWoven(children, decoded) && Has(lean, i, n)
    ensures n in decoded
  {
    var c :| 0 <= c < |names| && names[c] == i;
    assert children[c].indexes == map[i := lean[i]];
    assert Holds(children[c], i, n);
  }

  lemma DecodedIsPlanned(plan: FullPlan, lean: LeanIndexes, children: seq<Child>, names: seq<string>, p: PlanPIndex)
    requires IsLean(plan.plans, {}, lean) && IsStored(plan, lean, children, names) && IsNamed(lean)
    requires ComesFrom(children, p) && IsLeanable(plan.plans)
    ensures p.name in plan.plans && plan.plans[p.name] == p
  {
    OriginOf(plan, lean, children, names, p);
    ReadsBack(plan.plans, lean, p);
  }

  lemma AllPlanned(plan: FullPlan, lean: LeanIndexes, children: seq<Child>, names: seq<string>, decoded: PlanPIndexes)
    requires IsLean(plan.plans, {}, lean) && IsStored(plan, lean, children, names) && IsNamed(lean)
    requires IsWoven(children, decoded) && IsLeanable(plan.plans)
    ensures forall n | n in decoded :: n in plan.plans && decoded[n] == plan.plans[n]
  {
    forall n | n in decoded
      ensures n in plan.plans && decoded[n] == plan.plans[n]
    {
      DecodedIsPlanned(plan, lean, children, names, decoded[n]);
    }
  }

  lemma AllDecoded(plan: FullPlan, lean: LeanIndexes, children: seq<Child>, names: seq<string>, decoded: PlanPIndexes)
    requires forall k | k in plan.plans :: Has(lean, plan.plans[k].indexName, plan.plans[k].name)
    requires IsStored(plan, lean, children, names) && IsNamed(lean) && IsWoven(children, decoded)
             && KeyedByName(plan.plans)
    ensures forall n | n in plan.plans :: n in decoded
  {
    forall n | n in plan.plans
      ensures n in decoded
    {
      NothingDropped(plan, lean, children, names, decoded, plan.plans[n].indexName, n);
    }
  }

  lemma LeanableReadsBack(plan: FullPlan, lean: LeanIndexes, children: seq<Child>, names: seq<string>,
                          decoded: PlanPIndexes)
    requires IsLean(plan.plans, {}, lean) && IsStored(plan, lean, children, names) && IsNamed(lean)
    requires IsWoven(children, decoded) && IsLeanable(plan.plans)
    ensures decoded == plan.plans
  {
    AllPlanned(plan, lean, children, names, decoded);
    AllDecoded(plan, lean, children, names, decoded);
    SameMap(decoded, plan.plans);
  }

  lemma SameMap(a: PlanPIndexes, b: PlanPIndexes)
    requires forall n | n in a :: n in b && a[n] == b[n]
    requires forall n | n in b :: n in a
    ensures a == b
  {
  }

  lemma ReadBackIsLeanable(plan: FullPlan, lean: LeanIndexes, children: seq<Child>, names: seq<string>,
                           decoded: PlanPIndexes)
    requires IsStored(plan, lean, children, names) && IsNamed(lean) && IsWoven(children, decoded)
    ensures IsLeanable(decoded)
  {
    forall k | k in decoded
      ensures decoded[k].hibernationPath == "" && decoded[k].indexName in lean
              && DefOf(decoded[k]) == lean[decoded[k].indexName].def
    {
      OriginOf(plan, lean, children, names, decoded[k]);
    }
  }

  /** Reading the children in any order gives back the pindexes of the plan exactly when the plan is
      keyed by name, the pindexes of an index share its fields, and none has a hibernation path. */
  lemma LeanRoundTrip(plan: FullPlan, lean: LeanIndexes, children: seq<Child>, names: seq<string>,
                      decoded: PlanPIndexes)
    requires IsLean(plan.plans, {}, lean) && IsStored(plan, lean, children, names)
             && IsWoven(children, decoded)
    ensures decoded == plan.plans <==> IsLeanable(plan.plans)
  {
    LeanIsNamed(plan.plans, lean);
    ReadBackIsLeanable(plan, lean, children, names, decoded);
    if IsLeanable(plan.plans) {
      LeanableReadsBack(plan, lean, children, names, decoded);
    }
  }

  predicate HasPIndexes(plans: PlanPIndexes, i: string) {
    exists k | k in plans :: plans[k].indexName == i
  }

  lemma IndexHasPIndexes(plans: PlanPIndexes, lean: LeanIndexes, i: string)
    requires IsLean(plans, {}, lean)
    ensures i in lean <==> HasPIndexes(plans, i)
  {
    if i in lean {
      assert IsDefOf(plans, {}, i, lean[i].def);
    }
    if k :| k in plans && plans[k].indexName == i {
      assert Has(lean, plans[k].indexName, plans[k].name);
    }
  }

  /** The warnings that come back are those of the indexes that have pindexes, unchanged. */
  lemma WarningsRoundTrip(plan: FullPlan, lean: LeanIndexes, children: seq<Child>, names: seq<string>,
                          warnings: Warnings, i: string)
    requires IsLean(plan.plans, {}, lean) && IsStored(plan, lean, children, names)
    requires WarningsSoFar(children, names, |children|, warnings)
    ensures i in warnings <==> i in plan.warnings && HasPIndexes(plan.plans, i)
    ensures i in warnings ==> warnings[i] == plan.warnings[i]
  {
    IndexHasPIndexes(plan.plans, lean, i);
    if i in warnings {
      assert IsWarned(children, names, |children|, i);
    }
    if i in lean {
      var c :| 0 <= c < |names| && names[c] == i;
      assert children[c].warnings == plan.warnings;
    }
  }

  /** Written and read back, in any order: the pindexes are the same exactly if they can be lean; the
      UUID is the same, the version too unless there is none, and the warnings but for those of
      indexes without pindexes. */
  method StoreAndLoad(plan: FullPlan, clusterVersion: string) returns (loaded: FullPlan)
    ensures loaded.plans == plan.plans <==> IsLeanable(plan.plans)
    ensures loaded.uuid == plan.uuid
    ensures loaded.implVersion == if plan.implVersion == "" then clusterVersion else plan.implVersion
    ensures forall i :: i in loaded.warnings <==> i in plan.warnings && HasPIndexes(plan.plans, i)
    ensures forall i | i in loaded.warnings :: loaded.warnings[i] == plan.warnings[i]
  {
    var written := SetLeanPlan(plan);
    ghost var lean :| IsLean(plan.plans, {}, lean) && AreChildren(plan, lean, written);
    var children, names := List(written);
    ListingIsStored(plan, lean, written, children, names);
    loaded := GetLeanPlan(plan.uuid, plan.implVersion, children, clusterVersion, names);
    LeanRoundTrip(plan, lean, children, names, loaded.plans);
    LeanIsNamed(plan.plans, lean);
    StoredIsSplit(plan, lean, children, names);
    forall i {
      WarningsRoundTrip(plan, lean, children, names, loaded.warnings, i);
    }
  }

  /** A listing of the children, in any order. */
  method List(written: map<string, Child>) returns (children: seq<Child>, ghost names: seq<string>)
    ensures IsListing(written, children, names)
  {
    children, names := [], [];
    var todo := written.Keys;
    while todo != {}
      invariant todo <= written.Keys && |names| == |children|
      invariant forall i :: i in written <==> i in names || i in todo
      invariant forall c | 0 <= c < |names| ::
                names[c] in written && names[c] !in todo && children[c] == written[names[c]]
      invariant forall b, c | 0 <= b < c < |names| :: names[b] != names[c]
      decreases |todo|
    {
      var i :| i in todo;
      children, names := children + [written[i]], names + [i];
      todo := todo - {i};
    }
  }
}
