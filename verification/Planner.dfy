/** The planner's splitting of an index into plan pindexes (manager_planner.go). */
module Planner {
  import opened Plan
  import LeanPlan
  import Text

  // ---------------------------------------------------------------- groups of source partitions

  function Flatten(groups: seq<seq<string>>): (r: seq<string>) {
    if groups == [] then [] else Flatten(groups[..|groups| - 1]) + groups[|groups| - 1]
  }

  lemma {:induction false} FlattenAppend(groups: seq<seq<string>>, group: seq<string>)
    ensures Flatten(groups + [group]) == Flatten(groups) + group
  {
    assert (groups + [group])[..|groups|] == groups;
  }

  /** How many sources group i gets, when there are q for each group and r more: the first r groups
      take one more. */
  function GroupSize(q: nat, r: nat, i: nat): (size: nat) {
    if i < r then q + 1 else q
  }

  /** Where group i starts. */
  function GroupStart(q: nat, r: nat, i: nat): (start: nat) {
    if i == 0 then 0 else GroupStart(q, r, i - 1) + GroupSize(q, r, i - 1)
  }

  lemma {:induction false} NextStart(q: nat, r: nat, i: nat)
    ensures GroupStart(q, r, i + 1) == GroupStart(q, r, i) + GroupSize(q, r, i)
  {
  }

  lemma {:induction false} StartOf(q: nat, r: nat, i: nat)
    ensures GroupStart(q, r, i) == i * q + if i < r then i else r
  {
    if i > 0 {
      StartOf(q, r, i - 1);
      assert (i - 1) * q + q == i * q;
    }
  }

  lemma {:induction false} StartGrows(q: nat, r: nat, i: nat, j: nat)
    requires i <= j
    ensures GroupStart(q, r, i) <= GroupStart(q, r, j)
  {
    if i < j {
      StartGrows(q, r, i, j - 1);
    }
  }

  lemma {:induction false} StartBounds(q: nat, r: nat, i: nat)
    ensures q == 0 ==> GroupStart(q, r, i) == if i < r then i else r
    ensures q > 0 ==> GroupStart(q, r, i) >= i
  {
    if i > 0 {
      StartBounds(q, r, i - 1);
    }
  }

  /** The k groups hold all n sources. */
  predicate Divides(n: nat, k: nat, q: nat, r: nat) {
    r < k && GroupStart(q, r, k) == n
  }

  lemma {:induction false} GroupFits(n: nat, k: nat, q: nat, r: nat, i: nat)
    requires Divides(n, k, q, r) && i <= k
    ensures GroupStart(q, r, i) <= n
    ensures i < k ==> GroupStart(q, r, i) + GroupSize(q, r, i) <= n
  {
    StartGrows(q, r, i, k);
    if i < k {
      NextStart(q, r, i);
      StartGrows(q, r, i + 1, k);
    }
  }

  method GroupSizes(n: nat, k: nat) returns (sizes: array<nat>, ghost q: nat, ghost r: nat)
    requires k > 0
    ensures Divides(n, k, q, r)
    ensures fresh(sizes) && sizes.Length == k && forall i | 0 <= i < k :: sizes[i] == GroupSize(q, r, i)
  {
    var min := n / k;
    q, r := min, n % k;
    sizes := new nat[k];
    for i := 0 to k
      invariant forall j | 0 <= j < i :: sizes[j] == min
    {
      sizes[i] := min;
    }
    var deficit := n - k * min;
    assert deficit == r;
    StartOf(q, r, k);
    SpreadDeficit(sizes, min, deficit);
  }

  /** The loop's cursor would wrap around, but the deficit is below the number of groups. */
  method SpreadDeficit(sizes: array<nat>, min: nat, total: nat)
    requires total < sizes.Length && forall j | 0 <= j < sizes.Length :: sizes[j] == min
    modifies sizes
    ensures forall j | 0 <= j < sizes.Length :: sizes[j] == GroupSize(min, total, j)
  {
    var deficit, cursor := total, 0;
    while deficit > 0
      invariant 0 <= deficit && 0 <= cursor && cursor + deficit == total
      invariant forall j | 0 <= j < sizes.Length :: sizes[j] == GroupSize(min, cursor, j)
    {
      sizes[cursor] := sizes[cursor] + 1;
      deficit := deficit - 1;
      cursor := (cursor + 1) % sizes.Length;
    }
  }

  /** Sizes that differ by at most one, the larger first. */
  ghost predicate IsEven(n: nat, k: nat, groups: seq<seq<string>>) {
    && |groups| == (if k < n then k else n)
    && (forall i | 0 <= i < |groups| :: |groups[i]| > 0)
    && (forall i, j | 0 <= i < j < |groups| :: |groups[j]| <= |groups[i]| <= |groups[j]| + 1)
  }

  /** The first i sources are in full groups and a group that wants more. */
  ghost predicate IsGrouped(parts: seq<string>, i: nat, k: nat, q: nat, r: nat, groups: seq<seq<string>>,
                            curr: seq<string>)
  {
    && i <= |parts| && Flatten(groups) + curr == parts[..i]
    && |groups| <= k && i == GroupStart(q, r, |groups|) + |curr|
    && (curr == [] || (|groups| < k && |curr| < GroupSize(q, r, |groups|)))
    && forall j | 0 <= j < |groups| :: |groups[j]| == GroupSize(q, r, j) > 0
  }

  method GroupEvenly(k: nat, parts: seq<string>) returns (groups: seq<seq<string>>)
    requires k > 0
    ensures Flatten(groups) == parts && IsEven(|parts|, k, groups)
  {
    var n := |parts|;
    var sizes, q, r := GroupSizes(n, k);
    groups := [];
    var curr: seq<string>, cursor := [], 0;
    for i := 0 to n
      invariant forall j | 0 <= j < k :: sizes[j] == GroupSize(q, r, j)
      invariant cursor == |groups| && IsGrouped(parts, i, k, q, r, groups, curr)
    {
      CursorInBounds(n, k, q, r, cursor, i);
      GroupedStep(parts, i, k, q, r, groups, curr);
      curr := curr + [parts[i]];
      if |curr| == sizes[cursor] {
        groups := groups + [curr];
        curr := [];
        cursor := cursor + 1;
      }
    }
    EvenDone(parts, k, q, r, groups, curr);
  }

  lemma {:induction false} EvenDone(parts: seq<string>, k: nat, q: nat, r: nat, groups: seq<seq<string>>,
                                    curr: seq<string>)
    requires Divides(|parts|, k, q, r) && IsGrouped(parts, |parts|, k, q, r, groups, curr)
    ensures Flatten(groups) == parts && IsEven(|parts|, k, groups)
  {
    assert parts[..|parts|] == parts;
    AllGrouped(|parts|, k, q, r, |groups|, |curr|);
  }

  lemma {:induction false} GroupedStep(parts: seq<string>, i: nat, k: nat, q: nat, r: nat, groups: seq<seq<string>>,
                                       curr: seq<string>)
    requires i < |parts| && |groups| < k && GroupSize(q, r, |groups|) > 0
    requires IsGrouped(parts, i, k, q, r, groups, curr)
    ensures var next := curr + [parts[i]];
            if |next| == GroupSize(q, r, |groups|) then IsGrouped(parts, i + 1, k, q, r, groups + [next], [])
            else IsGrouped(parts, i + 1, k, q, r, groups, next)
  {
    var next := curr + [parts[i]];
    TakeNext(parts, i, Flatten(groups), curr);
    FlattenAppend(groups, next);
    NextStart(q, r, |groups|);
  }

  lemma {:induction false} TakeNext(parts: seq<string>, i: nat, done: seq<string>, curr: seq<string>)
    requires i < |parts| && done + curr == parts[..i]
    ensures done + (curr + [parts[i]]) == parts[..i + 1]
  {
    assert parts[..i + 1] == parts[..i] + [parts[i]];
    assert done + (curr + [parts[i]]) == done + curr + [parts[i]];
  }

  /** While sources remain, the current group is one of the k and wants more. */
  lemma {:induction false} CursorInBounds(n: nat, k: nat, q: nat, r: nat, cursor: nat, i: nat)
    requires Divides(n, k, q, r) && cursor <= k && GroupStart(q, r, cursor) <= i < n
    ensures cursor < k && GroupSize(q, r, cursor) > 0
  {
    StartBounds(q, r, cursor);
    StartBounds(q, r, k);
  }

  lemma {:induction false} AllGrouped(n: nat, k: nat, q: nat, r: nat, cursor: nat, left: nat)
    requires Divides(n, k, q, r) && cursor <= k && n == GroupStart(q, r, cursor) + left
    requires left == 0 || (cursor < k && left < GroupSize(q, r, cursor))
    requires forall j | 0 <= j < cursor :: GroupSize(q, r, j) > 0
    ensures left == 0 && cursor == if k < n then k else n
  {
    GroupFits(n, k, q, r, cursor);
    StartBounds(q, r, cursor);
    StartBounds(q, r, k);
    if q == 0 {
      assert r < cursor ==> GroupSize(q, r, r) > 0;
    }
  }

  /** Full groups and a remainder; one group with all sources when there is no limit. */
  ghost predicate IsChunked(n: nat, max: int, groups: seq<seq<string>>) {
    && |groups| >= 1
    && (max > 0 ==>
          && (forall i | 0 <= i < |groups| - 1 :: |groups[i]| == max)
          && |groups[|groups| - 1]| <= max && (n > 0 ==> |groups[|groups| - 1]| > 0))
    && (max <= 0 || n == 0 ==> |groups| == 1)
  }

  method GroupByMax(max: int, parts: seq<string>) returns (groups: seq<seq<string>>)
    ensures Flatten(groups) == parts && IsChunked(|parts|, max, groups)
  {
    groups := [];
    var curr: seq<string> := [];
    for i := 0 to |parts|
      invariant Flatten(groups) + curr == parts[..i]
      invariant max > 0 ==> |curr| < max && forall j | 0 <= j < |groups| :: |groups[j]| == max
      invariant max <= 0 ==> groups == []
      invariant groups == [] ==> |curr| == i
      invariant i == 0 ==> groups == []
    {
      curr := curr + [parts[i]];
      assert parts[..i + 1] == parts[..i] + [parts[i]];
      if max > 0 && |curr| >= max {
        FlattenAppend(groups, curr);
        groups := groups + [curr];
        curr := [];
      }
    }
    assert parts[..|parts|] == parts;
    if |curr| > 0 || |groups| <= 0 {
      FlattenAppend(groups, curr);
      groups := groups + [curr];
    }
  }

  /** A number of index partitions takes precedence over a limit on their size. */
  method GroupSourcePartitions(indexPartitions: int, max: int, parts: seq<string>) returns (groups: seq<seq<string>>)
    ensures Flatten(groups) == parts
    ensures if indexPartitions > 0 then IsEven(|parts|, indexPartitions, groups) else IsChunked(|parts|, max, groups)
  {
    if indexPartitions > 0 {
      groups := GroupEvenly(indexPartitions, parts);
    } else {
      groups := GroupByMax(max, parts);
    }
  }

  // ---------------------------------------------------------------- plan pindexes

  datatype IndexDef = IndexDef(
    name: string, uuid: string, indexType: string, params: string, sourceType: string, sourceName: string,
    sourceUUID: string, sourceParams: string, hibernationPath: string, indexPartitions: int,
    maxPartitionsPerPIndex: int)

  /** `crc` is the checksum of the joined source partitions, in hexadecimal. */
  function PlanPIndexName(def: IndexDef, crc: string -> string, sourcePartitions: string): (name: string) {
    def.name + "_" + def.uuid + "_" + crc(sourcePartitions)
  }

  function PlanOf(def: IndexDef, crc: string -> string, group: seq<string>): (p: PlanPIndex) {
    var sourcePartitions := Text.Join(group, ',');
    PlanPIndex(PlanPIndexName(def, crc, sourcePartitions), "", def.indexType, def.name, def.uuid, def.params,
               def.sourceType, def.sourceName, def.sourceUUID, def.sourceParams, sourcePartitions, def.hibernationPath,
               map[])
  }

  /** The last group of each name has the plan pindex of that name. */
  ghost predicate ArePlans(def: IndexDef, crc: string -> string, groups: seq<seq<string>>, plans: PlanPIndexes) {
    && (forall i | 0 <= i < |groups| :: PlanOf(def, crc, groups[i]).name in plans)
    && (forall n | n in plans :: exists i :: IsLastOf(def, crc, groups, n, plans[n], i))
  }

  ghost predicate IsLastOf(def: IndexDef, crc: string -> string, groups: seq<seq<string>>, n: string, p: PlanPIndex,
                           i: int)
  {
    && 0 <= i < |groups| && p == PlanOf(def, crc, groups[i]) && p.name == n
    && forall j | i < j < |groups| :: PlanOf(def, crc, groups[j]).name != n
  }

  /** The groups of the sources that the index's parameters ask for. */
  ghost predicate AreGroups(def: IndexDef, sources: seq<string>, groups: seq<seq<string>>) {
    && Flatten(groups) == sources
    && if def.indexPartitions > 0 then IsEven(|sources|, def.indexPartitions, groups)
       else IsChunked(|sources|, def.maxPartitionsPerPIndex, groups)
  }

  method SplitIndexDefIntoPlanPIndexes(def: IndexDef, crc: string -> string, sources: seq<string>)
    returns (plans: PlanPIndexes)
    ensures exists groups :: AreGroups(def, sources, groups) && ArePlans(def, crc, groups, plans)
  {
    var all := GroupSourcePartitions(def.indexPartitions, def.maxPartitionsPerPIndex, sources);
    plans := map[];
    for i := 0 to |all|
      invariant ArePlans(def, crc, all[..i], plans)
    {
      var plan := PlanOf(def, crc, all[i]);
      PlansStep(def, crc, all[..i], all[i], plans);
      assert all[..i + 1] == all[..i] + [all[i]];
      plans := plans[plan.name := plan];
    }
    assert all[..|all|] == all;
    assert AreGroups(def, sources, all);
  }

  lemma {:induction false} LastStays(def: IndexDef, crc: string -> string, seen: seq<seq<string>>, group: seq<string>,
                                     n: string, p: PlanPIndex, j: int)
    requires IsLastOf(def, crc, seen, n, p, j) && PlanOf(def, crc, group).name != n
    ensures IsLastOf(def, crc, seen + [group], n, p, j)
  {
    var next := seen + [group];
    forall i | j < i < |next|
      ensures PlanOf(def, crc, next[i]).name != n
    {
      assert next[i] == if i < |seen| then seen[i] else group;
    }
  }

  lemma {:induction false} PlansStep(def: IndexDef, crc: string -> string, seen: seq<seq<string>>, group: seq<string>,
                                     plans: PlanPIndexes)
    requires ArePlans(def, crc, seen, plans)
    ensures var p := PlanOf(def, crc, group); ArePlans(def, crc, seen + [group], plans[p.name := p])
  {
    var p, next := PlanOf(def, crc, group), seen + [group];
    var plans' := plans[p.name := p];
    forall i | 0 <= i < |next|
      ensures PlanOf(def, crc, next[i]).name in plans'
    {
      assert next[i] == if i < |seen| then seen[i] else group;
    }
    forall n | n in plans'
      ensures exists j :: IsLastOf(def, crc, next, n, plans'[n], j)
    {
      if n == p.name {
        assert IsLastOf(def, crc, next, n, p, |seen|);
      } else {
        var j :| IsLastOf(def, crc, seen, n, plans[n], j);
        LastStays(def, crc, seen, group, n, plans[n], j);
      }
    }
  }

  // ---------------------------------------------------------------- each source once

  /** Sources are distinct and do not hold the separator. */
  predicate AreSources(sources: seq<string>) {
    && (forall i, j | 0 <= i < j < |sources| :: sources[i] != sources[j])
    && (forall i | 0 <= i < |sources| :: ',' !in sources[i])
  }

  /** The plan pindex feeds on the source. */
  predicate Serves(p: PlanPIndex, source: string) {
    source in Text.Split(p.sourcePartitions, ',')
  }

  ghost predicate ServedOnce(plans: PlanPIndexes, source: string) {
    exists n :: n in plans && Serves(plans[n], source) && forall m | m in plans && Serves(plans[m], source) :: m == n
  }

  /** The checksum tells the groups apart. */
  ghost predicate TellsApart(crc: string -> string, groups: seq<seq<string>>) {
    forall i, j | 0 <= i < j < |groups| :: crc(Text.Join(groups[i], ',')) != crc(Text.Join(groups[j], ','))
  }

  lemma {:induction false} GroupAt(groups: seq<seq<string>>, i: nat) returns (before: seq<string>, after: seq<string>)
    requires i < |groups|
    ensures Flatten(groups) == before + groups[i] + after
    ensures forall j, x | 0 <= j < i && x in groups[j] :: x in before
    ensures forall j, x | i < j < |groups| && x in groups[j] :: x in after
  {
    var n := |groups| - 1;
    if i == n {
      before, after := Flatten(groups[..n]), [];
      forall j, x | 0 <= j < i && x in groups[j]
        ensures x in before
      {
        InFlatten(groups[..n], j, x);
      }
    } else {
      var rest;
      before, rest := GroupAt(groups[..n], i);
      after := rest + groups[n];
    }
  }

  lemma {:induction false} InFlatten(groups: seq<seq<string>>, j: nat, x: string)
    requires j < |groups| && x in groups[j]
    ensures x in Flatten(groups)
  {
    var n := |groups| - 1;
    if j < n {
      InFlatten(groups[..n], j, x);
    }
  }

  lemma {:induction false} FlattenFrom(groups: seq<seq<string>>, x: string) returns (i: nat)
    requires x in Flatten(groups)
    ensures i < |groups| && x in groups[i]
  {
    var n := |groups| - 1;
    if x in groups[n] {
      i := n;
    } else {
      i := FlattenFrom(groups[..n], x);
    }
  }

  /** A source is in one group only. */
  lemma {:induction false} OneGroup(sources: seq<string>, groups: seq<seq<string>>, i: nat, j: nat, x: string)
    requires Flatten(groups) == sources && AreSources(sources)
    requires i < |groups| && j < |groups| && x in groups[i] && x in groups[j]
    ensures i == j
  {
    var lo, hi := if i < j then i else j, if i < j then j else i;
    var before, after := GroupAt(groups, lo);
    var a :| 0 <= a < |groups[lo]| && groups[lo][a] == x;
    var whole := before + groups[lo] + after;
    assert sources == whole && sources[|before| + a] == x;
    assert lo < hi ==> x in after;
    assert forall b | 0 <= b < |after| :: sources[|before| + |groups[lo]| + b] == after[b];
  }

  /** The groups are a division of the sources, none empty. */
  ghost predicate IsDivision(sources: seq<string>, groups: seq<seq<string>>) {
    Flatten(groups) == sources && AreSources(sources) && forall i | 0 <= i < |groups| :: groups[i] != []
  }

  /** The groups that the planner makes of at least one source are such a division. */
  lemma {:induction false} GroupsDivide(def: IndexDef, sources: seq<string>, groups: seq<seq<string>>)
    requires sources != [] && AreSources(sources) && AreGroups(def, sources, groups)
    ensures IsDivision(sources, groups)
  {
    if def.indexPartitions <= 0 && def.maxPartitionsPerPIndex <= 0 {
      assert groups[..0] == [] && Flatten(groups) == Flatten(groups[..0]) + groups[0];
    }
  }

  lemma {:induction false} ServesGroup(def: IndexDef, crc: string -> string, sources: seq<string>,
                                       groups: seq<seq<string>>, i: nat)
    requires IsDivision(sources, groups) && i < |groups|
    ensures Text.Split(PlanOf(def, crc, groups[i]).sourcePartitions, ',') == groups[i]
  {
    forall a | 0 <= a < |groups[i]|
      ensures ',' !in groups[i][a]
    {
      InFlatten(groups, i, groups[i][a]);
    }
    Text.SplitJoin(groups[i], ',');
  }

  lemma {:induction false} NamesTellApart(def: IndexDef, crc: string -> string, a: string, b: string)
    ensures PlanPIndexName(def, crc, a) == PlanPIndexName(def, crc, b) <==> crc(a) == crc(b)
  {
    var prefix := def.name + "_" + def.uuid + "_";
    assert crc(a) == PlanPIndexName(def, crc, a)[|prefix|..];
    assert crc(b) == PlanPIndexName(def, crc, b)[|prefix|..];
  }

  /** A plan pindex that serves a source of group i is the plan of that group, and of no later one. */
  lemma {:induction false} ServerOf(def: IndexDef, crc: string -> string, sources: seq<string>,
                                    groups: seq<seq<string>>, plans: PlanPIndexes, n: string, i: nat, x: string)
    requires IsDivision(sources, groups) && ArePlans(def, crc, groups, plans)
    requires n in plans && Serves(plans[n], x) && i < |groups| && x in groups[i]
    ensures IsLastOf(def, crc, groups, n, plans[n], i)
  {
    var j :| IsLastOf(def, crc, groups, n, plans[n], j);
    ServesGroup(def, crc, sources, groups, j);
    OneGroup(sources, groups, i, j, x);
  }

  lemma {:induction false} ApartServesOnce(def: IndexDef, crc: string -> string, sources: seq<string>,
                                           groups: seq<seq<string>>, plans: PlanPIndexes, x: string)
    requires IsDivision(sources, groups) && ArePlans(def, crc, groups, plans) && TellsApart(crc, groups) && x in sources
    ensures ServedOnce(plans, x)
  {
    var i := FlattenFrom(groups, x);
    var n := PlanOf(def, crc, groups[i]).name;
    var j :| IsLastOf(def, crc, groups, n, plans[n], j);
    NamesTellApart(def, crc, Text.Join(groups[i], ','), Text.Join(groups[j], ','));
    assert i == j;
    ServesGroup(def, crc, sources, groups, i);
    forall m | m in plans && Serves(plans[m], x)
      ensures m == n
    {
      ServerOf(def, crc, sources, groups, plans, m, i, x);
    }
  }

  lemma {:induction false} ServedOnceIsApart(def: IndexDef, crc: string -> string, sources: seq<string>,
                                             groups: seq<seq<string>>, plans: PlanPIndexes, i: nat, j: nat)
    requires IsDivision(sources, groups) && ArePlans(def, crc, groups, plans) && i < j < |groups|
    requires forall k | 0 <= k < |sources| :: ServedOnce(plans, sources[k])
    ensures crc(Text.Join(groups[i], ',')) != crc(Text.Join(groups[j], ','))
  {
    var x := groups[i][0];
    InFlatten(groups, i, x);
    assert ServedOnce(plans, x);
    var n :| n in plans && Serves(plans[n], x);
    ServerOf(def, crc, sources, groups, plans, n, i, x);
    NamesTellApart(def, crc, Text.Join(groups[i], ','), Text.Join(groups[j], ','));
  }

  /** Every source belongs to exactly one plan pindex, if and only if the checksum tells the groups
      apart. */
  lemma {:induction false} EachSourceOnce(def: IndexDef, crc: string -> string, sources: seq<string>,
                                          groups: seq<seq<string>>, plans: PlanPIndexes)
    requires IsDivision(sources, groups) && ArePlans(def, crc, groups, plans)
    ensures (forall k | 0 <= k < |sources| :: ServedOnce(plans, sources[k])) <==> TellsApart(crc, groups)
  {
    if TellsApart(crc, groups) {
      forall k | 0 <= k < |sources|
        ensures ServedOnce(plans, sources[k])
      {
        ApartServesOnce(def, crc, sources, groups, plans, sources[k]);
      }
    }
    if forall k | 0 <= k < |sources| :: ServedOnce(plans, sources[k]) {
      forall i, j | 0 <= i < j < |groups|
        ensures crc(Text.Join(groups[i], ',')) != crc(Text.Join(groups[j], ','))
      {
        ServedOnceIsApart(def, crc, sources, groups, plans, i, j);
      }
    }
  }

  // ---------------------------------------------------------------- storing the plan pindexes

  /** The plan pindexes of an index are stored under their names, carry the fields of the index
      definition, are on no node yet, and differ in their sources alone. */
  ghost predicate AreOf(def: IndexDef, plans: PlanPIndexes) {
    && KeyedByName(plans)
    && forall n | n in plans ::
         && plans[n].indexName == def.name && plans[n].indexUUID == def.uuid
         && plans[n].indexType == def.indexType && plans[n].indexParams == def.params
         && plans[n].sourceType == def.sourceType && plans[n].sourceName == def.sourceName
         && plans[n].sourceUUID == def.sourceUUID && plans[n].sourceParams == def.sourceParams
         && plans[n].hibernationPath == def.hibernationPath && plans[n].nodes == map[]
  }

  lemma {:induction false} PlansAreOf(def: IndexDef, crc: string -> string, groups: seq<seq<string>>,
                                      plans: PlanPIndexes)
    requires ArePlans(def, crc, groups, plans)
    ensures AreOf(def, plans)
  {
    forall n | n in plans
      ensures exists i :: IsLastOf(def, crc, groups, n, plans[n], i)
    {
    }
  }

  /** What the planner makes of an index can be stored in the lean form and read back, if and only if
      the index has no hibernation path or there is nothing to store. */
  lemma {:induction false} SplitIsLeanable(def: IndexDef, crc: string -> string, groups: seq<seq<string>>,
                                           plans: PlanPIndexes)
    requires ArePlans(def, crc, groups, plans)
    ensures LeanPlan.IsLeanable(plans) <==> def.hibernationPath == "" || plans == map[]
  {
    PlansAreOf(def, crc, groups, plans);
    if plans != map[] {
      var n :| n in plans;
      assert plans[n].hibernationPath == def.hibernationPath;
    }
  }
}
