/** Feed reconciliation of the janitor (manager_janitor.go): which feeds to start and stop so that
    every writable pindex is fed. */
module Feeds {
  import opened Plan
  import opened Janitor
  import Text

  const ONE_FEED_PER_PINDEX := "oneFeedPerPIndex"

  /** `dests` maps each source partition to the name of the pindex that gets its data. */
  datatype Feed = Feed(name: string, dests: map<string, string>)

  /** `option` reads the feed allotment out of source parameters, "" when there is none. */
  datatype Ctx = Ctx(
    nodeUUID: string, plans: PlanPIndexes, pindexes: PIndexes, allotment: string, option: string -> string)

  function FeedNameForPIndex(c: Ctx, p: PIndex): (name: string) {
    var own := c.option(p.sourceParams);
    if (if own == "" then c.allotment else own) == ONE_FEED_PER_PINDEX then p.name
    else p.indexName + "_" + p.indexUUID
  }

  predicate CanWrite(c: Ctx, p: PIndex) {
    && p.name in c.plans && c.nodeUUID in c.plans[p.name].nodes
    && c.plans[p.name].nodes[c.nodeUUID].canWrite
  }

  predicate IsAmong(c: Ctx, except: set<string>, p: PIndex) {
    exists k | k in c.pindexes :: k !in except && c.pindexes[k] == p
  }

  /** The pindex is here, may be written, and belongs to the feed of that name. */
  predicate Feeds(c: Ctx, name: string, p: PIndex) {
    IsAmong(c, {}, p) && CanWrite(c, p) && FeedNameForPIndex(c, p) == name
  }

  function Partitions(p: PIndex): (r: seq<string>) {
    Text.Split(p.sourcePartitions, ',')
  }

  predicate Covers(dests: map<string, string>, p: PIndex) {
    forall i | 0 <= i < |Partitions(p)| :: Partitions(p)[i] in dests
  }

  /** The list of the pindexes that a feed serves, in some order. */
  ghost predicate IsGroup(c: Ctx, name: string, group: seq<PIndex>) {
    && group != []
    && (forall p :: p in group <==> Feeds(c, name, p))
    && (PIndexesKeyed(c.pindexes) ==> DistinctPIndexes(group))
  }

  ghost predicate IsWanted(c: Ctx, name: string) {
    exists p :: Feeds(c, name, p)
  }

  /** A feed is to be (re)started when it is missing or misses a source partition. */
  ghost predicate ToStart(c: Ctx, feeds: map<string, Feed>, name: string) {
    && IsWanted(c, name)
    && (name in feeds ==> exists p :: Feeds(c, name, p) && !Covers(feeds[name].dests, p))
  }

  ghost predicate ToStop(c: Ctx, feeds: map<string, Feed>, name: string) {
    name in feeds && (ToStart(c, feeds, name) || !IsWanted(c, name))
  }

  // ---------------------------------------------------------------- grouping

  predicate InGroup(groups: map<string, seq<PIndex>>, f: string, p: PIndex) {
    f in groups && p in groups[f]
  }

  ghost predicate GroupedSoFar(c: Ctx, todo: set<string>, groups: map<string, seq<PIndex>>) {
    && (forall f | f in groups :: groups[f] != [])
    && (forall f, p | f in groups && p in groups[f] ::
          CanWrite(c, p) && FeedNameForPIndex(c, p) == f && IsAmong(c, todo, p))
    && (forall k | k in c.pindexes && k !in todo && CanWrite(c, c.pindexes[k]) ::
          InGroup(groups, FeedNameForPIndex(c, c.pindexes[k]), c.pindexes[k]))
    && (PIndexesKeyed(c.pindexes) ==> forall f | f in groups :: DistinctPIndexes(groups[f]))
  }

  method GroupPIndexes(c: Ctx) returns (groups: map<string, seq<PIndex>>)
    ensures forall f :: f in groups <==> IsWanted(c, f)
    ensures forall f | f in groups :: IsGroup(c, f, groups[f])
  {
    groups := map[];
    var todo := c.pindexes.Keys;
    while todo != {}
      invariant todo <= c.pindexes.Keys && GroupedSoFar(c, todo, groups)
      decreases |todo|
    {
      var k :| k in todo;
      var p := c.pindexes[k];
      GroupStep(c, todo, groups, k);
      todo := todo - {k};
      if CanWrite(c, p) {
        var name := FeedNameForPIndex(c, p);
        groups := groups[name := (if name in groups then groups[name] else []) + [p]];
      }
    }
    GroupsDone(c, groups);
  }

  lemma GroupStep(c: Ctx, todo: set<string>, groups: map<string, seq<PIndex>>, k: string)
    requires k in todo && k in c.pindexes && GroupedSoFar(c, todo, groups)
    ensures var p := c.pindexes[k]; var name := FeedNameForPIndex(c, p);
            GroupedSoFar(c, todo - {k},
                         if CanWrite(c, p)
                         then groups[name := (if name in groups then groups[name] else []) + [p]]
                         else groups)
  {
    var p, todo' := c.pindexes[k], todo - {k};
    var name := FeedNameForPIndex(c, p);
    var group := if name in groups then groups[name] else [];
    var groups' := if CanWrite(c, p) then groups[name := group + [p]] else groups;
    assert k !in todo' && IsAmong(c, todo', p);
    forall q | IsAmong(c, todo, q)
      ensures IsAmong(c, todo', q) && (PIndexesKeyed(c.pindexes) ==> q.name != p.name)
    {
      var j :| j in c.pindexes && j !in todo && c.pindexes[j] == q;
    }
    forall j | j in c.pindexes && j !in todo' && CanWrite(c, c.pindexes[j])
      ensures InGroup(groups', FeedNameForPIndex(c, c.pindexes[j]), c.pindexes[j])
    {
      assert j != k ==> InGroup(groups, FeedNameForPIndex(c, c.pindexes[j]), c.pindexes[j]);
    }
    if PIndexesKeyed(c.pindexes) {
      assert DistinctPIndexes(group);
      DistinctAppend(group, p);
    }
  }

  lemma DistinctAppend(group: seq<PIndex>, p: PIndex)
    requires DistinctPIndexes(group) && forall q | q in group :: q.name != p.name
    ensures DistinctPIndexes(group + [p])
  {
    assert forall i | 0 <= i < |group| :: group[i] in group;
  }

  lemma GroupsDone(c: Ctx, groups: map<string, seq<PIndex>>)
    requires GroupedSoFar(c, {}, groups)
    ensures forall f :: f in groups <==> IsWanted(c, f)
    ensures forall f | f in groups :: IsGroup(c, f, groups[f])
  {
    forall f | f in groups
      ensures IsGroup(c, f, groups[f]) && IsWanted(c, f)
    {
      forall p
        ensures p in groups[f] <==> Feeds(c, f, p)
      {
        if Feeds(c, f, p) {
          var k :| k in c.pindexes && c.pindexes[k] == p;
          assert InGroup(groups, f, p);
        }
      }
      assert groups[f][0] in groups[f];
    }
    forall f | IsWanted(c, f)
      ensures f in groups
    {
      var p :| Feeds(c, f, p);
      var k :| k in c.pindexes && c.pindexes[k] == p;
      assert InGroup(groups, f, p);
    }
  }

  // ---------------------------------------------------------------- the delta

  method IsChanged(dests: map<string, string>, group: seq<PIndex>) returns (changed: bool)
    ensures changed <==> exists p :: p in group && !Covers(dests, p)
  {
    for j := 0 to |group|
      invariant forall k | 0 <= k < j :: Covers(dests, group[k])
    {
      var partitions := Partitions(group[j]);
      for i := 0 to |partitions|
        invariant forall k | 0 <= k < i :: partitions[k] in dests
      {
        if partitions[i] !in dests {
          assert Partitions(group[j])[i] !in dests;
          assert group[j] in group && !Covers(dests, group[j]);
          return true;
        }
      }
    }
    return false;
  }

  method MissingOrChanged(c: Ctx, feeds: map<string, Feed>, name: string, group: seq<PIndex>) returns (r: bool)
    requires IsGroup(c, name, group)
    ensures r == ToStart(c, feeds, name) && IsWanted(c, name)
  {
    assert group[0] in group && Feeds(c, name, group[0]);
    if name !in feeds {
      return true;
    }
    r := IsChanged(feeds[name].dests, group);
    assert forall p :: p in group <==> Feeds(c, name, p);
  }

  ghost predicate Distinct(names: seq<string>) {
    forall i, j | 0 <= i < j < |names| :: names[i] != names[j]
  }

  /** `adds` are the groups of the feeds `starts`, `removes` the feeds `stops`, each once. */
  ghost predicate IsFeedsDelta(c: Ctx, feeds: map<string, Feed>, adds: seq<seq<PIndex>>, starts: seq<string>,
                               removes: seq<Feed>, stops: seq<string>) {
    && Distinct(starts) && (forall f :: f in starts <==> ToStart(c, feeds, f))
    && |adds| == |starts| && (forall i | 0 <= i < |starts| :: IsGroup(c, starts[i], adds[i]))
    && Distinct(stops) && (forall f :: f in stops <==> ToStop(c, feeds, f))
    && |removes| == |stops| && (forall i | 0 <= i < |stops| :: stops[i] in feeds && removes[i] == feeds[stops[i]])
  }

  /** The same over the feed names in `done`. */
  ghost predicate DeltaSoFar(c: Ctx, feeds: map<string, Feed>, done: set<string>, adds: seq<seq<PIndex>>,
                             starts: seq<string>, removes: seq<Feed>, stops: seq<string>) {
    && Distinct(starts) && (forall f :: f in starts <==> f in done && ToStart(c, feeds, f))
    && |adds| == |starts| && (forall i | 0 <= i < |starts| :: IsGroup(c, starts[i], adds[i]))
    && Distinct(stops) && (forall f :: f in stops <==> f in done && ToStop(c, feeds, f))
    && |removes| == |stops| && (forall i | 0 <= i < |stops| :: stops[i] in feeds && removes[i] == feeds[stops[i]])
  }

  lemma DeltaStep(c: Ctx, feeds: map<string, Feed>, done: set<string>, adds: seq<seq<PIndex>>, starts: seq<string>,
                  removes: seq<Feed>, stops: seq<string>, name: string, group: seq<PIndex>)
    requires DeltaSoFar(c, feeds, done, adds, starts, removes, stops) && name !in done
    requires ToStart(c, feeds, name) ==> IsGroup(c, name, group)
    ensures DeltaSoFar(c, feeds, done + {name},
                       if ToStart(c, feeds, name) then adds + [group] else adds,
                       if ToStart(c, feeds, name) then starts + [name] else starts,
                       if ToStop(c, feeds, name) then removes + [feeds[name]] else removes,
                       if ToStop(c, feeds, name) then stops + [name] else stops)
  {
  }

  /** A changed feed is both stopped and started. */
  method CalcFeedsDelta(c: Ctx, feeds: map<string, Feed>) returns (adds: seq<seq<PIndex>>, removes: seq<Feed>)
    ensures exists starts, stops :: IsFeedsDelta(c, feeds, adds, starts, removes, stops)
  {
    var groups := GroupPIndexes(c);
    ghost var starts, stops;
    adds, removes, starts, stops := StartGroups(c, feeds, groups);
    removes, stops := RemoveUnwanted(c, feeds, groups, adds, starts, removes, stops);
  }

  method StartGroups(c: Ctx, feeds: map<string, Feed>, groups: map<string, seq<PIndex>>)
    returns (adds: seq<seq<PIndex>>, removes: seq<Feed>, ghost starts: seq<string>, ghost stops: seq<string>)
    requires forall f | f in groups :: IsGroup(c, f, groups[f])
    ensures DeltaSoFar(c, feeds, groups.Keys, adds, starts, removes, stops)
  {
    adds, removes, starts, stops := [], [], [], [];
    var todo := groups.Keys;
    ghost var done: set<string> := {};
    while todo != {}
      invariant forall f :: f in groups <==> f in todo || f in done
      invariant forall f | f in todo :: f !in done
      invariant DeltaSoFar(c, feeds, done, adds, starts, removes, stops)
      decreases |todo|
    {
      var name :| name in todo;
      var missingOrChanged := MissingOrChanged(c, feeds, name, groups[name]);
      DeltaStep(c, feeds, done, adds, starts, removes, stops, name, groups[name]);
      if missingOrChanged {
        adds, starts := adds + [groups[name]], starts + [name];
        if name in feeds {
          removes, stops := removes + [feeds[name]], stops + [name];
        }
      }
      todo := todo - {name};
      done := done + {name};
    }
    assert done == groups.Keys;
  }

  method RemoveUnwanted(c: Ctx, feeds: map<string, Feed>, groups: map<string, seq<PIndex>>,
                        ghost adds: seq<seq<PIndex>>,
                        ghost starts: seq<string>, removes0: seq<Feed>, ghost stops0: seq<string>)
    returns (removes: seq<Feed>, ghost stops: seq<string>)
    requires forall f :: f in groups <==> IsWanted(c, f)
    requires DeltaSoFar(c, feeds, groups.Keys, adds, starts, removes0, stops0)
    ensures IsFeedsDelta(c, feeds, adds, starts, removes, stops)
  {
    removes, stops := removes0, stops0;
    var todo := feeds.Keys;
    ghost var done := groups.Keys;
    while todo != {}
      invariant forall f :: f in done <==> f in groups || (f in feeds && f !in todo)
      invariant DeltaSoFar(c, feeds, done, adds, starts, removes, stops)
      decreases |todo|
    {
      var name :| name in todo;
      todo := todo - {name};
      if name !in groups && name in feeds {
        DeltaStep(c, feeds, done, adds, starts, removes, stops, name, []);
        done := done + {name};
        removes, stops := removes + [feeds[name]], stops + [name];
      }
    }
  }

  // ---------------------------------------------------------------- starting a feed

  datatype StartResult = NoPIndexes | StartError | Started(feed: Feed)

  function AllPartitions(group: seq<PIndex>): (r: seq<string>) {
    if group == [] then [] else AllPartitions(group[..|group| - 1]) + Partitions(group[|group| - 1])
  }

  predicate SameFeed(c: Ctx, name: string, group: seq<PIndex>) {
    forall i | 0 <= i < |group| :: FeedNameForPIndex(c, group[i]) == name
  }

  /** Each source partition of each pindex goes to that pindex, and there are no others. */
  ghost predicate IsDests(group: seq<PIndex>, dests: map<string, string>) {
    && (forall sp :: sp in dests <==> sp in AllPartitions(group))
    && (forall i | 0 <= i < |group| :: SentTo(dests, Partitions(group[i]), group[i].name))
  }

  ghost predicate SentTo(dests: map<string, string>, partitions: seq<string>, dest: string) {
    forall j | 0 <= j < |partitions| :: partitions[j] in dests && dests[partitions[j]] == dest
  }

  lemma {:induction false} PartitionsPrefix(group: seq<PIndex>, j: nat)
    requires j <= |group|
    ensures AllPartitions(group[..j]) <= AllPartitions(group)
    decreases |group|
  {
    if j < |group| {
      var init := group[..|group| - 1];
      PartitionsPrefix(init, j);
      assert init[..j] == group[..j];
    } else {
      assert group[..j] == group;
    }
  }

  method AddPartitions(dests0: map<string, string>, ghost sofar: seq<string>, p: PIndex)
    returns (ok: bool, dests: map<string, string>)
    requires Distinct(sofar) && forall sp :: sp in dests0 <==> sp in sofar
    ensures ok == Distinct(sofar + Partitions(p))
    ensures ok ==> forall sp :: sp in dests <==> sp in sofar + Partitions(p)
    ensures ok ==> SentTo(dests, Partitions(p), p.name)
    ensures ok ==> forall sp | sp in dests0 :: dests[sp] == dests0[sp]
  {
    dests := dests0;
    var partitions := Partitions(p);
    for i := 0 to |partitions|
      invariant Distinct(sofar + partitions[..i])
      invariant forall sp :: sp in dests <==> sp in sofar + partitions[..i]
      invariant SentTo(dests, partitions[..i], p.name)
      invariant forall sp | sp in dests0 :: dests[sp] == dests0[sp]
    {
      Appended(sofar, partitions, i);
      if partitions[i] in dests {
        return false, dests;
      }
      dests := dests[partitions[i] := p.name];
      assert partitions[..i + 1] == partitions[..i] + [partitions[i]];
    }
    assert partitions[..|partitions|] == partitions;
    ok := true;
  }

  /** One more partition collides exactly when it is there already, and then all of them do. */
  lemma {:induction false} Appended(sofar: seq<string>, partitions: seq<string>, i: nat)
    requires i < |partitions| && Distinct(sofar + partitions[..i])
    ensures sofar + partitions[..i + 1] == sofar + partitions[..i] + [partitions[i]]
    ensures Distinct(sofar + partitions[..i + 1]) <==> partitions[i] !in sofar + partitions[..i]
    ensures partitions[i] in sofar + partitions[..i] ==> !Distinct(sofar + partitions)
  {
    var seen, whole := sofar + partitions[..i], sofar + partitions;
    assert sofar + partitions[..i + 1] == seen + [partitions[i]];
    if partitions[i] in seen {
      var k :| 0 <= k < |seen| && seen[k] == partitions[i];
      assert whole[k] == seen[k] && whole[|seen|] == partitions[i];
      assert (seen + [partitions[i]])[k] == (seen + [partitions[i]])[|seen|];
    }
  }

  lemma {:induction false} IsDestsStep(group: seq<PIndex>, p: PIndex, dests: map<string, string>,
                                       dests': map<string, string>)
    requires IsDests(group, dests)
    requires forall sp :: sp in dests' <==> sp in AllPartitions(group) + Partitions(p)
    requires SentTo(dests', Partitions(p), p.name)
    requires forall sp | sp in dests :: dests'[sp] == dests[sp]
    ensures IsDests(group + [p], dests')
  {
    var next := group + [p];
    assert next[..|group|] == group && next[|group|] == p;
    forall i | 0 <= i < |next|
      ensures SentTo(dests', Partitions(next[i]), next[i].name)
    {
      if i < |group| {
        assert SentTo(dests, Partitions(group[i]), group[i].name);
      }
    }
  }

  /** The feed starts exactly when its pindexes agree on its name and no two of their source
      partitions collide. */
  method StartFeed(c: Ctx, group: seq<PIndex>) returns (r: StartResult)
    ensures r.NoPIndexes? <==> group == []
    ensures r.Started? <==> group != [] && CanStart(c, FeedNameForPIndex(c, group[0]), group)
    ensures r.Started? ==> r.feed.name == FeedNameForPIndex(c, group[0]) && IsDests(group, r.feed.dests)
  {
    if |group| <= 0 {
      return NoPIndexes;
    }
    var feedName := FeedNameForPIndex(c, group[0]);
    var dests: map<string, string> := map[];
    for j := 0 to |group|
      invariant CanStart(c, feedName, group[..j]) && IsDests(group[..j], dests)
    {
      assert group[..j + 1] == group[..j] + [group[j]];
      var ok;
      ok, dests := AddPIndex(c, feedName, group[..j], group[j], dests);
      if !ok {
        FailureStays(c, feedName, group, j + 1);
        return StartError;
      }
    }
    assert group[..|group|] == group;
    r := Started(Feed(feedName, dests));
  }

  /** The pindexes agree on the feed's name, and no two source partitions collide. */
  ghost predicate CanStart(c: Ctx, name: string, group: seq<PIndex>) {
    SameFeed(c, name, group) && Distinct(AllPartitions(group))
  }

  method AddPIndex(c: Ctx, feedName: string, ghost group: seq<PIndex>, p: PIndex, dests: map<string, string>)
    returns (ok: bool, dests': map<string, string>)
    requires CanStart(c, feedName, group) && IsDests(group, dests)
    ensures ok == CanStart(c, feedName, group + [p])
    ensures ok ==> IsDests(group + [p], dests')
  {
    ghost var next := group + [p];
    assert next[..|group|] == group && next[|group|] == p;
    if FeedNameForPIndex(c, p) != feedName {
      return false, dests;
    }
    ok, dests' := AddPartitions(dests, AllPartitions(group), p);
    if ok {
      IsDestsStep(group, p, dests, dests');
    }
  }

  lemma {:induction false} FailureStays(c: Ctx, name: string, group: seq<PIndex>, j: nat)
    requires j <= |group| && !CanStart(c, name, group[..j])
    ensures !CanStart(c, name, group)
  {
    PartitionsPrefix(group, j);
    var part, all := AllPartitions(group[..j]), AllPartitions(group);
    if a, b :| 0 <= a < b < |part| && part[a] == part[b] {
      assert all[a] == part[a] && all[b] == part[b];
    } else {
      var i :| 0 <= i < j && FeedNameForPIndex(c, group[..j][i]) != name;
      assert group[i] == group[..j][i];
    }
  }

  // ---------------------------------------------------------------- convergence

  predicate FeedsKeyed(feeds: map<string, Feed>) {
    forall f | f in feeds :: feeds[f].name == f
  }

  /** Pindexes that share a feed have disjoint source partitions. */
  ghost predicate DisjointPartitions(c: Ctx) {
    && (forall f, p | Feeds(c, f, p) :: Distinct(Partitions(p)))
    && (forall f, p, q | Feeds(c, f, p) && Feeds(c, f, q) && p != q :: NoneShared(Partitions(p), Partitions(q)))
  }

  ghost predicate NoneShared(a: seq<string>, b: seq<string>) {
    forall x | x in a :: x !in b
  }

  /** The feed sends each partition of each of its pindexes to that pindex, and nothing else. */
  ghost predicate IsFresh(c: Ctx, f: string, feed: Feed) {
    && feed.name == f
    && (forall p | Feeds(c, f, p) :: SentTo(feed.dests, Partitions(p), p.name))
    && (forall sp | sp in feed.dests :: exists p :: Feeds(c, f, p) && sp in Partitions(p))
  }

  /** The feeds after the delta: one for each wanted name, new where it had to be started. */
  ghost predicate FeedsReconciled(c: Ctx, feeds: map<string, Feed>, after: map<string, Feed>) {
    && (forall f :: f in after <==> IsWanted(c, f))
    && (forall f | f in after ::
          if ToStart(c, feeds, f) then IsFresh(c, f, after[f]) else f in feeds && after[f] == feeds[f])
  }

  lemma {:induction false} PartitionsFrom(group: seq<PIndex>, sp: string)
    ensures sp in AllPartitions(group) <==> exists p :: p in group && sp in Partitions(p)
  {
    if group != [] {
      var init, last := group[..|group| - 1], group[|group| - 1];
      assert group == init + [last];
      PartitionsFrom(init, sp);
      assert last in group;
    }
  }

  lemma {:induction false} NoCollision(c: Ctx, f: string, group: seq<PIndex>)
    requires DisjointPartitions(c) && DistinctPIndexes(group) && forall p | p in group :: Feeds(c, f, p)
    ensures Distinct(AllPartitions(group))
  {
    if group != [] {
      var init, last := group[..|group| - 1], group[|group| - 1];
      assert group == init + [last] && last in group;
      NoCollision(c, f, init);
      forall sp | sp in AllPartitions(init)
        ensures sp !in Partitions(last)
      {
        PartitionsFrom(init, sp);
        var p :| p in init && sp in Partitions(p);
        assert p != last && NoneShared(Partitions(p), Partitions(last));
      }
      DistinctConcat(AllPartitions(init), Partitions(last));
    }
  }

  lemma DistinctConcat(a: seq<string>, b: seq<string>)
    requires Distinct(a) && Distinct(b) && NoneShared(a, b)
    ensures Distinct(a + b)
  {
    assert forall i | 0 <= i < |a| :: a[i] in a && a[i] !in b;
  }

  /** Under disjoint partitions every feed of the delta starts, and starts right. */
  lemma GroupStarts(c: Ctx, f: string, group: seq<PIndex>)
    requires DisjointPartitions(c) && PIndexesKeyed(c.pindexes) && IsGroup(c, f, group)
    ensures CanStart(c, f, group) && FeedNameForPIndex(c, group[0]) == f
  {
    assert forall i | 0 <= i < |group| :: group[i] in group;
    NoCollision(c, f, group);
  }

  lemma GroupIsFresh(c: Ctx, f: string, group: seq<PIndex>, feed: Feed)
    requires IsGroup(c, f, group) && feed.name == f && IsDests(group, feed.dests)
    ensures IsFresh(c, f, feed)
  {
    forall p | Feeds(c, f, p)
      ensures SentTo(feed.dests, Partitions(p), p.name)
    {
      assert p in group;
      var i :| 0 <= i < |group| && group[i] == p;
    }
    forall sp | sp in feed.dests
      ensures exists p :: Feeds(c, f, p) && sp in Partitions(p)
    {
      PartitionsFrom(group, sp);
      var p :| p in group && sp in Partitions(p);
      assert Feeds(c, f, p);
    }
  }

  method StopFeeds(feeds: map<string, Feed>, removes: seq<Feed>, ghost stops: seq<string>)
    returns (after: map<string, Feed>)
    requires |removes| == |stops| && forall i | 0 <= i < |stops| :: removes[i].name == stops[i]
    ensures forall f :: f in after <==> f in feeds && f !in stops
    ensures forall f | f in after :: after[f] == feeds[f]
  {
    after := feeds;
    for i := 0 to |removes|
      invariant forall f :: f in after <==> f in feeds && f !in stops[..i]
      invariant forall f | f in after :: after[f] == feeds[f]
    {
      after := after - {removes[i].name};
      assert stops[..i + 1] == stops[..i] + [stops[i]];
    }
    assert stops[..|stops|] == stops;
  }

  method StartFeeds(c: Ctx, feeds: map<string, Feed>, adds: seq<seq<PIndex>>, ghost starts: seq<string>)
    returns (after: map<string, Feed>)
    requires DisjointPartitions(c) && PIndexesKeyed(c.pindexes)
    requires |adds| == |starts| && forall i | 0 <= i < |starts| :: IsGroup(c, starts[i], adds[i])
    requires Distinct(starts) && forall i | 0 <= i < |starts| :: starts[i] !in feeds
    ensures forall f :: f in after <==> f in feeds || f in starts
    ensures forall f | f in feeds :: after[f] == feeds[f]
    ensures forall f | f in starts :: IsFresh(c, f, after[f])
  {
    after := feeds;
    for i := 0 to |adds|
      invariant forall f :: f in after <==> f in feeds || f in starts[..i]
      invariant forall f | f in feeds :: after[f] == feeds[f]
      invariant forall k | 0 <= k < i :: starts[k] in after && IsFresh(c, starts[k], after[starts[k]])
    {
      GroupStarts(c, starts[i], adds[i]);
      var r := StartFeed(c, adds[i]);
      if r.Started? && r.feed.name !in after {
        GroupIsFresh(c, starts[i], adds[i], r.feed);
        after := after[r.feed.name := r.feed];
      }
      assert starts[..i + 1] == starts[..i] + [starts[i]];
    }
    assert starts[..|starts|] == starts;
  }

  /** One round of feed reconciliation, when the feeds' own start calls succeed. */
  method JanitorFeeds(c: Ctx, feeds: map<string, Feed>) returns (after: map<string, Feed>)
    requires PIndexesKeyed(c.pindexes) && FeedsKeyed(feeds) && DisjointPartitions(c)
    ensures FeedsReconciled(c, feeds, after)
  {
    var adds, removes := CalcFeedsDelta(c, feeds);
    ghost var starts, stops :| IsFeedsDelta(c, feeds, adds, starts, removes, stops);
    after := StopFeeds(feeds, removes, stops);
    assert forall i | 0 <= i < |starts| :: starts[i] in starts;
    after := StartFeeds(c, after, adds, starts);
  }

  /** After a round every feed serves a writable pindex, and every writable pindex has a feed that
      covers its source partitions. They go to the pindex itself, unless the feed was kept and sent
      one of them elsewhere before. */
  lemma EveryPIndexFed(c: Ctx, feeds: map<string, Feed>, after: map<string, Feed>, p: PIndex)
    requires FeedsReconciled(c, feeds, after) && IsAmong(c, {}, p) && CanWrite(c, p)
    ensures forall g | g in after :: exists q :: Feeds(c, g, q)
    ensures var f := FeedNameForPIndex(c, p);
            && f in after && Covers(after[f].dests, p)
            && (SentTo(after[f].dests, Partitions(p), p.name) <==>
                ToStart(c, feeds, f) || (f in feeds && SentTo(feeds[f].dests, Partitions(p), p.name)))
  {
    var f := FeedNameForPIndex(c, p);
    assert Feeds(c, f, p);
    assert forall g | g in after :: IsWanted(c, g);
    if ToStart(c, feeds, f) {
      assert SentTo(after[f].dests, Partitions(p), p.name);
    }
  }

  /** After a round there is nothing left to start or stop. */
  lemma NextFeedsDeltaEmpty(c: Ctx, feeds: map<string, Feed>, after: map<string, Feed>, adds: seq<seq<PIndex>>,
                            starts: seq<string>, removes: seq<Feed>, stops: seq<string>)
    requires FeedsReconciled(c, feeds, after) && IsFeedsDelta(c, after, adds, starts, removes, stops)
    ensures adds == [] && removes == []
  {
    forall f
      ensures !ToStart(c, after, f) && !ToStop(c, after, f)
    {
      if IsWanted(c, f) {
        forall p | Feeds(c, f, p)
          ensures Covers(after[f].dests, p)
        {
          EveryPIndexFed(c, feeds, after, p);
        }
      }
    }
    HasMember(starts);
    HasMember(stops);
  }

  // ---------------------------------------------------------------- feeds that are kept

  /** The round leaves this feed running: it is wanted and misses no partition. */
  ghost predicate IsKept(c: Ctx, feeds: map<string, Feed>, f: string) {
    f in feeds && IsWanted(c, f) && !ToStart(c, feeds, f)
  }

  /** The feed may still send this partition: some writable pindex of the feed has it, and whichever
      has it is where the feed sends it. */
  ghost predicate DestOk(c: Ctx, f: string, feed: Feed, sp: string)
    requires sp in feed.dests
  {
    && (exists p :: Feeds(c, f, p) && sp in Partitions(p))
    && (forall p | Feeds(c, f, p) && sp in Partitions(p) :: feed.dests[sp] == p.name)
  }

  lemma KeptIsFresh(c: Ctx, feeds: map<string, Feed>, f: string)
    requires IsKept(c, feeds, f)
    ensures IsFresh(c, f, feeds[f]) <==>
            feeds[f].name == f && forall sp | sp in feeds[f].dests :: DestOk(c, f, feeds[f], sp)
  {
    var feed := feeds[f];
    if IsFresh(c, f, feed) {
      forall sp, p | sp in feed.dests && Feeds(c, f, p) && sp in Partitions(p)
        ensures feed.dests[sp] == p.name
      {
        SentToOwner(feed.dests, Partitions(p), p.name, sp);
      }
    }
    if feed.name == f && forall sp | sp in feed.dests :: DestOk(c, f, feed, sp) {
      forall p | Feeds(c, f, p)
        ensures SentTo(feed.dests, Partitions(p), p.name)
      {
        assert Covers(feed.dests, p);
        forall j | 0 <= j < |Partitions(p)|
          ensures Partitions(p)[j] in feed.dests && feed.dests[Partitions(p)[j]] == p.name
        {
          assert DestOk(c, f, feed, Partitions(p)[j]);
        }
      }
      forall sp | sp in feed.dests
        ensures exists p :: Feeds(c, f, p) && sp in Partitions(p)
      {
        assert DestOk(c, f, feed, sp);
      }
    }
  }

  /** After a round every feed sends exactly the partitions of its writable pindexes, each to its own
      pindex, if and only if no feed that the round keeps has a destination that is out of date. */
  lemma AllFreshIff(c: Ctx, feeds: map<string, Feed>, after: map<string, Feed>)
    requires FeedsReconciled(c, feeds, after)
    ensures (forall f | f in after :: IsFresh(c, f, after[f])) <==>
            forall f | IsKept(c, feeds, f) ::
              feeds[f].name == f && forall sp | sp in feeds[f].dests :: DestOk(c, f, feeds[f], sp)
  {
    forall f | IsKept(c, feeds, f)
      ensures f in after && after[f] == feeds[f]
      ensures IsFresh(c, f, after[f]) <==>
              feeds[f].name == f && forall sp | sp in feeds[f].dests :: DestOk(c, f, feeds[f], sp)
    {
      KeptIsFresh(c, feeds, f);
    }
    assert forall f | f in after :: ToStart(c, feeds, f) || IsKept(c, feeds, f);
  }

  ghost predicate SendsTo(feed: Feed, name: string) {
    exists sp :: sp in feed.dests && feed.dests[sp] == name
  }

  lemma FreshSendsToWritable(c: Ctx, f: string, feed: Feed, p: PIndex)
    requires IsFresh(c, f, feed) && PIndexesKeyed(c.pindexes) && IsAmong(c, {}, p) && !CanWrite(c, p)
    ensures !SendsTo(feed, p.name)
  {
    forall sp | sp in feed.dests
      ensures feed.dests[sp] != p.name
    {
      var q :| Feeds(c, f, q) && sp in Partitions(q);
      SentToOwner(feed.dests, Partitions(q), q.name, sp);
      SameNameSame(c, p, q);
    }
  }

  lemma SentToOwner(dests: map<string, string>, partitions: seq<string>, dest: string, sp: string)
    requires SentTo(dests, partitions, dest) && sp in partitions
    ensures sp in dests && dests[sp] == dest
  {
    var j :| 0 <= j < |partitions| && partitions[j] == sp;
  }

  lemma SameNameSame(c: Ctx, p: PIndex, q: PIndex)
    requires PIndexesKeyed(c.pindexes) && IsAmong(c, {}, p) && IsAmong(c, {}, q)
    ensures p.name == q.name ==> p == q
  {
  }

  /** A pindex that may not be written, perhaps because ingest is paused, is left without a feed if
      and only if no feed that the round keeps sends to it. */
  lemma PausedUnfedIff(c: Ctx, feeds: map<string, Feed>, after: map<string, Feed>, p: PIndex)
    requires FeedsReconciled(c, feeds, after) && PIndexesKeyed(c.pindexes) && IsAmong(c, {}, p) && !CanWrite(c, p)
    ensures (forall f | f in after :: !SendsTo(after[f], p.name)) <==>
            forall f | IsKept(c, feeds, f) :: !SendsTo(feeds[f], p.name)
  {
    forall f | f in after && ToStart(c, feeds, f)
      ensures !SendsTo(after[f], p.name)
    {
      FreshSendsToWritable(c, f, after[f], p);
    }
    assert forall f | IsKept(c, feeds, f) :: f in after && after[f] == feeds[f];
    assert forall f | f in after :: ToStart(c, feeds, f) || IsKept(c, feeds, f);
  }

  const PINDEX_A := PIndex("q", "", "i", "u", "", "", "", "", "", "a", "")
  const PINDEX_B := PIndex("p", "", "i", "u", "", "", "", "", "", "b", "")
  const FEED_AB := Feed("i_u", map["a" := "q", "b" := "p"])

  /** Two pindexes of one index, of which the second may be written or not. */
  function TwoPIndexes(canWrite: bool): (c: Ctx) {
    var plan :=
      PlanPIndex("q", "", "", "i", "u", "", "", "", "", "", "a", "", map["n" := PlanPIndexNode(true, true, 0)]);
    var planB := plan.(name := "p", sourcePartitions := "b", nodes := map["n" := PlanPIndexNode(true, canWrite, 0)]);
    Ctx("n", map["q" := plan, "p" := planB], map["q" := PINDEX_A, "p" := PINDEX_B], "", _ => "")
  }

  lemma TwoFeeds(canWrite: bool, f: string, r: PIndex)
    ensures Feeds(TwoPIndexes(canWrite), f, r) <==> f == "i_u" && (r == PINDEX_A || (canWrite && r == PINDEX_B))
  {
    var c := TwoPIndexes(canWrite);
    assert "i" + "_" + "u" == "i_u";
    assert "q" in c.pindexes && "p" in c.pindexes;
    assert IsAmong(c, {}, r) <==> r == PINDEX_A || r == PINDEX_B;
  }

  lemma TwoPartitions()
    ensures Partitions(PINDEX_A) == ["a"] && Partitions(PINDEX_B) == ["b"]
  {
    Text.SplitPlain("a", ',');
    Text.SplitPlain("b", ',');
  }

  lemma TwoDisjoint(canWrite: bool)
    ensures DisjointPartitions(TwoPIndexes(canWrite))
  {
    TwoPartitions();
    forall f, r {
      TwoFeeds(canWrite, f, r);
    }
  }

  /** A feed for two pindexes with one partition each. */
  lemma PairIsFresh(c: Ctx, f: string, feed: Feed, p: PIndex, q: PIndex, x: string, y: string)
    requires forall r :: Feeds(c, f, r) <==> r == p || r == q
    requires Partitions(p) == [x] && Partitions(q) == [y] && x != y
    requires feed == Feed(f, map[x := p.name, y := q.name])
    ensures IsFresh(c, f, feed)
  {
    assert x in Partitions(p) && y in Partitions(q);
    assert Feeds(c, f, p) && Feeds(c, f, q);
  }

  lemma TwoFresh()
    ensures IsFresh(TwoPIndexes(true), "i_u", FEED_AB)
  {
    TwoPartitions();
    forall r {
      TwoFeeds(true, "i_u", r);
    }
    PairIsFresh(TwoPIndexes(true), "i_u", FEED_AB, PINDEX_A, PINDEX_B, "a", "b");
  }

  /** The first round starts the feed for both. */
  lemma TwoStarted()
    ensures FeedsReconciled(TwoPIndexes(true), map[], map["i_u" := FEED_AB])
  {
    var c := TwoPIndexes(true);
    TwoFresh();
    forall f
      ensures IsWanted(c, f) <==> f == "i_u"
    {
      TwoFeeds(true, f, PINDEX_A);
      if IsWanted(c, f) {
        var r :| Feeds(c, f, r);
        TwoFeeds(true, f, r);
      }
    }
  }

  /** The next one keeps it. */
  lemma TwoKept()
    ensures var feeds := map["i_u" := FEED_AB]; FeedsReconciled(TwoPIndexes(false), feeds, feeds)
  {
    var c := TwoPIndexes(false);
    TwoPartitions();
    forall f, r {
      TwoFeeds(false, f, r);
    }
    assert Feeds(c, "i_u", PINDEX_A) && Covers(FEED_AB.dests, PINDEX_A);
  }

  lemma TwoWritable()
    ensures IsAmong(TwoPIndexes(false), {}, PINDEX_B) && PIndexesKeyed(TwoPIndexes(false).pindexes)
    ensures CanWrite(TwoPIndexes(true), PINDEX_B) && !CanWrite(TwoPIndexes(false), PINDEX_B)
    ensures SendsTo(FEED_AB, PINDEX_B.name)
  {
    assert "p" in TwoPIndexes(false).pindexes;
    assert "b" in FEED_AB.dests && FEED_AB.dests["b"] == "p";
  }

  /** Only missing partitions are noticed. Two pindexes of an index are fed by one feed; then one of
      them may no longer be written, and the next round still leaves the feed as it is. */
  lemma PausedStaysFed() returns (c0: Ctx, c: Ctx, feeds: map<string, Feed>, p: PIndex)
    ensures PIndexesKeyed(c.pindexes) && DisjointPartitions(c0) && DisjointPartitions(c)
    ensures c0.(plans := c.plans) == c && FeedsReconciled(c0, map[], feeds)
    ensures IsAmong(c, {}, p) && CanWrite(c0, p) && !CanWrite(c, p)
    ensures FeedsReconciled(c, feeds, feeds)
    ensures exists f :: f in feeds && SendsTo(feeds[f], p.name)
  {
    c0, c, feeds, p := TwoPIndexes(true), TwoPIndexes(false), map["i_u" := FEED_AB], PINDEX_B;
    TwoDisjoint(true);
    TwoDisjoint(false);
    TwoStarted();
    TwoKept();
    TwoWritable();
    assert SendsTo(feeds["i_u"], p.name);
  }
}
