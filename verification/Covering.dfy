/** The choice of a covering set of pindexes for a query (pindex.go ClassifyPIndexes). */
module Covering {
  import opened Common
  import opened Plan
  import Janitor
  import Text

  /** The manager's own node and open pindexes, the wanted nodes, and what the query asks for. */
  datatype Ctx = Ctx(
    selfUUID: string, pindexes: Janitor.PIndexes, nodeDefs: map<string, NodeDef>,
    indexName: string, indexUUID: string, filter: PlanPIndexNode -> bool)

  datatype RemotePlanPIndex = RemotePlanPIndex(plan: PlanPIndex, nodeDef: NodeDef)

  // ---------------------------------------------------------------- which nodes can serve

  /** The node is wanted under its own UUID and takes pindexes: it has no tags, or that tag. */
  predicate DoesPIndexes(c: Ctx, node: string) {
    && node in c.nodeDefs && c.nodeDefs[node].uuid == node
    && (c.nodeDefs[node].tags == [] || "pindex" in c.nodeDefs[node].tags)
  }

  /** The local pindex is open and is the one the query is about. */
  predicate LocalOk(c: Ctx, plan: PlanPIndex) {
    && plan.name in c.pindexes
    && c.pindexes[plan.name].name == plan.name
    && c.pindexes[plan.name].indexName == c.indexName
    && (c.indexUUID == "" || c.pindexes[plan.name].indexUUID == c.indexUUID)
  }

  predicate CanServe(c: Ctx, plan: PlanPIndex, node: string) {
    && node in plan.nodes && DoesPIndexes(c, node) && c.filter(plan.nodes[node])
    && (node == c.selfUUID ==> LocalOk(c, plan))
  }

  /** The search starts from the largest priority, which only the local node can meet. */
  predicate IsEligible(c: Ctx, plan: PlanPIndex, node: string) {
    && CanServe(c, plan, node)
    && (plan.nodes[node].priority < Text.MAX_INT64
        || (plan.nodes[node].priority == Text.MAX_INT64 && node == c.selfUUID))
  }

  /** Below the largest priority every node that can serve is eligible. */
  lemma EligibleBelowMax(c: Ctx, plan: PlanPIndex, node: string)
    requires forall n | n in plan.nodes :: plan.nodes[n].priority < Text.MAX_INT64
    ensures IsEligible(c, plan, node) <==> CanServe(c, plan, node)
  {
  }

  /** No eligible node has a lower priority than the choice, and at its priority the local one wins. */
  ghost predicate IsBest(c: Ctx, plan: PlanPIndex, among: set<string>, choice: Option<string>) {
    match choice
    case None => forall n | n in among :: !IsEligible(c, plan, n)
    case Some(best) =>
      && best in among && IsEligible(c, plan, best)
      && forall n | n in among && IsEligible(c, plan, n) ::
           && plan.nodes[best].priority <= plan.nodes[n].priority
           && (n == c.selfUUID && plan.nodes[n].priority == plan.nodes[best].priority ==> best == n)
  }

  method NodeDoesPIndexes(c: Ctx, node: string) returns (ok: bool)
    ensures ok == DoesPIndexes(c, node)
  {
    if node in c.nodeDefs && c.nodeDefs[node].uuid == node {
      var tags := c.nodeDefs[node].tags;
      if |tags| <= 0 {
        return true;
      }
      for i := 0 to |tags|
        invariant "pindex" !in tags[..i]
      {
        if tags[i] == "pindex" {
          return true;
        }
      }
    }
    return false;
  }

  /** The better of a choice and one more node. */
  function Better(c: Ctx, plan: PlanPIndex, choice: Option<string>, node: string): (r: Option<string>)
    requires node in plan.nodes && (choice.Some? ==> choice.value in plan.nodes)
  {
    var lowest := if choice.None? then Text.MAX_INT64 else plan.nodes[choice.value].priority;
    var priority := plan.nodes[node].priority;
    if CanServe(c, plan, node) && (priority < lowest || (priority == lowest && node == c.selfUUID))
    then Some(node)
    else choice
  }

  lemma BestStep(c: Ctx, plan: PlanPIndex, seen: set<string>, choice: Option<string>, node: string)
    requires node in plan.nodes && seen <= plan.nodes.Keys && IsBest(c, plan, seen, choice)
    ensures IsBest(c, plan, seen + {node}, Better(c, plan, choice, node))
  {
  }

  /** For every order in which the nodes are visited. */
  method LowestNode(c: Ctx, plan: PlanPIndex) returns (lowestNode: Option<string>)
    ensures IsBest(c, plan, plan.nodes.Keys, lowestNode)
  {
    var lowestPriority := Text.MAX_INT64;
    lowestNode := None;
    var todo := plan.nodes.Keys;
    ghost var seen: set<string> := {};
    while todo != {}
      invariant forall n :: n in plan.nodes <==> n in seen || n in todo
      invariant IsBest(c, plan, seen, lowestNode)
      invariant lowestPriority == PriorityOf(plan, lowestNode)
      decreases |todo|
    {
      var node :| node in todo;
      BestStep(c, plan, seen, lowestNode, node);
      lowestNode, lowestPriority := Consider(c, plan, node, lowestNode, lowestPriority);
      todo := todo - {node};
      seen := seen + {node};
    }
    assert seen == plan.nodes.Keys;
  }

  function PriorityOf(plan: PlanPIndex, choice: Option<string>): (priority: int) {
    if choice.Some? && choice.value in plan.nodes then plan.nodes[choice.value].priority else Text.MAX_INT64
  }

  /** The loop's body for one node. */
  method Consider(c: Ctx, plan: PlanPIndex, node: string, choice: Option<string>, priority: int)
    returns (lowestNode: Option<string>, lowestPriority: int)
    requires node in plan.nodes && (choice.Some? ==> choice.value in plan.nodes) && priority == PriorityOf(plan, choice)
    ensures lowestNode == Better(c, plan, choice, node) && lowestPriority == PriorityOf(plan, lowestNode)
  {
    lowestNode, lowestPriority := choice, priority;
    var planNode := plan.nodes[node];
    var nodeLocal := node == c.selfUUID;
    var nodeLocalOk := false;
    if nodeLocal {
      if && plan.name in c.pindexes && c.pindexes[plan.name].name == plan.name
         && c.pindexes[plan.name].indexName == c.indexName
         && (c.indexUUID == "" || c.pindexes[plan.name].indexUUID == c.indexUUID) {
        nodeLocalOk := true;
      }
    }
    var ok := NodeDoesPIndexes(c, node);
    if ok && c.filter(planNode) {
      if planNode.priority < lowestPriority {
        if !nodeLocal || (nodeLocal && nodeLocalOk) {
          lowestNode := Some(node);
          lowestPriority := planNode.priority;
        }
      } else if planNode.priority == lowestPriority {
        if nodeLocal && nodeLocalOk {
          lowestNode := Some(node);
          lowestPriority := planNode.priority;
        }
      }
    }
  }

  // ---------------------------------------------------------------- the three lists

  /** A plan pindex and the node picked for it. */
  datatype Pick = Pick(plan: PlanPIndex, node: Option<string>)

  datatype Cover = Cover(locals: seq<PIndex>, remotes: seq<RemotePlanPIndex>, missing: seq<string>)

  predicate IsLocal(c: Ctx, pick: Pick) {
    pick.node == Some(c.selfUUID) && pick.plan.name in c.pindexes
  }

  predicate IsRemote(c: Ctx, pick: Pick) {
    pick.node.Some? && pick.node.value != c.selfUUID && pick.node.value in c.nodeDefs
  }

  /** The lists with one more pick. */
  function With(c: Ctx, cover: Cover, pick: Pick): (r: Cover) {
    if IsLocal(c, pick) then cover.(locals := cover.locals + [c.pindexes[pick.plan.name]])
    else if IsRemote(c, pick) then
      cover.(remotes := cover.remotes + [RemotePlanPIndex(pick.plan, c.nodeDefs[pick.node.value])])
    else cover.(missing := cover.missing + [pick.plan.name])
  }

  function CoverOf(c: Ctx, picks: seq<Pick>): (r: Cover) {
    if picks == [] then Cover([], [], []) else With(c, CoverOf(c, picks[..|picks| - 1]), picks[|picks| - 1])
  }

  /** The picks are the best nodes of these plan pindexes. */
  ghost predicate AreBest(c: Ctx, plans: seq<PlanPIndex>, picks: seq<Pick>) {
    && |plans| == |picks|
    && forall i | 0 <= i < |plans| :: picks[i].plan == plans[i] && IsBestPick(c, picks[i])
  }

  ghost predicate IsBestPick(c: Ctx, pick: Pick) {
    IsBest(c, pick.plan, pick.plan.nodes.Keys, pick.node)
  }

  /** Every plan pindex is served by a best node, locally or remotely, or is missing. */
  ghost predicate IsCover(c: Ctx, plans: seq<PlanPIndex>, cover: Cover) {
    exists picks :: AreBest(c, plans, picks) && cover == CoverOf(c, picks)
  }

  method ClassifyPIndexes(c: Ctx, plans: seq<PlanPIndex>)
    returns (locals: seq<PIndex>, remotes: seq<RemotePlanPIndex>, missing: seq<string>)
    ensures IsCover(c, plans, Cover(locals, remotes, missing))
  {
    locals, remotes, missing := [], [], [];
    ghost var picks: seq<Pick> := [];
    for i := 0 to |plans|
      invariant AreBest(c, plans[..i], picks) && Cover(locals, remotes, missing) == CoverOf(c, picks)
    {
      var plan := plans[i];
      var lowestNode := LowestNode(c, plan);
      ghost var pick := Pick(plan, lowestNode);
      assert (picks + [pick])[..i] == picks && IsBestPick(c, pick);
      picks := picks + [pick];
      if lowestNode.None? {
        missing := missing + [plan.name];
      } else if c.nodeDefs[lowestNode.value].uuid == c.selfUUID {
        locals := locals + [c.pindexes[plan.name]];
      } else {
        remotes := remotes + [RemotePlanPIndex(plan, c.nodeDefs[lowestNode.value])];
      }
    }
    assert plans[..|plans|] == plans;
  }

  // ---------------------------------------------------------------- what the lists cover

  function CountPIndexes(ps: seq<PIndex>, name: string): (n: nat) {
    if ps == [] then 0 else CountPIndexes(ps[..|ps| - 1], name) + if ps[|ps| - 1].name == name then 1 else 0
  }

  function CountRemotes(rs: seq<RemotePlanPIndex>, name: string): (n: nat) {
    if rs == [] then 0 else CountRemotes(rs[..|rs| - 1], name) + if rs[|rs| - 1].plan.name == name then 1 else 0
  }

  function CountPlans(ps: seq<PlanPIndex>, name: string): (n: nat) {
    if ps == [] then 0 else CountPlans(ps[..|ps| - 1], name) + if ps[|ps| - 1].name == name then 1 else 0
  }

  /** How often the name is in the three lists. */
  function Listed(cover: Cover, name: string): (n: nat) {
    CountPIndexes(cover.locals, name) + CountRemotes(cover.remotes, name) + multiset(cover.missing)[name]
  }

  lemma ListedStep(c: Ctx, cover: Cover, pick: Pick, name: string)
    requires IsLocal(c, pick) ==> c.pindexes[pick.plan.name].name == pick.plan.name
    ensures Listed(With(c, cover, pick), name) == Listed(cover, name) + if pick.plan.name == name then 1 else 0
  {
    if IsLocal(c, pick) {
      var p := c.pindexes[pick.plan.name];
      assert (cover.locals + [p])[..|cover.locals|] == cover.locals;
    } else if IsRemote(c, pick) {
      var r := RemotePlanPIndex(pick.plan, c.nodeDefs[pick.node.value]);
      assert (cover.remotes + [r])[..|cover.remotes|] == cover.remotes;
    }
  }

  lemma {:induction false} PicksListed(c: Ctx, plans: seq<PlanPIndex>, picks: seq<Pick>, name: string)
    requires AreBest(c, plans, picks)
    ensures Listed(CoverOf(c, picks), name) == CountPlans(plans, name)
  {
    if plans != [] {
      var n := |plans| - 1;
      PicksListed(c, plans[..n], picks[..n], name);
      assert IsBestPick(c, picks[n]);
      ListedStep(c, CoverOf(c, picks[..n]), picks[n], name);
    }
  }

  /** Each plan pindex is in exactly one of the local, remote and missing lists. */
  lemma {:induction false} EachPlanOnce(c: Ctx, plans: seq<PlanPIndex>, cover: Cover, name: string)
    requires IsCover(c, plans, cover)
    ensures Listed(cover, name) == CountPlans(plans, name)
  {
    var picks :| AreBest(c, plans, picks) && cover == CoverOf(c, picks);
    PicksListed(c, plans, picks, name);
  }

  /** No node can be picked for the plan pindex. */
  ghost predicate Unserved(c: Ctx, plan: PlanPIndex) {
    forall n | n in plan.nodes :: !IsEligible(c, plan, n)
  }

  ghost predicate HasUnserved(c: Ctx, plans: seq<PlanPIndex>, name: string) {
    exists i :: 0 <= i < |plans| && plans[i].name == name && Unserved(c, plans[i])
  }

  lemma {:induction false} UnservedStep(c: Ctx, plans: seq<PlanPIndex>, name: string)
    requires plans != []
    ensures var n := |plans| - 1;
            HasUnserved(c, plans, name) <==>
              HasUnserved(c, plans[..n], name) || (plans[n].name == name && Unserved(c, plans[n]))
  {
    var init := plans[..|plans| - 1];
    if HasUnserved(c, init, name) {
      var i :| 0 <= i < |init| && init[i].name == name && Unserved(c, init[i]);
      assert plans[i] == init[i];
    }
    if HasUnserved(c, plans, name) {
      var i :| 0 <= i < |plans| && plans[i].name == name && Unserved(c, plans[i]);
      assert i < |init| ==> init[i] == plans[i];
    }
  }

  lemma {:induction false} PicksMissing(c: Ctx, plans: seq<PlanPIndex>, picks: seq<Pick>, name: string)
    requires AreBest(c, plans, picks)
    ensures name in CoverOf(c, picks).missing <==> HasUnserved(c, plans, name)
  {
    if plans != [] {
      var n := |plans| - 1;
      PicksMissing(c, plans[..n], picks[..n], name);
      UnservedStep(c, plans, name);
      assert IsBestPick(c, picks[n]);
      MissingStep(c, CoverOf(c, picks[..n]), picks[n], name);
    }
  }

  lemma MissingStep(c: Ctx, cover: Cover, pick: Pick, name: string)
    requires IsBestPick(c, pick)
    ensures name in With(c, cover, pick).missing <==>
            name in cover.missing || (pick.plan.name == name && Unserved(c, pick.plan))
  {
    if pick.node.Some? {
      assert IsEligible(c, pick.plan, pick.node.value);
    }
  }

  /** A name is listed as missing exactly when it has a plan pindex that no node is eligible for. */
  lemma {:induction false} MissingIff(c: Ctx, plans: seq<PlanPIndex>, cover: Cover, name: string)
    requires IsCover(c, plans, cover)
    ensures name in cover.missing <==> HasUnserved(c, plans, name)
  {
    var picks :| AreBest(c, plans, picks) && cover == CoverOf(c, picks);
    PicksMissing(c, plans, picks, name);
  }
}
