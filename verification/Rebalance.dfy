/** The rebalancer's plan changes (rebalance/rebalance.go): how a requested move of a pindex to a
    node becomes one or two steps, and what each step writes into the plan. */
module Rebalance {
  import opened Common
  import opened Plan

  /** The state a move asks for; NoState goes with a deletion. */
  datatype PState = Primary | Replica | NoState

  datatype Op = Add | Del | Promote | Demote

  datatype StateOp = StateOp(state: PState, op: Op)

  datatype PIndexMoves = PIndexMoves(name: string, stateOps: seq<StateOp>)

  datatype UUIDSeq = UUIDSeq(uuid: string, seqNo: nat, sourceSeq: nat)

  /** pindex -> source partition -> node -> sequence number. */
  type Seqs = map<string, map<string, map<string, UUIDSeq>>>

  /** index -> pindex -> node -> last requested state and operation. */
  type CurrStates = map<string, map<string, map<string, StateOp>>>

  datatype NodePlanParam = NodePlanParam(canRead: bool, canWrite: bool)

  datatype IndexDef = IndexDef(name: string, nodePlanParams: map<string, map<string, NodePlanParam>>)

  // ---------------------------------------------------------------- moves

  /** A primary is never added or promoted in one step: the pindex first becomes, or stays, a replica. */
  function MovesFor(addPrimaryDirectly: bool, name: string, state: PState, op: Op): (pm: PIndexMoves)
    ensures pm.name == name && 1 <= |pm.stateOps| <= 2
    ensures pm.stateOps[|pm.stateOps| - 1].state == state
    ensures |pm.stateOps| == 2 ==> state == Primary && pm.stateOps[0].state == Replica && op != Del
  {
    if !addPrimaryDirectly && state == Primary && op == Add then
      PIndexMoves(name, [StateOp(Replica, Add), StateOp(Primary, Promote)])
    else if state == Primary && op == Promote then
      PIndexMoves(name, [StateOp(Replica, Promote), StateOp(Primary, Promote)])
    else
      PIndexMoves(name, [StateOp(state, op)])
  }

  method CreatePIndexesMoves(addPrimaryDirectly: bool, pindexes: seq<string>, states: seq<PState>, ops: seq<Op>)
    returns (pms: seq<PIndexMoves>)
    requires |pindexes| == |states| == |ops|
    ensures |pms| == |pindexes|
    ensures forall i | 0 <= i < |pms| :: pms[i] == MovesFor(addPrimaryDirectly, pindexes[i], states[i], ops[i])
  {
    pms := [];
    for i := 0 to |pindexes|
      invariant |pms| == i
      invariant forall j | 0 <= j < i :: pms[j] == MovesFor(addPrimaryDirectly, pindexes[j], states[j], ops[j])
    {
      pms := pms + [MovesFor(addPrimaryDirectly, pindexes[i], states[i], ops[i])];
    }
  }

  /** The moves that have a step beyond `length`, in order. */
  function LongMoves(pms: seq<PIndexMoves>, length: nat): (rv: seq<PIndexMoves>) {
    if pms == [] then
      []
    else
      var last := pms[|pms| - 1];
      var front := LongMoves(pms[..|pms| - 1], length);
      if |last.stateOps| > length then front + [last] else front
  }

  /** Exactly the long moves are kept, and distinct names stay distinct. */
  lemma {:induction false} LongMovesKept(pms: seq<PIndexMoves>, length: nat)
    ensures forall i | 0 <= i < |LongMoves(pms, length)| ::
              LongMoves(pms, length)[i] in pms && |LongMoves(pms, length)[i].stateOps| > length
    ensures forall i | 0 <= i < |pms| :: |pms[i].stateOps| > length ==> pms[i] in LongMoves(pms, length)
    ensures DistinctNames(pms) ==> DistinctNames(LongMoves(pms, length))
  {
    if pms != [] {
      LongMovesKept(pms[..|pms| - 1], length);
    }
  }

  method RemoveShortMoves(pms: seq<PIndexMoves>, length: nat) returns (rv: seq<PIndexMoves>)
    ensures rv == LongMoves(pms, length)
  {
    rv := [];
    for i := 0 to |pms|
      invariant rv == LongMoves(pms[..i], length)
    {
      assert pms[..i + 1][..i] == pms[..i];
      if |pms[i].stateOps| > length {
        rv := rv + [pms[i]];
      }
    }
    assert pms[..|pms|] == pms;
  }

  predicate DistinctNames(pms: seq<PIndexMoves>) {
    forall i, j | 0 <= i < j < |pms| :: pms[i].name != pms[j].name
  }

  // ---------------------------------------------------------------- one step on the plan

  /** The read and write flags configured for a node, falling back from the node to "" and from
      the index to the pindex to "". */
  function ReadWrite(def: IndexDef, pindex: string, node: string): (rw: NodePlanParam) {
    var params := def.nodePlanParams;
    if node in params then ReadWriteIn(params[node], def.name, pindex)
    else if "" in params then ReadWriteIn(params[""], def.name, pindex)
    else NodePlanParam(true, true)
  }

  function ReadWriteIn(m: map<string, NodePlanParam>, index: string, pindex: string): (rw: NodePlanParam) {
    if index in m then m[index]
    else if pindex in m then m[pindex]
    else if "" in m then m[""]
    else NodePlanParam(true, true)
  }

  /** The pindex's plan entry, taken from the end plan without its nodes when the plan has none. */
  function PlanEntry(plan: PlanPIndexes, endPlan: PlanPIndexes, pindex: string): (e: Option<PlanPIndex>) {
    if pindex in plan then Some(plan[pindex])
    else if pindex in endPlan then Some(endPlan[pindex].(nodes := map[]))
    else None
  }

  /** The nodes of a pindex after one step, or None where the source reports an invalid transition. */
  function UpdatedNodes(nodes: Nodes, node: string, so: StateOp, rw: NodePlanParam): (r: Option<Nodes>) {
    var entry := PlanPIndexNode(rw.canRead, rw.canWrite, if so.state == Replica then |nodes| else 0);
    if so.op == Add then
      if node in nodes then None else Some(nodes[node := entry])
    else if node !in nodes then
      None
    else if so.op == Del then
      Some(nodes - {node})
    else
      Some(nodes[node := entry])
  }

  function UpdatedPlan(plan: PlanPIndexes, endPlan: PlanPIndexes, def: IndexDef, pindex: string, node: string,
                       so: StateOp)
    : (r: Option<PlanPIndexes>)
  {
    var e := PlanEntry(plan, endPlan, pindex);
    if e.None? then
      None
    else
      var nodes := UpdatedNodes(e.value.nodes, node, so, ReadWrite(def, pindex, node));
      if nodes.None? then None else Some(plan[pindex := e.value.(nodes := nodes.value)])
  }

  /** What the scan for a former primary may answer, over every iteration order. */
  predicate IsFormerPrimary(nodes: Nodes, former: string) {
    if HasPrimary(nodes) then IsPrimary(nodes, former) else former == ""
  }

  /** A step touches one node's entry and no other, and a replica step on a non-empty pindex
      never yields a primary. */
  lemma StepTouchesOneNode(nodes: Nodes, node: string, so: StateOp, rw: NodePlanParam)
    requires UpdatedNodes(nodes, node, so, rw).Some?
    ensures var next := UpdatedNodes(nodes, node, so, rw).value;
            && (forall n | n != node :: (n in next <==> n in nodes) && (n in nodes ==> next[n] == nodes[n]))
            && (node in next <==> so.op != Del)
            && (so.op != Del ==> next[node].canRead == rw.canRead && next[node].canWrite == rw.canWrite)
            && (so.state == Replica && nodes != map[] && so.op != Del ==> next[node].priority >= 1)
            && (so.state != Replica && so.op != Del ==> IsPrimary(next, node))
  {
    if nodes != map[] {
      assert nodes.Keys != {};
    }
  }

  method UpdatePlanPIndexes(plan: PlanPIndexes, endPlan: PlanPIndexes, def: IndexDef, pindex: string, node: string,
                            so: StateOp)
    returns (next: Option<PlanPIndexes>, former: string)
    ensures next == UpdatedPlan(plan, endPlan, def, pindex, node, so)
    ensures next.Some? ==> IsFormerPrimary(PlanEntry(plan, endPlan, pindex).value.nodes, former)
  {
    var e := PlanEntry(plan, endPlan, pindex);
    former := "";
    if e.None? {
      return None, former;
    }
    var entry := e.value;
    var todo := entry.nodes.Keys;
    var found := false;
    while todo != {}
      invariant todo <= entry.nodes.Keys
      invariant found ==> IsPrimary(entry.nodes, former)
      invariant !found ==> former == "" && forall n | n in entry.nodes && n !in todo :: !IsPrimary(entry.nodes, n)
      decreases todo
    {
      var n :| n in todo;
      todo := todo - {n};
      if entry.nodes[n].priority <= 0 {
        former, found := n, true;
      }
    }
    var nodes := UpdatedNodes(entry.nodes, node, so, ReadWrite(def, pindex, node));
    if nodes.None? {
      return None, former;
    }
    next := Some(plan[pindex := entry.(nodes := nodes.value)]);
  }

  // ---------------------------------------------------------------- one round over a batch

  /** The plan after step `next` of every move of the batch, in order; None if any is refused. */
  function AssignedPlan(plan: PlanPIndexes, endPlan: PlanPIndexes, def: IndexDef, node: string,
                        pms: seq<PIndexMoves>, next: nat): (r: Option<PlanPIndexes>)
    requires forall i | 0 <= i < |pms| :: next < |pms[i].stateOps|
  {
    if pms == [] then
      Some(plan)
    else
      var front := AssignedPlan(plan, endPlan, def, node, pms[..|pms| - 1], next);
      var last := pms[|pms| - 1];
      if front.None? then None
      else UpdatedPlan(front.value, endPlan, def, last.name, node, last.stateOps[next])
  }

  /** A batch leaves every pindex it does not name alone. */
  lemma {:induction false} AssignedElsewhere(plan: PlanPIndexes, endPlan: PlanPIndexes, def: IndexDef, node: string,
                                             pms: seq<PIndexMoves>, next: nat, p: string)
    requires forall i | 0 <= i < |pms| :: next < |pms[i].stateOps|
    requires forall i | 0 <= i < |pms| :: pms[i].name != p
    requires AssignedPlan(plan, endPlan, def, node, pms, next).Some?
    ensures var after := AssignedPlan(plan, endPlan, def, node, pms, next).value;
            (p in after <==> p in plan) && (p in plan ==> after[p] == plan[p])
  {
    if pms != [] {
      AssignedElsewhere(plan, endPlan, def, node, pms[..|pms| - 1], next, p);
    }
  }

  /** A batch over distinct pindexes gives each of them its own single step, taken from the plan as it was. */
  lemma {:induction false} AssignedAt(plan: PlanPIndexes, endPlan: PlanPIndexes, def: IndexDef, node: string,
                                      pms: seq<PIndexMoves>, next: nat, i: nat)
    requires forall i | 0 <= i < |pms| :: next < |pms[i].stateOps|
    requires DistinctNames(pms) && i < |pms|
    requires AssignedPlan(plan, endPlan, def, node, pms, next).Some?
    ensures SteppedTo(plan, endPlan, def, pms[i].name, node, pms[i].stateOps[next],
                      AssignedPlan(plan, endPlan, def, node, pms, next).value)
  {
    var k := |pms| - 1;
    var front := pms[..k];
    if i == k {
      AssignedElsewhere(plan, endPlan, def, node, front, next, pms[k].name);
    } else {
      AssignedAt(plan, endPlan, def, node, front, next, i);
    }
  }

  /** `after` holds the pindex's entry as one step makes it from `plan`. */
  ghost predicate SteppedTo(plan: PlanPIndexes, endPlan: PlanPIndexes, def: IndexDef, pindex: string, node: string,
                            so: StateOp, after: PlanPIndexes)
  {
    var e := PlanEntry(plan, endPlan, pindex);
    && e.Some? && pindex in after
    && UpdatedNodes(e.value.nodes, node, so, ReadWrite(def, pindex, node)) == Some(after[pindex].nodes)
    && after[pindex] == e.value.(nodes := after[pindex].nodes)
  }

  // ---------------------------------------------------------------- requested states

  function StateOpOf(cs: CurrStates, index: string, pindex: string, node: string): (r: Option<StateOp>) {
    if index in cs && pindex in cs[index] && node in cs[index][pindex] then Some(cs[index][pindex][node]) else None
  }

  function WithStateOp(cs: CurrStates, index: string, pindex: string, node: string, so: StateOp): (r: CurrStates) {
    var pindexes := if index in cs then cs[index] else map[];
    var nodes := if pindex in pindexes then pindexes[pindex] else map[];
    cs[index := pindexes[pindex := nodes[node := so]]]
  }

  /** An add is refused where the node already holds the pindex in some state. */
  predicate AddAllowed(cs: CurrStates, index: string, pindex: string, node: string, so: StateOp) {
    var prev := StateOpOf(cs, index, pindex, node);
    so.op == Add ==> prev.None? || prev.value.state == NoState
  }

  /** The requested states after a whole batch; None at the first refused add. */
  function AssignedStates(cs: CurrStates, index: string, node: string, pms: seq<PIndexMoves>, next: nat)
    : (r: Option<CurrStates>)
    requires forall i | 0 <= i < |pms| :: next < |pms[i].stateOps|
  {
    if pms == [] then
      Some(cs)
    else
      var front := AssignedStates(cs, index, node, pms[..|pms| - 1], next);
      var last := pms[|pms| - 1];
      if front.None? || !AddAllowed(front.value, index, last.name, node, last.stateOps[next]) then None
      else Some(WithStateOp(front.value, index, last.name, node, last.stateOps[next]))
  }

  // ---------------------------------------------------------------- sequence numbers

  function GetUUIDSeq(m: Seqs, pindex: string, partition: string, node: string): (r: Option<UUIDSeq>) {
    if pindex in m && partition in m[pindex] && node in m[pindex][partition]
    then Some(m[pindex][partition][node])
    else None
  }

  function SetUUIDSeq(m: Seqs, pindex: string, partition: string, node: string, us: UUIDSeq): (r: Seqs)
    ensures forall p, s, n :: GetUUIDSeq(r, p, s, n) ==
              if p == pindex && s == partition && n == node then Some(us) else GetUUIDSeq(m, p, s, n)
  {
    var partitions := if pindex in m then m[pindex] else map[];
    var nodes := if partition in partitions then partitions[partition] else map[];
    m[pindex := partitions[partition := nodes[node := us]]]
  }

  /** A sample catches up with a wanted sequence: it is at or past the wanted one, or at or past the
      smaller of the two source sequences. */
  predicate UuidSeqReached(curr: UUIDSeq, want: UUIDSeq) {
    || curr.seqNo >= want.seqNo
    || curr.seqNo >= (if want.sourceSeq > curr.sourceSeq then curr.sourceSeq else want.sourceSeq)
  }

  // ---------------------------------------------------------------- the object

  /** The rebalancer's mutable fields, with the plan and the index definitions the Cfg stores. */
  class Rebalancer {
    var currStates: CurrStates
    var currSeqs: Seqs
    var wantSeqs: Seqs
    var planPIndexes: PlanPIndexes
    var indexDefs: map<string, IndexDef>
    const endPlanPIndexes: PlanPIndexes

    constructor (endPlan: PlanPIndexes, plan: PlanPIndexes, defs: map<string, IndexDef>)
      ensures endPlanPIndexes == endPlan && planPIndexes == plan && indexDefs == defs
      ensures currStates == map[] && currSeqs == map[] && wantSeqs == map[]
    {
      endPlanPIndexes, planPIndexes, indexDefs := endPlan, plan, defs;
      currStates, currSeqs, wantSeqs := map[], map[], map[];
    }

    method AssignPIndexCurrStates(index: string, pindex: string, node: string, so: StateOp) returns (ok: bool)
      modifies `currStates
      ensures ok == old(AddAllowed(currStates, index, pindex, node, so))
      ensures ok ==> currStates == old(WithStateOp(currStates, index, pindex, node, so))
      ensures !ok ==> forall i, p, n :: StateOpOf(currStates, i, p, n) == old(StateOpOf(currStates, i, p, n))
    {
      var pindexes := if index in currStates then currStates[index] else map[];
      var nodes := if pindex in pindexes then pindexes[pindex] else map[];
      currStates := currStates[index := pindexes[pindex := nodes]];
      if so.op == Add && node in nodes && nodes[node].state != NoState {
        return false;
      }
      currStates := currStates[index := pindexes[pindex := nodes[node := so]]];
      assert currStates == old(WithStateOp(currStates, index, pindex, node, so));
      ok := true;
    }

    /** One round: all requested states, then all plan entries, then one write of the plan, which
        happens only when nothing was refused and the compare-and-swap wins. */
    method AssignPIndexes(index: string, node: string, pms: seq<PIndexMoves>, next: nat, casWins: bool)
      returns (ok: bool, formerPrimaryNodes: seq<string>)
      requires forall i | 0 <= i < |pms| :: next < |pms[i].stateOps|
      modifies `currStates, `planPIndexes
      ensures ok == (&& casWins
                     && index in indexDefs
                     && old(AssignedStates(currStates, index, node, pms, next)).Some?
                     && old(AssignedPlan(planPIndexes, endPlanPIndexes, indexDefs[index], node, pms, next)).Some?)
      ensures ok ==> Some(currStates) == old(AssignedStates(currStates, index, node, pms, next))
      ensures ok ==>
                Some(planPIndexes) ==
                old(AssignedPlan(planPIndexes, endPlanPIndexes, indexDefs[index], node, pms, next))
      ensures !ok ==> planPIndexes == old(planPIndexes)
      ensures ok && DistinctNames(pms) ==> FormersOf(old(planPIndexes), endPlanPIndexes, pms, formerPrimaryNodes)
    {
      ok, formerPrimaryNodes := false, [];
      ok := RequestStates(index, node, pms, next);
      if !ok || index !in indexDefs {
        return false, [];
      }
      ok, formerPrimaryNodes := WritePlan(index, node, pms, next, casWins);
    }

    method RequestStates(index: string, node: string, pms: seq<PIndexMoves>, next: nat) returns (ok: bool)
      requires forall i | 0 <= i < |pms| :: next < |pms[i].stateOps|
      modifies `currStates
      ensures ok == old(AssignedStates(currStates, index, node, pms, next)).Some?
      ensures ok ==> Some(currStates) == old(AssignedStates(currStates, index, node, pms, next))
    {
      var done := 0;
      ok := true;
      while done < |pms|
        invariant done <= |pms|
        invariant ok && Some(currStates) == old(AssignedStates(currStates, index, node, pms[..done], next))
      {
        assert pms[..done + 1][..done] == pms[..done];
        ok := AssignPIndexCurrStates(index, pms[done].name, node, pms[done].stateOps[next]);
        if !ok {
          StaysRefused(old(currStates), index, node, pms, next, done + 1);
          return;
        }
        done := done + 1;
      }
      assert pms[..done] == pms;
    }

    method WritePlan(index: string, node: string, pms: seq<PIndexMoves>, next: nat, casWins: bool)
      returns (ok: bool, formerPrimaryNodes: seq<string>)
      requires forall i | 0 <= i < |pms| :: next < |pms[i].stateOps|
      requires index in indexDefs
      modifies `planPIndexes
      ensures ok ==
              (casWins && old(AssignedPlan(planPIndexes, endPlanPIndexes, indexDefs[index], node, pms, next)).Some?)
      ensures ok ==>
                Some(planPIndexes) ==
                old(AssignedPlan(planPIndexes, endPlanPIndexes, indexDefs[index], node, pms, next))
      ensures !ok ==> planPIndexes == old(planPIndexes)
      ensures ok && DistinctNames(pms) ==> FormersOf(old(planPIndexes), endPlanPIndexes, pms, formerPrimaryNodes)
    {
      var plan;
      plan, formerPrimaryNodes := UpdateBatch(planPIndexes, endPlanPIndexes, indexDefs[index], node, pms, next);
      ok := casWins && plan.Some?;
      if ok {
        planPIndexes := plan.value;
      }
    }
  }

  /** The loop over the batch, on the plan just read from the Cfg. */
  method UpdateBatch(plan: PlanPIndexes, endPlan: PlanPIndexes, def: IndexDef, node: string,
                     pms: seq<PIndexMoves>, next: nat)
    returns (r: Option<PlanPIndexes>, formers: seq<string>)
    requires forall i | 0 <= i < |pms| :: next < |pms[i].stateOps|
    ensures r == AssignedPlan(plan, endPlan, def, node, pms, next)
    ensures r.Some? && DistinctNames(pms) ==> FormersOf(plan, endPlan, pms, formers)
  {
    var done := 0;
    r, formers := Some(plan), [];
    while done < |pms|
      invariant done <= |pms| && |formers| == done
      invariant r.Some? && r == AssignedPlan(plan, endPlan, def, node, pms[..done], next)
      invariant DistinctNames(pms) ==> FormersOf(plan, endPlan, pms[..done], formers)
    {
      var pm := pms[done];
      assert pms[..done + 1] == pms[..done] + [pm];
      assert pms[..done + 1][..done] == pms[..done];
      ghost var before := r.value;
      var former;
      r, former := UpdatePlanPIndexes(r.value, endPlan, def, pm.name, node, pm.stateOps[next]);
      if r.None? {
        StaysUnassigned(plan, endPlan, def, node, pms, next, done + 1);
        return;
      }
      if DistinctNames(pms) {
        FormerStep(plan, endPlan, def, node, pms, next, done, before, formers, former);
      }
      formers, done := formers + [former], done + 1;
    }
    assert pms[..done] == pms;
  }

  /** For each move, a former primary of its pindex as the plan had it before the batch. */
  predicate FormersOf(plan: PlanPIndexes, endPlan: PlanPIndexes, pms: seq<PIndexMoves>, formers: seq<string>) {
    && |formers| == |pms|
    && forall i | 0 <= i < |pms| ::
         var e := PlanEntry(plan, endPlan, pms[i].name);
         e.Some? && IsFormerPrimary(e.value.nodes, formers[i])
  }

  /** A move's former primary is the one before the batch: the earlier moves are on other pindexes. */
  lemma {:induction false} FormerStep(plan: PlanPIndexes, endPlan: PlanPIndexes, def: IndexDef, node: string,
                                      pms: seq<PIndexMoves>,
                                      next: nat, done: nat, before: PlanPIndexes, formers: seq<string>, former: string)
    requires done < |pms| && DistinctNames(pms) && forall i | 0 <= i < |pms| :: next < |pms[i].stateOps|
    requires Some(before) == AssignedPlan(plan, endPlan, def, node, pms[..done], next)
    requires FormersOf(plan, endPlan, pms[..done], formers)
    requires var e := PlanEntry(before, endPlan, pms[done].name); e.Some? && IsFormerPrimary(e.value.nodes, former)
    ensures FormersOf(plan, endPlan, pms[..done + 1], formers + [former])
  {
    AssignedElsewhere(plan, endPlan, def, node, pms[..done], next, pms[done].name);
    assert pms[..done + 1] == pms[..done] + [pms[done]];
  }

  lemma {:induction false} StaysRefused(cs: CurrStates, index: string, node: string, pms: seq<PIndexMoves>, next: nat,
                                        k: nat)
    requires forall i | 0 <= i < |pms| :: next < |pms[i].stateOps|
    requires k <= |pms| && AssignedStates(cs, index, node, pms[..k], next).None?
    ensures AssignedStates(cs, index, node, pms, next).None?
  {
    if k < |pms| {
      assert pms[..|pms| - 1][..k] == pms[..k];
      StaysRefused(cs, index, node, pms[..|pms| - 1], next, k);
    } else {
      assert pms[..k] == pms;
    }
  }

  lemma {:induction false} StaysUnassigned(plan: PlanPIndexes, endPlan: PlanPIndexes, def: IndexDef, node: string,
                                           pms: seq<PIndexMoves>, next: nat, k: nat)
    requires forall i | 0 <= i < |pms| :: next < |pms[i].stateOps|
    requires k <= |pms| && AssignedPlan(plan, endPlan, def, node, pms[..k], next).None?
    ensures AssignedPlan(plan, endPlan, def, node, pms, next).None?
  {
    if k < |pms| {
      assert pms[..|pms| - 1][..k] == pms[..k];
      StaysUnassigned(plan, endPlan, def, node, pms[..|pms| - 1], next, k);
    } else {
      assert pms[..k] == pms;
    }
  }
}
