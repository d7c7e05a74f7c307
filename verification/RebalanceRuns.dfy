/** Whole runs of a rebalance: any number of concurrent assignPIndexes calls, each with its batch
    of one- and two-step moves and its waiting workers, interleaved with arbitrary monitor samples. */
module RebalanceRuns {
  import opened Common
  import opened Plan
  import opened Rebalance
  import Text

  /** Where a waiting worker stands, one lock section at a time: looking whether partition i has a
      wanted sequence, taking a sample of the former primary for it, recording that, then reading the
      wanted sequence and awaiting a sample that reaches it. */
  datatype Pc =
    | Init(i: nat)
    | Look(i: nat)
    | Record(i: nat, seen: UUIDSeq)
    | Check(i: nat)
    | Await(i: nat, want: UUIDSeq)
    | Done

  datatype Worker = Worker(former: string, partitions: seq<string>, pc: Pc)

  datatype Phase = Assigning | Waiting(workers: seq<Worker>)

  /** One assignPIndexes call: its batch, the step it is at, and whether it assigns or waits. */
  datatype Call = Call(index: string, node: string, moves: seq<PIndexMoves>, next: nat, phase: Phase)

  datatype State = State(
    plan: PlanPIndexes,
    indexDefs: map<string, IndexDef>,
    currStates: CurrStates,
    currSeqs: Seqs,
    wantSeqs: Seqs,
    calls: map<nat, Call>,
    nextId: nat)

  datatype Action =
    | Begin(index: string, node: string, pindexes: seq<string>, states: seq<PState>, ops: seq<Op>)
    | Assign(id: nat, formers: seq<string>)
    | Work(id: nat, k: nat)
    | NextRound(id: nat)
    | Abandon(id: nat, requested: nat)
    | Sample(pindex: string, partition: string, node: string, us: UUIDSeq)
    | SetIndexDefs(defs: map<string, IndexDef>)

  // ---------------------------------------------------------------- steps

  /** The moves the orchestrator asks for: add or promote to primary, add or demote to replica, delete. */
  predicate WellFormedMove(state: PState, op: Op) {
    match state
    case Primary => op == Add || op == Promote
    case Replica => op == Add || op == Demote
    case NoState => op == Del
  }

  /** The batch that createPindexesMoves builds with AddPrimaryDirectly off. */
  function Moves(pindexes: seq<string>, states: seq<PState>, ops: seq<Op>): (pms: seq<PIndexMoves>)
    requires |pindexes| == |states| == |ops|
    ensures |pms| == |pindexes|
    ensures forall i | 0 <= i < |pms| :: pms[i] == MovesFor(false, pindexes[i], states[i], ops[i])
  {
    if pindexes == [] then []
    else
      var k := |pindexes| - 1;
      Moves(pindexes[..k], states[..k], ops[..k]) + [MovesFor(false, pindexes[k], states[k], ops[k])]
  }

  predicate Names(moves: seq<PIndexMoves>, pindex: string) {
    exists i | 0 <= i < |moves| :: moves[i].name == pindex
  }

  /** A worker has nothing to wait for: a deletion, a plain replica, or no former primary. */
  predicate NoWait(so: StateOp, forced: bool, former: string) {
    so.op == Del || (so.state == Replica && !forced) || former == ""
  }

  function NewWorker(plan: PlanPIndexes, pm: PIndexMoves, next: nat, former: string): (w: Worker)
    requires next < |pm.stateOps|
  {
    var partitions := if pm.name in plan then Text.Split(plan[pm.name].sourcePartitions, ',') else [""];
    Worker(former, partitions, if NoWait(pm.stateOps[next], |pm.stateOps| > 1, former) then Done else Init(0))
  }

  function NewWorkers(plan: PlanPIndexes, moves: seq<PIndexMoves>, next: nat, formers: seq<string>): (ws: seq<Worker>)
    requires |moves| == |formers| && forall i | 0 <= i < |moves| :: next < |moves[i].stateOps|
    ensures |ws| == |moves|
    ensures forall i | 0 <= i < |ws| :: ws[i] == NewWorker(plan, moves[i], next, formers[i])
  {
    if moves == [] then []
    else NewWorkers(plan, moves[..|moves| - 1], next, formers[..|moves| - 1])
         + [NewWorker(plan, moves[|moves| - 1], next, formers[|moves| - 1])]
  }

  /** The next position of a worker, or None where it has to wait for a sample or fails. */
  function WorkerNext(currSeqs: Seqs, wantSeqs: Seqs, pindex: string, node: string, w: Worker): (r: Option<Pc>) {
    match w.pc
    case Init(i) =>
      if i >= |w.partitions| then Some(Check(0))
      else if GetUUIDSeq(wantSeqs, pindex, w.partitions[i], node).Some? then Some(Init(i + 1))
      else Some(Look(i))
    case Look(i) =>
      if i >= |w.partitions| then None
      else
        var seen := GetUUIDSeq(currSeqs, pindex, w.partitions[i], w.former);
        if seen.Some? then Some(Record(i, seen.value)) else Some(Init(i))
    case Record(i, _) => Some(Init(i))
    case Check(i) =>
      if i >= |w.partitions| then Some(Done)
      else
        var want := GetUUIDSeq(wantSeqs, pindex, w.partitions[i], node);
        if want.None? then None else Some(Await(i, want.value))
    case Await(i, want) =>
      if i < |w.partitions| && Reached(currSeqs, pindex, w.partitions[i], node, want) then Some(Check(i + 1)) else None
    case Done => None
  }

  predicate Reached(currSeqs: Seqs, pindex: string, partition: string, node: string, want: UUIDSeq) {
    var curr := GetUUIDSeq(currSeqs, pindex, partition, node);
    curr.Some? && UuidSeqReached(curr.value, want)
  }

  /** Only a worker that is recording writes a wanted sequence, and only its own. */
  function WantsAfter(wantSeqs: Seqs, pindex: string, node: string, w: Worker): (r: Seqs) {
    if w.pc.Record? && w.pc.i < |w.partitions|
    then SetUUIDSeq(wantSeqs, pindex, w.partitions[w.pc.i], node, w.pc.seen)
    else wantSeqs
  }

  /** A one-step move never asks for a primary; a two-step move is a replica step, then a promotion. */
  predicate MoveOk(pm: PIndexMoves) {
    var ops := pm.stateOps;
    && 1 <= |ops| <= 2
    && (|ops| == 1 ==> ops[0].state == Replica || ops[0] == StateOp(NoState, Del))
    && (|ops| == 2 ==> ops[0].state == Replica && ops[0].op != Del && ops[1] == StateOp(Primary, Promote))
  }

  /** What every call keeps (see Inv): it is part of the guards only to make them well-defined. */
  predicate CallOk(c: Call) {
    && DistinctNames(c.moves)
    && (forall i | 0 <= i < |c.moves| :: c.next < |c.moves[i].stateOps| && MoveOk(c.moves[i]))
    && (c.phase.Waiting? ==> |c.phase.workers| == |c.moves|)
  }

  predicate Enabled(endPlan: PlanPIndexes, s: State, a: Action) {
    match a
    case Begin(index, node, pindexes, states, ops) =>
      && |pindexes| == |states| == |ops|
      && (forall i | 0 <= i < |pindexes| :: WellFormedMove(states[i], ops[i]))
      && (forall i, j | 0 <= i < j < |pindexes| :: pindexes[i] != pindexes[j])
      // The orchestrator has at most one move in flight for a pindex on a node.
      && (forall id | id in s.calls && s.calls[id].node == node ::
            forall i | 0 <= i < |pindexes| :: !Names(s.calls[id].moves, pindexes[i]))
    case Assign(id, formers) =>
      && id in s.calls && s.calls[id].phase == Assigning && CallOk(s.calls[id])
      && var c := s.calls[id];
         && c.index in s.indexDefs
         && AssignedStates(s.currStates, c.index, c.node, c.moves, c.next).Some?
         && AssignedPlan(s.plan, endPlan, s.indexDefs[c.index], c.node, c.moves, c.next).Some?
         && FormersOf(s.plan, endPlan, c.moves, formers)
    case Work(id, k) =>
      && id in s.calls && CallOk(s.calls[id])
      && var c := s.calls[id];
         && c.phase.Waiting? && k < |c.moves|
         && WorkerNext(s.currSeqs, s.wantSeqs, c.moves[k].name, c.node, c.phase.workers[k]).Some?
    case NextRound(id) =>
      && id in s.calls && s.calls[id].phase.Waiting?
      && forall k | 0 <= k < |s.calls[id].phase.workers| :: s.calls[id].phase.workers[k].pc == Done
    case Abandon(id, requested) =>
      && id in s.calls && CallOk(s.calls[id]) && requested <= |s.calls[id].moves|
      && RequestedStates(s, id, requested).Some?
    case Sample(_, _, _, _) => true
    case SetIndexDefs(_) => true
  }

  /** The requested states when a call gives up after asking for this many of its moves; a call that
      is waiting has asked for all of them already. */
  function RequestedStates(s: State, id: nat, requested: nat): (r: Option<CurrStates>)
    requires id in s.calls && CallOk(s.calls[id]) && requested <= |s.calls[id].moves|
  {
    var c := s.calls[id];
    if c.phase.Waiting? then Some(s.currStates)
    else AssignedStates(s.currStates, c.index, c.node, c.moves[..requested], c.next)
  }

  /** The call after a finished round: the moves that have a further step, not yet assigned. */
  function AfterRound(c: Call): (c': Call) {
    Call(c.index, c.node, LongMoves(c.moves, c.next + 1), c.next + 1, Assigning)
  }

  lemma AfterRoundOk(c: Call)
    requires CallOk(c)
    ensures CallOk(AfterRound(c))
    ensures forall i | 0 <= i < |AfterRound(c).moves| :: AfterRound(c).moves[i] in c.moves
  {
    LongMovesKept(c.moves, c.next + 1);
  }

  function Apply(endPlan: PlanPIndexes, s: State, a: Action): (s': State)
    requires Enabled(endPlan, s, a)
  {
    match a
    case Begin(index, node, pindexes, states, ops) =>
      s.(calls := s.calls[s.nextId := Call(index, node, Moves(pindexes, states, ops), 0, Assigning)],
         nextId := s.nextId + 1)
    case Assign(id, formers) =>
      var c := s.calls[id];
      var plan := AssignedPlan(s.plan, endPlan, s.indexDefs[c.index], c.node, c.moves, c.next).value;
      var workers := NewWorkers(plan, c.moves, c.next, formers);
      s.(plan := plan,
         currStates := AssignedStates(s.currStates, c.index, c.node, c.moves, c.next).value,
         calls := s.calls[id := c.(phase := Waiting(workers))])
    case Work(id, k) =>
      var c := s.calls[id];
      var w := c.phase.workers[k];
      var pc := WorkerNext(s.currSeqs, s.wantSeqs, c.moves[k].name, c.node, w).value;
      s.(wantSeqs := WantsAfter(s.wantSeqs, c.moves[k].name, c.node, w),
         calls := s.calls[id := c.(phase := Waiting(c.phase.workers[k := w.(pc := pc)]))])
    case NextRound(id) =>
      var c := AfterRound(s.calls[id]);
      if c.moves == [] then s.(calls := s.calls - {id}) else s.(calls := s.calls[id := c])
    case Abandon(id, requested) =>
      s.(calls := s.calls - {id}, currStates := RequestedStates(s, id, requested).value)
    case Sample(pindex, partition, node, us) =>
      s.(currSeqs := SetUUIDSeq(s.currSeqs, pindex, partition, node, us))
    case SetIndexDefs(defs) => s.(indexDefs := defs)
  }

  /** One step, or None where the action is not possible. */
  function Next(endPlan: PlanPIndexes, s: State, a: Action): (r: Option<State>) {
    if Enabled(endPlan, s, a) then Some(Apply(endPlan, s, a)) else None
  }

  // ---------------------------------------------------------------- runs and what every state keeps

  /** No two live calls move the same pindex on the same node. */
  ghost predicate Separate(calls: map<nat, Call>) {
    forall a, b | a in calls && b in calls && a != b && calls[a].node == calls[b].node ::
      forall i | 0 <= i < |calls[a].moves| :: !Names(calls[b].moves, calls[a].moves[i].name)
  }

  ghost predicate CallsInv(calls: map<nat, Call>, nextId: nat) {
    && (forall id | id in calls :: id < nextId && CallOk(calls[id]))
    && Separate(calls)
  }

  ghost predicate Inv(s: State) {
    CallsInv(s.calls, s.nextId)
  }

  ghost predicate IsRun(endPlan: PlanPIndexes, states: seq<State>, actions: seq<Action>) {
    && |states| == |actions| + 1
    && states[0].calls == map[]
    && forall i | 0 <= i < |actions| :: StepAt(endPlan, states, actions, i)
  }

  ghost predicate StepAt(endPlan: PlanPIndexes, states: seq<State>, actions: seq<Action>, i: nat)
    requires |states| == |actions| + 1 && i < |actions|
  {
    Next(endPlan, states[i], actions[i]) == Some(states[i + 1])
  }

  lemma InvStep(endPlan: PlanPIndexes, s: State, a: Action, s': State)
    requires Inv(s) && Next(endPlan, s, a) == Some(s')
    ensures Inv(s')
  {
    match a
    case Begin(_, _, _, _, _) => InvBegin(endPlan, s, a, s');
    case Assign(id, formers) => InvSameMoves(endPlan, s, a, s', id);
    case Work(id, k) => InvSameMoves(endPlan, s, a, s', id);
    case NextRound(id) => InvNextRound(endPlan, s, a, s');
    case Abandon(_, _) =>
    case Sample(_, _, _, _) =>
    case SetIndexDefs(_) =>
  }

  lemma InvBegin(endPlan: PlanPIndexes, s: State, a: Action, s': State)
    requires Inv(s) && a.Begin? && Next(endPlan, s, a) == Some(s')
    ensures Inv(s')
  {
    var c := s'.calls[s.nextId];
    BeginKeepsSeparate(s.calls, s.nextId, c);
    assert CallOk(c);
  }

  lemma InvSameMoves(endPlan: PlanPIndexes, s: State, a: Action, s': State, id: nat)
    requires Inv(s) && Next(endPlan, s, a) == Some(s')
    requires (a.Assign? || a.Work?) && a.id == id
    ensures Inv(s')
  {
    ReplaceKeepsInv(s.calls, s.nextId, id, s'.calls[id]);
  }

  lemma InvNextRound(endPlan: PlanPIndexes, s: State, a: Action, s': State)
    requires Inv(s) && a.NextRound? && Next(endPlan, s, a) == Some(s')
    ensures Inv(s')
  {
    var c := s.calls[a.id];
    AfterRoundOk(c);
    ReplaceKeepsInv(s.calls, s.nextId, a.id, AfterRound(c));
  }

  /** A call may be dropped, or replaced by one on the same node with no new moves. */
  lemma ReplaceKeepsInv(calls: map<nat, Call>, nextId: nat, id: nat, c: Call)
    requires CallsInv(calls, nextId) && id in calls && CallOk(c) && c.node == calls[id].node
    requires forall i | 0 <= i < |c.moves| :: c.moves[i] in calls[id].moves
    ensures CallsInv(calls[id := c], nextId)
    ensures CallsInv(calls - {id}, nextId)
  {
    FewerMovesSeparate(calls, id, c);
  }

  lemma BeginKeepsSeparate(calls: map<nat, Call>, id: nat, c: Call)
    requires Separate(calls) && id !in calls
    requires forall b | b in calls && calls[b].node == c.node ::
               forall i | 0 <= i < |c.moves| :: !Names(calls[b].moves, c.moves[i].name)
    ensures Separate(calls[id := c])
  {
    forall b | b in calls && calls[b].node == c.node
      ensures forall i | 0 <= i < |calls[b].moves| :: !Names(c.moves, calls[b].moves[i].name)
    {
    }
  }

  lemma FewerMovesSeparate(calls: map<nat, Call>, id: nat, c: Call)
    requires Separate(calls) && id in calls && c.node == calls[id].node
    requires forall i | 0 <= i < |c.moves| :: c.moves[i] in calls[id].moves
    ensures Separate(calls[id := c])
  {
    forall b | b in calls && b != id && calls[b].node == c.node
      ensures forall i | 0 <= i < |c.moves| :: !Names(calls[b].moves, c.moves[i].name)
      ensures forall i | 0 <= i < |calls[b].moves| :: !Names(c.moves, calls[b].moves[i].name)
    {
      forall i | 0 <= i < |c.moves|
        ensures !Names(calls[b].moves, c.moves[i].name)
      {
        assert c.moves[i] in calls[id].moves;
        var j :| 0 <= j < |calls[id].moves| && calls[id].moves[j] == c.moves[i];
      }
    }
  }

  lemma {:induction false} RunInv(endPlan: PlanPIndexes, states: seq<State>, actions: seq<Action>, i: nat)
    requires IsRun(endPlan, states, actions) && i < |states|
    ensures Inv(states[i])
  {
    if i > 0 {
      RunInv(endPlan, states, actions, i - 1);
      InvAt(endPlan, states, actions, i - 1);
    }
  }

  lemma InvAt(endPlan: PlanPIndexes, states: seq<State>, actions: seq<Action>, i: nat)
    requires |states| == |actions| + 1 && i < |actions| && StepAt(endPlan, states, actions, i) && Inv(states[i])
    ensures Inv(states[i + 1])
  {
    InvStep(endPlan, states[i], actions[i], states[i + 1]);
  }

  // ---------------------------------------------------------------- what one step does to the plan

  /** The step writes the plan entry of this pindex, for the call's own node. */
  predicate Touches(s: State, a: Action, pindex: string, node: string) {
    a.Assign? && a.id in s.calls && s.calls[a.id].node == node && Names(s.calls[a.id].moves, pindex)
  }

  ghost predicate SameNode(p: PlanPIndexes, q: PlanPIndexes, pindex: string, node: string) {
    && (pindex in p ==> pindex in q)
    && (pindex in p && node in p[pindex].nodes ==>
        node in q[pindex].nodes && q[pindex].nodes[node] == p[pindex].nodes[node])
    && (pindex in p && node !in p[pindex].nodes ==> node !in q[pindex].nodes)
  }

  /** A step changes a node's entry on a pindex only by touching it. */
  lemma UntouchedNode(endPlan: PlanPIndexes, s: State, a: Action, s': State, pindex: string, node: string)
    requires Inv(s) && Next(endPlan, s, a) == Some(s')
    requires !Touches(s, a, pindex, node)
    ensures SameNode(s.plan, s'.plan, pindex, node)
  {
    if a.Assign? {
      UntouchedByAssign(endPlan, s, a, s', pindex, node);
    }
  }

  lemma UntouchedByAssign(endPlan: PlanPIndexes, s: State, a: Action, s': State, pindex: string, node: string)
    requires Inv(s) && a.Assign? && Next(endPlan, s, a) == Some(s')
    requires !Touches(s, a, pindex, node)
    ensures SameNode(s.plan, s'.plan, pindex, node)
  {
    var c := s.calls[a.id];
    if i :| 0 <= i < |c.moves| && c.moves[i].name == pindex {
      StepOf(endPlan, s, a, s', i);
      OtherNode(s.plan, endPlan, s.indexDefs[c.index], pindex, c.node, c.moves[i].stateOps[c.next], s'.plan, node);
    } else {
      AssignedElsewhere(s.plan, endPlan, s.indexDefs[c.index], c.node, c.moves, c.next, pindex);
    }
  }

  /** A step of a move is on one node. */
  lemma OtherNode(plan: PlanPIndexes, endPlan: PlanPIndexes, def: IndexDef, pindex: string, moved: string, so: StateOp,
                  after: PlanPIndexes, node: string)
    requires SteppedTo(plan, endPlan, def, pindex, moved, so, after) && node != moved
    ensures SameNode(plan, after, pindex, node)
  {
    var e := PlanEntry(plan, endPlan, pindex);
    StepTouchesOneNode(e.value.nodes, moved, so, ReadWrite(def, pindex, moved));
  }

  /** Move i of an assigning call takes its single step on its own pindex. */
  lemma StepOf(endPlan: PlanPIndexes, s: State, a: Action, s': State, i: nat)
    requires Inv(s) && a.Assign? && Next(endPlan, s, a) == Some(s') && i < |s.calls[a.id].moves|
    ensures var c := s.calls[a.id];
            SteppedTo(s.plan, endPlan, s.indexDefs[c.index], c.moves[i].name, c.node, c.moves[i].stateOps[c.next],
                      s'.plan)
  {
    var c := s.calls[a.id];
    AssignedAt(s.plan, endPlan, s.indexDefs[c.index], c.node, c.moves, c.next, i);
  }

  // ---------------------------------------------------------------- catch-up before promotion

  /** One two-step move being followed from its first plan write at step b. */
  datatype Track = Track(b: nat, id: nat, pindex: string, node: string, former: string, partitions: seq<string>)

  /** The node had this sample at some moment after b and up to e. */
  ghost predicate Sampled(states: seq<State>, b: nat, e: nat, pindex: string, partition: string, node: string,
                          us: UUIDSeq)
    requires e < |states|
  {
    exists k | b < k <= e :: GetUUIDSeq(states[k].currSeqs, pindex, partition, node) == Some(us)
  }

  /** The wanted sequence was on record before the move began, or is a sample of the former primary since. */
  ghost predicate Provenance(states: seq<State>, e: nat, t: Track, partition: string, want: UUIDSeq)
    requires t.b <= e < |states|
  {
    || GetUUIDSeq(states[t.b].wantSeqs, t.pindex, partition, t.node) == Some(want)
    || Sampled(states, t.b, e, t.pindex, partition, t.former, want)
  }

  /** At moment k the moved node is seen to have reached the wanted sequence on record. */
  ghost predicate CaughtUpAt(states: seq<State>, k: nat, t: Track, partition: string)
    requires t.b <= k < |states|
  {
    var want := GetUUIDSeq(states[k].wantSeqs, t.pindex, partition, t.node);
    && want.Some?
    && Reached(states[k].currSeqs, t.pindex, partition, t.node, want.value)
    && Provenance(states, k, t, partition, want.value)
  }

  ghost predicate CaughtUp(states: seq<State>, e: nat, t: Track, partition: string)
    requires e < |states|
  {
    exists k | t.b < k <= e :: CaughtUpAt(states, k, t, partition)
  }

  ghost predicate AllCaughtUp(states: seq<State>, e: nat, t: Track)
    requires e < |states|
  {
    forall i | 0 <= i < |t.partitions| :: CaughtUp(states, e, t, t.partitions[i])
  }

  predicate HoldsReplica(plan: PlanPIndexes, pindex: string, node: string) {
    pindex in plan && node in plan[pindex].nodes && plan[pindex].nodes[node].priority >= 1
  }

  function InitDone(pc: Pc, n: nat): (i: nat) {
    match pc
    case Init(i) => i
    case Look(i) => i
    case Record(i, _) => i
    case _ => n
  }

  function CheckDone(pc: Pc, n: nat): (i: nat) {
    match pc
    case Init(_) => 0
    case Look(_) => 0
    case Record(_, _) => 0
    case Check(i) => i
    case Await(i, _) => i
    case Done => n
  }

  /** What the worker's position says about the past. */
  ghost predicate WorkerTracked(states: seq<State>, e: nat, t: Track, w: Worker)
    requires t.b < e < |states|
  {
    var n := |t.partitions|;
    && w.former == t.former && w.partitions == t.partitions
    && InitDone(w.pc, n) <= n && CheckDone(w.pc, n) <= n
    && (forall i | 0 <= i < CheckDone(w.pc, n) :: CaughtUp(states, e, t, t.partitions[i]))
    && (w.pc.Record? ==> w.pc.i < n && Sampled(states, t.b, e, t.pindex, t.partitions[w.pc.i], t.former, w.pc.seen))
    && (w.pc.Await? ==>
        w.pc.i < n && GetUUIDSeq(states[e].wantSeqs, t.pindex, t.partitions[w.pc.i], t.node) == Some(w.pc.want))
  }

  ghost predicate WantKnown(states: seq<State>, e: nat, t: Track, partition: string)
    requires t.b < e < |states|
  {
    var want := GetUUIDSeq(states[e].wantSeqs, t.pindex, partition, t.node);
    want.Some? ==> Provenance(states, e, t, partition, want.value)
  }

  ghost predicate WantsKnown(states: seq<State>, e: nat, t: Track)
    requires t.b < e < |states|
  {
    forall sp :: WantKnown(states, e, t, sp)
  }

  /** The move is still in its first round, and the moved node is a replica. */
  ghost predicate FirstRound(states: seq<State>, e: nat, t: Track, w: nat)
    requires t.b < e < |states|
  {
    && t.id in states[e].calls
    && var c := states[e].calls[t.id];
       && c.phase.Waiting? && w < |c.moves| && |c.phase.workers| == |c.moves|
       && c.moves[w].name == t.pindex
       && HoldsReplica(states[e].plan, t.pindex, t.node)
       && WorkerTracked(states, e, t, c.phase.workers[w])
       && WantsKnown(states, e, t)
  }

  ghost predicate Tracked(states: seq<State>, e: nat, t: Track, w: nat)
    requires t.b < e < |states|
  {
    && t.id < states[e].nextId
    && (t.id in states[e].calls ==>
          && states[e].calls[t.id].node == t.node
          && (AllCaughtUp(states, e, t) || FirstRound(states, e, t, w)))
  }

  lemma CaughtUpStays(states: seq<State>, e: nat, t: Track, sp: string)
    requires e + 1 < |states| && CaughtUp(states, e, t, sp)
    ensures CaughtUp(states, e + 1, t, sp)
  {
    var k :| t.b < k <= e && CaughtUpAt(states, k, t, sp);
  }

  lemma SampledStays(states: seq<State>, b: nat, e: nat, pindex: string, sp: string, node: string, us: UUIDSeq)
    requires e + 1 < |states| && Sampled(states, b, e, pindex, sp, node, us)
    ensures Sampled(states, b, e + 1, pindex, sp, node, us)
  {
    var k :| b < k <= e && GetUUIDSeq(states[k].currSeqs, pindex, sp, node) == Some(us);
  }

  /** Nothing that concerns the move changes: the worker, its wanted sequences and its past carry over. */
  lemma CarryOver(states: seq<State>, e: nat, t: Track, w: Worker)
    requires t.b < e && e + 1 < |states|
    requires WorkerTracked(states, e, t, w) && WantsKnown(states, e, t)
    requires forall sp ::
             GetUUIDSeq(states[e + 1].wantSeqs, t.pindex, sp, t.node) ==
               GetUUIDSeq(states[e].wantSeqs, t.pindex, sp, t.node)
    ensures WorkerTracked(states, e + 1, t, w) && WantsKnown(states, e + 1, t)
  {
    forall i | 0 <= i < CheckDone(w.pc, |t.partitions|)
      ensures CaughtUp(states, e + 1, t, t.partitions[i])
    {
      CaughtUpStays(states, e, t, t.partitions[i]);
    }
    if w.pc.Record? {
      SampledStays(states, t.b, e, t.pindex, t.partitions[w.pc.i], t.former, w.pc.seen);
    }
    WantsStayKnown(states, e, t);
  }

  lemma WantsStayKnown(states: seq<State>, e: nat, t: Track)
    requires t.b < e && e + 1 < |states| && WantsKnown(states, e, t)
    requires forall sp ::
             GetUUIDSeq(states[e + 1].wantSeqs, t.pindex, sp, t.node) ==
               GetUUIDSeq(states[e].wantSeqs, t.pindex, sp, t.node)
    ensures WantsKnown(states, e + 1, t)
  {
    var e' := e + 1;
    forall sp
      ensures WantKnown(states, e', t, sp)
    {
      var want := GetUUIDSeq(states[e].wantSeqs, t.pindex, sp, t.node);
      assert WantKnown(states, e, t, sp);
      if want.Some? && Sampled(states, t.b, e, t.pindex, sp, t.former, want.value) {
        SampledStays(states, t.b, e, t.pindex, sp, t.former, want.value);
      }
    }
  }

  /** The followed worker moves on without recording. */
  lemma OwnWork(states: seq<State>, e: nat, t: Track, w: Worker, pc: Pc)
    requires t.b < e && e + 1 < |states|
    requires WorkerTracked(states, e, t, w) && WantsKnown(states, e, t)
    requires !w.pc.Record?
    requires WorkerNext(states[e].currSeqs, states[e].wantSeqs, t.pindex, t.node, w) == Some(pc)
    requires states[e + 1].wantSeqs == states[e].wantSeqs
    ensures WorkerTracked(states, e + 1, t, w.(pc := pc)) && WantsKnown(states, e + 1, t)
  {
    CarryOver(states, e, t, w);
    match w.pc
    case Init(_) =>
    case Look(i) =>
      if pc.Record? {
        assert Sampled(states, t.b, e, t.pindex, t.partitions[i], t.former, pc.seen);
        SampledStays(states, t.b, e, t.pindex, t.partitions[i], t.former, pc.seen);
      }
    case Check(_) =>
    case Await(i, want) =>
      assert WantKnown(states, e, t, t.partitions[i]);
      assert CaughtUpAt(states, e, t, t.partitions[i]);
      assert CaughtUp(states, e, t, t.partitions[i]);
      CaughtUpStays(states, e, t, t.partitions[i]);
  }

  /** The followed worker records the wanted sequence it has seen on the former primary. */
  lemma OwnRecord(states: seq<State>, e: nat, t: Track, w: Worker)
    requires t.b < e && e + 1 < |states|
    requires WorkerTracked(states, e, t, w) && WantsKnown(states, e, t)
    requires w.pc.Record?
    requires states[e + 1].wantSeqs == SetUUIDSeq(states[e].wantSeqs, t.pindex, t.partitions[w.pc.i], t.node, w.pc.seen)
    ensures WorkerTracked(states, e + 1, t, w.(pc := Init(w.pc.i))) && WantsKnown(states, e + 1, t)
  {
    var e' := e + 1;
    forall sp
      ensures WantKnown(states, e', t, sp)
    {
      var want := GetUUIDSeq(states[e + 1].wantSeqs, t.pindex, sp, t.node);
      assert WantKnown(states, e, t, sp);
      if want.Some? && Sampled(states, t.b, e, t.pindex, sp, t.former, want.value) {
        SampledStays(states, t.b, e, t.pindex, sp, t.former, want.value);
      }
    }
  }

  /** Another worker never writes the wanted sequences of the followed move. */
  lemma OtherWantsUntouched(endPlan: PlanPIndexes, s: State, a: Action, s': State, id: nat, w: nat, sp: string)
    requires Inv(s) && a.Work? && Next(endPlan, s, a) == Some(s')
    requires id in s.calls && w < |s.calls[id].moves|
    requires a.id != id || a.k != w
    ensures var c := s.calls[id];
            GetUUIDSeq(s'.wantSeqs, c.moves[w].name, sp, c.node)
              == GetUUIDSeq(s.wantSeqs, c.moves[w].name, sp, c.node)
  {
    var c, d := s.calls[id], s.calls[a.id];
    if a.id != id && d.node == c.node {
      assert !Names(c.moves, d.moves[a.k].name);
    }
  }

  lemma TrackWork(endPlan: PlanPIndexes, states: seq<State>, actions: seq<Action>, e: nat, t: Track, w: nat)
    requires IsRun(endPlan, states, actions) && t.b < e < |actions| && Inv(states[e])
    requires actions[e].Work?
    requires FirstRound(states, e, t, w) && states[e].calls[t.id].node == t.node
    ensures FirstRound(states, e + 1, t, w) && states[e + 1].calls[t.id].node == t.node
  {
    assert StepAt(endPlan, states, actions, e);
    var s, a, s' := states[e], actions[e], states[e + 1];
    var c := s.calls[t.id];
    var wk := c.phase.workers[w];
    if a.id == t.id && a.k == w {
      var pc := WorkerNext(s.currSeqs, s.wantSeqs, t.pindex, t.node, wk).value;
      if wk.pc.Record? {
        OwnRecord(states, e, t, wk);
      } else {
        OwnWork(states, e, t, wk, pc);
      }
    } else {
      forall sp
        ensures GetUUIDSeq(states[e + 1].wantSeqs, t.pindex, sp, t.node) == GetUUIDSeq(s.wantSeqs, t.pindex, sp, t.node)
      {
        OtherWantsUntouched(endPlan, s, a, s', t.id, w, sp);
      }
      CarryOver(states, e, t, wk);
    }
  }

  lemma TrackAssign(endPlan: PlanPIndexes, states: seq<State>, actions: seq<Action>, e: nat, t: Track, w: nat)
    requires IsRun(endPlan, states, actions) && t.b < e < |actions| && Inv(states[e])
    requires actions[e].Assign?
    requires FirstRound(states, e, t, w) && states[e].calls[t.id].node == t.node
    ensures FirstRound(states, e + 1, t, w) && states[e + 1].calls[t.id].node == t.node
  {
    assert StepAt(endPlan, states, actions, e);
    var s, a, s' := states[e], actions[e], states[e + 1];
    var c := s.calls[t.id];
    assert a.id != t.id;
    if s.calls[a.id].node == t.node {
      assert !Names(s.calls[a.id].moves, c.moves[w].name);
    }
    UntouchedNode(endPlan, s, a, s', t.pindex, t.node);
    CarryOver(states, e, t, c.phase.workers[w]);
  }

  lemma AllCaughtUpStays(states: seq<State>, e: nat, t: Track)
    requires e + 1 < |states| && AllCaughtUp(states, e, t)
    ensures AllCaughtUp(states, e + 1, t)
  {
    forall i | 0 <= i < |t.partitions|
      ensures CaughtUp(states, e + 1, t, t.partitions[i])
    {
      CaughtUpStays(states, e, t, t.partitions[i]);
    }
  }

  /** What a step does to the calls: it adds one, changes the phase of its own, takes its own to the
      next round, drops its own, or leaves them. */
  ghost predicate CallsStep(s: State, a: Action, s': State) {
    match a
    case Begin(_, _, _, _, _) => s'.nextId == s.nextId + 1 && s.nextId in s'.calls
                                 && s'.calls == s.calls[s.nextId := s'.calls[s.nextId]]
                                 && s'.calls[s.nextId].next == 0 && s'.calls[s.nextId].phase == Assigning
    case Assign(id, _) => SameButPhase(s, s', id)
    case Work(id, _) => SameButPhase(s, s', id) && s.calls[id].phase.Waiting?
    case NextRound(id) => id in s.calls && s.calls[id].phase.Waiting? && s'.nextId == s.nextId
                          && (s'.calls == s.calls - {id} || s'.calls == s.calls[id := AfterRound(s.calls[id])])
    case Abandon(id, _) => s'.nextId == s.nextId && s'.calls == s.calls - {id}
    case _ => s'.nextId == s.nextId && s'.calls == s.calls
  }

  ghost predicate SameButPhase(s: State, s': State, id: nat) {
    && s'.nextId == s.nextId && id in s.calls && id in s'.calls
    && s'.calls == s.calls[id := s.calls[id].(phase := s'.calls[id].phase)]
  }

  lemma CallsAfter(endPlan: PlanPIndexes, s: State, a: Action, s': State)
    requires Next(endPlan, s, a) == Some(s')
    ensures CallsStep(s, a, s')
  {
    match a
    case Begin(_, _, _, _, _) =>
    case Assign(_, _) =>
    case Work(_, _) =>
    case NextRound(_) =>
    case Abandon(_, _) =>
    case Sample(_, _, _, _) =>
    case SetIndexDefs(_) =>
  }

  /** Call numbers are not reused, and a call keeps its node. */
  lemma OldCall(s: State, a: Action, s': State, id: nat)
    requires CallsStep(s, a, s') && id < s.nextId
    ensures && id < s'.nextId
            && (id in s'.calls ==>
                  && id in s.calls && s'.calls[id].node == s.calls[id].node
                  && (s'.calls[id].moves == s.calls[id].moves || s'.calls[id] == AfterRound(s.calls[id])))
  {
    match a
    case Begin(_, _, _, _, _) =>
    case Assign(_, _) =>
    case Work(_, _) =>
    case NextRound(_) =>
    case Abandon(_, _) =>
    case Sample(_, _, _, _) =>
    case SetIndexDefs(_) =>
  }

  /** Every step keeps the move either in its first round as a replica, or caught up. */
  lemma TrackStep(endPlan: PlanPIndexes, states: seq<State>, actions: seq<Action>, e: nat, t: Track, w: nat)
    requires IsRun(endPlan, states, actions) && t.b < e < |actions| && Inv(states[e])
    requires Tracked(states, e, t, w)
    ensures Tracked(states, e + 1, t, w)
  {
    assert StepAt(endPlan, states, actions, e);
    CallsAfter(endPlan, states[e], actions[e], states[e + 1]);
    OldCall(states[e], actions[e], states[e + 1], t.id);
    if t.id in states[e + 1].calls {
      if AllCaughtUp(states, e, t) {
        AllCaughtUpStays(states, e, t);
      } else {
        TrackFirstRound(endPlan, states, actions, e, t, w);
      }
    }
  }

  /** A step that neither assigns nor works leaves a call that outlives it, the plan and the wanted
      sequences alone, unless it starts the call's next round. */
  lemma Unconcerned(endPlan: PlanPIndexes, s: State, a: Action, s': State, id: nat)
    requires Next(endPlan, s, a) == Some(s') && !a.Assign? && !a.Work? && id in s.calls && id < s.nextId
    requires id in s'.calls
    requires a.NextRound? && a.id == id ==>
               exists k | 0 <= k < |s.calls[id].phase.workers| :: s.calls[id].phase.workers[k].pc != Done
    ensures s'.calls[id] == s.calls[id] && s'.plan == s.plan && s'.wantSeqs == s.wantSeqs
  {
    assert !(a.NextRound? && a.id == id);
    CallsAfter(endPlan, s, a, s');
    OtherCallStays(s, a, s', id);
  }

  lemma OtherCallStays(s: State, a: Action, s': State, id: nat)
    requires CallsStep(s, a, s') && !a.Assign? && !a.Work? && !(a.NextRound? && a.id == id)
    requires id in s.calls && id < s.nextId && id in s'.calls
    ensures s'.calls[id] == s.calls[id]
  {
    match a
    case Begin(_, _, _, _, _) =>
    case NextRound(_) =>
    case Abandon(_, _) =>
    case Sample(_, _, _, _) =>
    case SetIndexDefs(_) =>
  }

  lemma TrackFirstRound(endPlan: PlanPIndexes, states: seq<State>, actions: seq<Action>, e: nat, t: Track, w: nat)
    requires IsRun(endPlan, states, actions) && t.b < e < |actions| && Inv(states[e])
    requires FirstRound(states, e, t, w) && states[e].calls[t.id].node == t.node
    requires t.id in states[e + 1].calls && !AllCaughtUp(states, e, t)
    ensures FirstRound(states, e + 1, t, w) && states[e + 1].calls[t.id].node == t.node
  {
    assert StepAt(endPlan, states, actions, e);
    var a := actions[e];
    if a.Assign? {
      TrackAssign(endPlan, states, actions, e, t, w);
    } else if a.Work? {
      TrackWork(endPlan, states, actions, e, t, w);
    } else {
      Unconcerned(endPlan, states[e], a, states[e + 1], t.id);
      CarryOver(states, e, t, states[e].calls[t.id].phase.workers[w]);
    }
  }

  /** Move w of the call that assigns at step b is a two-step move in its first round. */
  ghost predicate FirstWrite(states: seq<State>, actions: seq<Action>, b: nat, w: nat)
    requires |states| == |actions| + 1
  {
    && b < |actions| && actions[b].Assign? && actions[b].id in states[b].calls
    && var c := states[b].calls[actions[b].id];
       c.next == 0 && w < |c.moves| && w < |actions[b].formers| && |c.moves[w].stateOps| == 2
  }

  ghost function TrackOf(states: seq<State>, actions: seq<Action>, b: nat, w: nat): (t: Track)
    requires |states| == |actions| + 1 && FirstWrite(states, actions, b, w)
  {
    var c := states[b].calls[actions[b].id];
    var pindex := c.moves[w].name;
    var plan := states[b + 1].plan;
    Track(b, actions[b].id, pindex, c.node, actions[b].formers[w],
          if pindex in plan then Text.Split(plan[pindex].sourcePartitions, ',') else [""])
  }

  predicate PrimaryOn(plan: PlanPIndexes, pindex: string, node: string) {
    pindex in plan && IsPrimary(plan[pindex].nodes, node)
  }

  /** The pindex has a primary to catch up with; "" is not a node UUID. */
  predicate HasNamedPrimary(plan: PlanPIndexes, pindex: string) {
    pindex in plan && HasPrimary(plan[pindex].nodes) && !IsPrimary(plan[pindex].nodes, "")
  }

  lemma TrackStart(endPlan: PlanPIndexes, states: seq<State>, actions: seq<Action>, b: nat, w: nat)
    requires IsRun(endPlan, states, actions) && FirstWrite(states, actions, b, w) && Inv(states[b])
    requires HasNamedPrimary(states[b].plan, states[b].calls[actions[b].id].moves[w].name)
    ensures Tracked(states, b + 1, TrackOf(states, actions, b, w), w)
  {
    assert StepAt(endPlan, states, actions, b);
    var s, a, s' := states[b], actions[b], states[b + 1];
    var c := s.calls[a.id];
    var pm := c.moves[w];
    var t := TrackOf(states, actions, b, w);
    StepOf(endPlan, s, a, s', w);
    StepTouchesOneNode(s.plan[pm.name].nodes, c.node, pm.stateOps[0], ReadWrite(s.indexDefs[c.index], pm.name, c.node));
    assert HoldsReplica(states[b + 1].plan, t.pindex, t.node);
    assert IsPrimary(s.plan[pm.name].nodes, a.formers[w]);
    var e := b + 1;
    forall sp
      ensures WantKnown(states, e, t, sp)
    {
    }
    assert states[b + 1].calls[t.id].phase.workers[w] == NewWorker(states[b + 1].plan, pm, 0, a.formers[w]);
    assert FirstRound(states, b + 1, t, w);
  }

  lemma {:induction false} TrackedRun(endPlan: PlanPIndexes, states: seq<State>, actions: seq<Action>, b: nat, w: nat,
                                      e: nat)
    requires IsRun(endPlan, states, actions) && FirstWrite(states, actions, b, w)
    requires HasNamedPrimary(states[b].plan, states[b].calls[actions[b].id].moves[w].name)
    requires b < e < |states|
    ensures Tracked(states, e, TrackOf(states, actions, b, w), w)
  {
    if e == b + 1 {
      RunInv(endPlan, states, actions, b);
      TrackStart(endPlan, states, actions, b, w);
    } else {
      TrackedRun(endPlan, states, actions, b, w, e - 1);
      RunInv(endPlan, states, actions, e - 1);
      TrackStep(endPlan, states, actions, e - 1, TrackOf(states, actions, b, w), w);
    }
  }

  /** Catch-up before promotion: from the first write of a two-step move on a pindex that has a primary,
      as long as the call lives, the moved node stays a replica in every written plan until each
      source partition was seen at the wanted sequence, one that was on record or that the former
      primary itself had since the move began. */
  lemma CatchUpBeforePromotion(endPlan: PlanPIndexes, states: seq<State>, actions: seq<Action>, b: nat, w: nat, e: nat)
    requires IsRun(endPlan, states, actions) && FirstWrite(states, actions, b, w)
    requires HasNamedPrimary(states[b].plan, states[b].calls[actions[b].id].moves[w].name)
    requires b < e < |states| && actions[b].id in states[e].calls
    ensures var t := TrackOf(states, actions, b, w);
            HoldsReplica(states[e].plan, t.pindex, t.node) || AllCaughtUp(states, e, t)
  {
    TrackedRun(endPlan, states, actions, b, w, e);
  }

  /** A call past its first assignment has made it, with all the moves it still has. */
  ghost predicate StartedAt(states: seq<State>, actions: seq<Action>, b: nat, id: nat, c: Call)
    requires |states| == |actions| + 1
  {
    && b < |actions| && actions[b].Assign? && actions[b].id == id && id in states[b].calls
    && states[b].calls[id].next == 0 && states[b].calls[id].node == c.node
    && forall i | 0 <= i < |c.moves| :: c.moves[i] in states[b].calls[id].moves
  }

  lemma {:induction false} FirstAssignment(endPlan: PlanPIndexes, states: seq<State>, actions: seq<Action>, e: nat,
                                           id: nat)
    returns (b: nat)
    requires IsRun(endPlan, states, actions) && e < |states| && id in states[e].calls
    requires states[e].calls[id].next > 0 || states[e].calls[id].phase.Waiting?
    ensures b < e && StartedAt(states, actions, b, id, states[e].calls[id])
  {
    CallBefore(endPlan, states, actions, e, id);
    if actions[e - 1].Assign? && actions[e - 1].id == id && states[e - 1].calls[id].next == 0 {
      b := e - 1;
    } else {
      b := FirstAssignment(endPlan, states, actions, e - 1, id);
    }
  }

  lemma CallBefore(endPlan: PlanPIndexes, states: seq<State>, actions: seq<Action>, e: nat, id: nat)
    requires IsRun(endPlan, states, actions) && e < |states| && id in states[e].calls
    requires states[e].calls[id].next > 0 || states[e].calls[id].phase.Waiting?
    ensures e > 0 && id in states[e - 1].calls
    ensures var c, c' := states[e - 1].calls[id], states[e].calls[id];
            && c'.node == c.node
            && (forall i | 0 <= i < |c'.moves| :: c'.moves[i] in c.moves)
            && (c.next > 0 || c.phase.Waiting? || (actions[e - 1].Assign? && actions[e - 1].id == id))
  {
    assert StepAt(endPlan, states, actions, e - 1);
    CallsAfter(endPlan, states[e - 1], actions[e - 1], states[e]);
    AdvancedCall(states[e - 1], actions[e - 1], states[e], id);
    RunInv(endPlan, states, actions, e - 1);
    FewerMovesStarted(states[e - 1].calls[id], states[e].calls[id]);
  }

  /** A call that has advanced was there before, and had advanced unless it makes its first assignment now. */
  lemma AdvancedCall(s: State, a: Action, s': State, id: nat)
    requires CallsStep(s, a, s') && id in s'.calls
    requires var c := s'.calls[id]; c.next > 0 || c.phase.Waiting?
    ensures var c' := s'.calls[id];
            && id in s.calls
            && c'.node == s.calls[id].node
            && (c'.moves == s.calls[id].moves || c' == AfterRound(s.calls[id]))
            && (s.calls[id].next > 0 || s.calls[id].phase.Waiting? || (a.Assign? && a.id == id))
  {
    match a
    case Begin(_, _, _, _, _) =>
    case Assign(_, _) =>
    case Work(_, _) =>
    case NextRound(n) =>
    case Abandon(_, _) =>
    case Sample(_, _, _, _) =>
    case SetIndexDefs(_) =>
  }

  lemma FewerMovesStarted(c: Call, c': Call)
    requires CallOk(c) && (c'.moves == c.moves || c' == AfterRound(c))
    ensures forall i | 0 <= i < |c'.moves| :: c'.moves[i] in c.moves
  {
    AfterRoundOk(c);
  }

  /** However a node becomes the primary of a pindex: the pindex had no node at all, or the node was
      first made a replica, and then either the pindex had no primary to catch up with or every
      source partition of the node has caught up since. */
  lemma PromotionIsCaughtUp(endPlan: PlanPIndexes, states: seq<State>, actions: seq<Action>, k: nat, pindex: string,
                            node: string)
    returns (b: nat, w: nat)
    requires IsRun(endPlan, states, actions) && k < |actions|
    requires !PrimaryOn(states[k].plan, pindex, node) && PrimaryOn(states[k + 1].plan, pindex, node)
    ensures pindex in states[k].plan && states[k].plan[pindex].nodes != map[] ==>
              && b < k && FirstWrite(states, actions, b, w)
              && var t := TrackOf(states, actions, b, w);
                 && t.pindex == pindex && t.node == node
                 && (HasNamedPrimary(states[b].plan, pindex) ==> AllCaughtUp(states, k, t))
  {
    b, w := 0, 0;
    assert StepAt(endPlan, states, actions, k);
    var s, a, s' := states[k], actions[k], states[k + 1];
    RunInv(endPlan, states, actions, k);
    if pindex in s.plan && s.plan[pindex].nodes != map[] {
      var i := PromotingMove(endPlan, s, a, s', pindex, node);
      b := FirstAssignment(endPlan, states, actions, k, a.id);
      var pm := s.calls[a.id].moves[i];
      assert StepAt(endPlan, states, actions, b);
      w :| 0 <= w < |states[b].calls[a.id].moves| && states[b].calls[a.id].moves[w] == pm;
      if HasNamedPrimary(states[b].plan, pindex) {
        TrackedRun(endPlan, states, actions, b, w, k);
      }
    }
  }

  /** A pindex that has nodes gets a new primary only from the second step of a two-step move. */
  lemma PromotingMove(endPlan: PlanPIndexes, s: State, a: Action, s': State, pindex: string, node: string)
    returns (i: nat)
    requires Inv(s) && Next(endPlan, s, a) == Some(s')
    requires pindex in s.plan && s.plan[pindex].nodes != map[]
    requires !PrimaryOn(s.plan, pindex, node) && PrimaryOn(s'.plan, pindex, node)
    ensures a.Assign? && a.id in s.calls
    ensures var c := s.calls[a.id];
            && c.node == node && c.next == 1 && c.phase == Assigning
            && i < |c.moves| && c.moves[i].name == pindex && |c.moves[i].stateOps| == 2
  {
    PromotionTouches(endPlan, s, a, s', pindex, node);
    var c := s.calls[a.id];
    i :| 0 <= i < |c.moves| && c.moves[i].name == pindex;
    PromotionIsSecond(endPlan, s, a, s', pindex, i);
  }

  lemma PromotionTouches(endPlan: PlanPIndexes, s: State, a: Action, s': State, pindex: string, node: string)
    requires Inv(s) && Next(endPlan, s, a) == Some(s') && pindex in s.plan
    requires !PrimaryOn(s.plan, pindex, node) && PrimaryOn(s'.plan, pindex, node)
    ensures Touches(s, a, pindex, node) && s.calls[a.id].phase == Assigning
  {
    if !Touches(s, a, pindex, node) {
      UntouchedNode(endPlan, s, a, s', pindex, node);
    }
  }

  lemma PromotionIsSecond(endPlan: PlanPIndexes, s: State, a: Action, s': State, pindex: string, i: nat)
    requires Inv(s) && a.Assign? && Next(endPlan, s, a) == Some(s') && i < |s.calls[a.id].moves|
    requires s.calls[a.id].moves[i].name == pindex
    requires pindex in s.plan && s.plan[pindex].nodes != map[]
    requires !PrimaryOn(s.plan, pindex, s.calls[a.id].node) && PrimaryOn(s'.plan, pindex, s.calls[a.id].node)
    ensures s.calls[a.id].next == 1 && |s.calls[a.id].moves[i].stateOps| == 2
  {
    var c := s.calls[a.id];
    StepOf(endPlan, s, a, s', i);
    assert MoveOk(c.moves[i]);
    PrimaryStep(s.plan, endPlan, s.indexDefs[c.index], pindex, c.node, c.moves[i].stateOps[c.next], s'.plan);
  }

  /** Only a step to the primary state makes a node of a pindex that has nodes its primary. */
  lemma PrimaryStep(plan: PlanPIndexes, endPlan: PlanPIndexes, def: IndexDef, pindex: string, node: string, so: StateOp,
                    after: PlanPIndexes)
    requires SteppedTo(plan, endPlan, def, pindex, node, so, after)
    requires pindex in plan && plan[pindex].nodes != map[]
    requires !PrimaryOn(plan, pindex, node) && PrimaryOn(after, pindex, node)
    requires so.state == NoState ==> so.op == Del
    ensures so.state == Primary
  {
    StepTouchesOneNode(plan[pindex].nodes, node, so, ReadWrite(def, pindex, node));
  }

  // ---------------------------------------------------------------- a primary is never lost

  /** Step j made m the primary, and no step since, up to and including step k, touches m's entry. */
  ghost predicate PromotedEarlier(states: seq<State>, actions: seq<Action>, pindex: string, j: nat, k: nat, m: string)
    requires |states| == |actions| + 1 && k < |actions|
  {
    && j < k
    && Touches(states[j], actions[j], pindex, m) && PrimaryOn(states[j + 1].plan, pindex, m)
    && forall i | j < i <= k :: !Touches(states[i], actions[i], pindex, m)
  }

  /** A primary is taken away only after another node has been promoted and left in place. */
  ghost predicate PromoteFirst(states: seq<State>, actions: seq<Action>, pindex: string)
    requires |states| == |actions| + 1
  {
    forall k: nat, n | k < |actions| && Demoted(states, k, pindex, n) :: Succeeded(states, actions, pindex, k, n)
  }

  /** Step k takes the pindex's primary n away. */
  ghost predicate Demoted(states: seq<State>, k: nat, pindex: string, n: string)
    requires k + 1 < |states|
  {
    PrimaryOn(states[k].plan, pindex, n) && !PrimaryOn(states[k + 1].plan, pindex, n)
  }

  ghost predicate Succeeded(states: seq<State>, actions: seq<Action>, pindex: string, k: nat, n: string)
    requires |states| == |actions| + 1 && k < |actions|
  {
    exists j: nat, m: string :: m != n && PromotedEarlier(states, actions, pindex, j, k, m)
  }

  lemma {:induction false} StaysPrimary(endPlan: PlanPIndexes, states: seq<State>, actions: seq<Action>, pindex: string,
                                        m: string, from: nat, to: nat)
    requires IsRun(endPlan, states, actions) && from <= to < |states|
    requires PrimaryOn(states[from].plan, pindex, m)
    requires forall i | from <= i < to :: !Touches(states[i], actions[i], pindex, m)
    ensures PrimaryOn(states[to].plan, pindex, m)
  {
    if from < to {
      StaysPrimary(endPlan, states, actions, pindex, m, from, to - 1);
      RunInv(endPlan, states, actions, to - 1);
      assert StepAt(endPlan, states, actions, to - 1);
      UntouchedNode(endPlan, states[to - 1], actions[to - 1], states[to], pindex, m);
    }
  }

  /** Any interleaving that takes a primary away only after another node was promoted keeps a
      primary in every plan it writes. */
  lemma {:induction false} PrimaryNeverLost(endPlan: PlanPIndexes, states: seq<State>, actions: seq<Action>,
                                            pindex: string, e: nat)
    requires IsRun(endPlan, states, actions) && PromoteFirst(states, actions, pindex) && e < |states|
    requires pindex in states[0].plan && HasPrimary(states[0].plan[pindex].nodes)
    ensures pindex in states[e].plan && HasPrimary(states[e].plan[pindex].nodes)
  {
    if e == 0 {
      return;
    }
    PrimaryNeverLost(endPlan, states, actions, pindex, e - 1);
    var n :| n in states[e - 1].plan[pindex].nodes && IsPrimary(states[e - 1].plan[pindex].nodes, n);
    var m := Successor(endPlan, states, actions, pindex, e - 1, n);
  }

  lemma Successor(endPlan: PlanPIndexes, states: seq<State>, actions: seq<Action>, pindex: string, k: nat, n: string)
    returns (m: string)
    requires IsRun(endPlan, states, actions) && PromoteFirst(states, actions, pindex) && k < |actions|
    requires PrimaryOn(states[k].plan, pindex, n)
    ensures PrimaryOn(states[k + 1].plan, pindex, m)
  {
    m := n;
    if Demoted(states, k, pindex, n) {
      assert Succeeded(states, actions, pindex, k, n);
      var j: nat;
      j, m :| m != n && PromotedEarlier(states, actions, pindex, j, k, m);
      StaysPrimary(endPlan, states, actions, pindex, m, j + 1, k + 1);
    }
  }
}
