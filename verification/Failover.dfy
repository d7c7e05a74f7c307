/** Failover (cmd/planner.go): nodes are dropped from every pindex of the plan, and a pindex
    that loses its primary gets a replica promoted or a primary from a calculated plan.
    Every pick over a Go map is a non-deterministic one, so the contracts hold for every order. */
module Failover {
  import opened Common
  import opened Plan

  function FailedPrimaries(nodes: Nodes, failed: set<string>): (s: set<string>) {
    set n | n in nodes && n in failed && IsPrimary(nodes, n)
  }

  function SurvivingReplicas(nodes: Nodes, failed: set<string>): (s: set<string>) {
    set n | n in nodes && n !in failed && !IsPrimary(nodes, n)
  }

  /** `after` is `before` without the nodes in `gone`, with the promoted nodes at priority 0 and
      the imported entries on top; everything else about an entry is as it was. */
  ghost predicate Rewritten(before: Nodes, gone: set<string>, promoted: set<string>, imported: Nodes, after: Nodes)
  {
    && (forall n :: n in after <==> n in imported || (n in before && n !in gone))
    && forall n | n in after ::
         after[n] == if n in imported then imported[n]
                     else if n in promoted then before[n].(priority := 0)
                     else before[n]
  }

  /** A primary of the calculated plan that did not fail. */
  predicate IsCandidate(calculated: Option<Nodes>, failed: set<string>, n: string) {
    calculated.Some? && IsPrimary(calculated.value, n) && n !in failed
  }

  predicate HasCandidate(calculated: Option<Nodes>, failed: set<string>) {
    calculated.Some? && exists n | n in calculated.value :: IsCandidate(calculated, failed, n)
  }

  /** What failover does to one pindex: the survivors, with as many surviving replicas promoted
      as there are failed primaries (or all of them), plus primaries from the calculated plan
      only when the replicas ran out. Everything else about a survivor stays as it was. */
  ghost predicate Outcome(before: Nodes, failed: set<string>, assignAll: bool, calculated: Option<Nodes>,
                          after: Nodes, promoted: set<string>, imported: Nodes)
  {
    var lost := |FailedPrimaries(before, failed)|;
    var spare := SurvivingReplicas(before, failed);
    && Rewritten(before, before.Keys * failed, promoted, imported, after)
    && Tally(failed, assignAll, calculated, lost, spare, promoted, imported)
  }

  /** The replicas promoted and the primaries imported for `lost` failed primaries. */
  ghost predicate Tally(failed: set<string>, assignAll: bool, calculated: Option<Nodes>,
                        lost: nat, spare: set<string>, promoted: set<string>, imported: Nodes)
  {
    && promoted <= spare
    && |promoted| == (if lost <= |spare| then lost else |spare|)
    && |imported| <= lost - |promoted|
    && (forall n | n in imported :: IsCandidate(calculated, failed, n) && imported[n] == calculated.value[n])
    && (imported != map[] ==> assignAll)
    && (lost > |spare| && assignAll && HasCandidate(calculated, failed) ==> imported != map[])
  }

  /** The PROMOTE_REPLICA loop: gives some surviving replica priority 0, if there is one. */
  method PromoteReplica(nodes: Nodes, failed: set<string>) returns (next: Nodes, pick: Option<string>)
    ensures pick.None? <==> SurvivingReplicas(nodes, failed) == {}
    ensures pick.None? ==> next == nodes
    ensures pick.Some? ==>
              && pick.value in SurvivingReplicas(nodes, failed)
              && next == nodes[pick.value := nodes[pick.value].(priority := 0)]
  {
    var todo := nodes.Keys;
    while todo != {}
      invariant todo <= nodes.Keys
      invariant forall n | n in nodes && n !in todo :: n !in SurvivingReplicas(nodes, failed)
      decreases todo
    {
      var n :| n in todo;
      todo := todo - {n};
      if n !in failed && nodes[n].priority >= 1 {
        assert n in SurvivingReplicas(nodes, failed);
        return nodes[n := nodes[n].(priority := 0)], Some(n);
      }
    }
    return nodes, None;
  }

  /** The ASSIGN_PRIMARY loop: copies some surviving primary of the calculated plan, if there is one. */
  method AssignPrimary(nodes: Nodes, failed: set<string>, calculated: Nodes) returns (next: Nodes, pick: Option<string>)
    ensures pick.None? <==> !HasCandidate(Some(calculated), failed)
    ensures pick.None? ==> next == nodes
    ensures pick.Some? ==>
              && IsCandidate(Some(calculated), failed, pick.value)
              && next == nodes[pick.value := calculated[pick.value]]
  {
    var todo := calculated.Keys;
    while todo != {}
      invariant todo <= calculated.Keys
      invariant forall n | n in calculated && n !in todo :: !IsCandidate(Some(calculated), failed, n)
      decreases todo
    {
      var n :| n in todo;
      todo := todo - {n};
      if calculated[n].priority <= 0 && n !in failed {
        assert IsCandidate(Some(calculated), failed, n);
        return nodes[n := calculated[n]], Some(n);
      }
    }
    return nodes, None;
  }

  /** Primaries are imported only once every spare replica is promoted. */
  lemma ImportedLast(failed: set<string>, assignAll: bool, calculated: Option<Nodes>,
                     lost: nat, spare: set<string>, promoted: set<string>, imported: Nodes)
    requires Tally(failed, assignAll, calculated, lost, spare, promoted, imported)
    ensures imported != map[] ==> promoted == spare && lost > |spare|
  {
    SubsetSize(promoted, spare);
    if imported != map[] {
      assert imported.Keys != {};
      assert |imported| > 0;
    }
  }

  lemma TallyPromoted(failed: set<string>, assignAll: bool, calculated: Option<Nodes>,
                      lost: nat, spare: set<string>, promoted: set<string>, imported: Nodes, pick: string)
    requires Tally(failed, assignAll, calculated, lost, spare, promoted, imported)
    requires pick in spare - promoted
    ensures imported == map[]
    ensures Tally(failed, assignAll, calculated, lost + 1, spare, promoted + {pick}, imported)
  {
    ImportedLast(failed, assignAll, calculated, lost, spare, promoted, imported);
    SubsetSize(promoted + {pick}, spare);
  }

  lemma TallyImported(failed: set<string>, assignAll: bool, calculated: Option<Nodes>,
                      lost: nat, spare: set<string>, promoted: set<string>, imported: Nodes, fill: Option<string>)
    requires Tally(failed, assignAll, calculated, lost, spare, promoted, imported)
    requires promoted == spare
    requires fill.None? <==> !(assignAll && HasCandidate(calculated, failed))
    requires fill.Some? ==> IsCandidate(calculated, failed, fill.value)
    ensures var imported' := if fill.Some? then imported[fill.value := calculated.value[fill.value]] else imported;
            Tally(failed, assignAll, calculated, lost + 1, spare, promoted, imported')
  {
    if fill.Some? {
      var imported' := imported[fill.value := calculated.value[fill.value]];
      assert fill.value in imported';
      assert imported'.Keys == imported.Keys + {fill.value};
    }
  }

  /** Midway, the replicas still open to promotion are the original ones not yet promoted. */
  lemma SpareLeft(before: Nodes, failed: set<string>, after: Nodes, promoted: set<string>, imported: Nodes,
                  gone: set<string>)
    requires Rewritten(before, gone, promoted, imported, after)
    requires gone <= failed && promoted <= SurvivingReplicas(before, failed)
    requires forall n | n in imported :: imported[n].priority <= 0
    requires imported != map[] ==> promoted == SurvivingReplicas(before, failed)
    ensures SurvivingReplicas(after, failed) == SurvivingReplicas(before, failed) - promoted
  {
    forall n
      ensures n in SurvivingReplicas(after, failed) <==> n in SurvivingReplicas(before, failed) - promoted
    {
    }
  }

  /** What the loop over one pindex has established once the failed nodes in `gone` are handled. */
  ghost predicate Midway(before: Nodes, failed: set<string>, assignAll: bool, calculated: Option<Nodes>,
                         gone: set<string>, after: Nodes, promoted: set<string>, imported: Nodes)
  {
    && gone <= before.Keys * failed
    && Rewritten(before, gone, promoted, imported, after)
    && Tally(failed, assignAll, calculated, |FailedPrimaries(before, failed) * gone|,
             SurvivingReplicas(before, failed), promoted, imported)
  }

  /** The failed primaries counted so far, before and after one more is handled. */
  lemma LostCount(lost: set<string>, gone: set<string>, n: string)
    requires n !in gone
    ensures |lost * (gone + {n})| == |lost * gone| + if n in lost then 1 else 0
  {
    if n in lost {
      assert lost * (gone + {n}) == lost * gone + {n};
    } else {
      assert lost * (gone + {n}) == lost * gone;
    }
  }

  lemma RewrittenOnce(before: Nodes, gone: set<string>, promoted: set<string>, imported: Nodes, current: Nodes,
                      n: string, pick: string, entry: PlanPIndexNode)
    requires Rewritten(before, gone, promoted, imported, current)
    requires n !in imported && n != pick
    ensures pick in current && pick in before && pick !in imported && entry == before[pick].(priority := 0) ==>
              Rewritten(before, gone + {n}, promoted + {pick}, imported, current[pick := entry] - {n})
    ensures Rewritten(before, gone + {n}, promoted, imported[pick := entry], current[pick := entry] - {n})
  {
  }

  /** What a failed node leaves behind when it was a replica: nothing but its absence. */
  lemma DroppedReplica(before: Nodes, failed: set<string>, assignAll: bool, calculated: Option<Nodes>,
                       gone: set<string>, current: Nodes, promoted: set<string>, imported: Nodes, n: string)
    requires Midway(before, failed, assignAll, calculated, gone, current, promoted, imported)
    requires n in before && n in failed && n !in gone && before[n].priority >= 1
    ensures Midway(before, failed, assignAll, calculated, gone + {n}, current - {n}, promoted, imported)
  {
    LostCount(FailedPrimaries(before, failed), gone, n);
  }

  /** A failed primary is answered by a promotion as long as a replica is left. */
  lemma DroppedPromoting(before: Nodes, failed: set<string>, assignAll: bool, calculated: Option<Nodes>,
                         gone: set<string>, current: Nodes, promoted: set<string>, imported: Nodes, n: string,
                         pick: string)
    requires Midway(before, failed, assignAll, calculated, gone, current, promoted, imported)
    requires n in before && n in failed && n !in gone && before[n].priority <= 0
    requires pick in SurvivingReplicas(current, failed)
    ensures Midway(before, failed, assignAll, calculated, gone + {n},
                   current[pick := current[pick].(priority := 0)] - {n}, promoted + {pick}, imported)
  {
    var lost, spare := FailedPrimaries(before, failed), SurvivingReplicas(before, failed);
    LostCount(lost, gone, n);
    ImportedLast(failed, assignAll, calculated, |lost * gone|, spare, promoted, imported);
    SpareLeft(before, failed, current, promoted, imported, gone);
    TallyPromoted(failed, assignAll, calculated, |lost * gone|, spare, promoted, imported, pick);
    RewrittenOnce(before, gone, promoted, imported, current, n, pick, current[pick].(priority := 0));
  }

  /** With no replica left, a failed primary is answered from the calculated plan, if at all. */
  lemma DroppedImporting(before: Nodes, failed: set<string>, assignAll: bool, calculated: Option<Nodes>,
                         gone: set<string>, current: Nodes, promoted: set<string>, imported: Nodes, n: string,
                         fill: Option<string>)
    requires Midway(before, failed, assignAll, calculated, gone, current, promoted, imported)
    requires n in before && n in failed && n !in gone && before[n].priority <= 0
    requires SurvivingReplicas(current, failed) == {}
    requires fill.None? <==> !(assignAll && HasCandidate(calculated, failed))
    requires fill.Some? ==> IsCandidate(calculated, failed, fill.value)
    ensures fill.None? ==>
              Midway(before, failed, assignAll, calculated, gone + {n}, current - {n}, promoted, imported)
    ensures fill.Some? ==>
              var entry := calculated.value[fill.value];
              Midway(before, failed, assignAll, calculated, gone + {n},
                     current[fill.value := entry] - {n}, promoted, imported[fill.value := entry])
  {
    var lost, spare := FailedPrimaries(before, failed), SurvivingReplicas(before, failed);
    LostCount(lost, gone, n);
    ImportedLast(failed, assignAll, calculated, |lost * gone|, spare, promoted, imported);
    SpareLeft(before, failed, current, promoted, imported, gone);
    TallyImported(failed, assignAll, calculated, |lost * gone|, spare, promoted, imported, fill);
    if fill.Some? {
      RewrittenOnce(before, gone, promoted, imported, current, n, fill.value, calculated.value[fill.value]);
    }
  }

  /** The handling of one failed node: promote or import when it was a primary, then delete it. */
  method DropNode(before: Nodes, failed: set<string>, assignAll: bool, calculated: Option<Nodes>,
                  current: Nodes, n: string,
                  ghost gone: set<string>, ghost promoted: set<string>, ghost imported: Nodes)
    returns (after: Nodes, fill: Option<string>, ghost promoted': set<string>, ghost imported': Nodes)
    requires Midway(before, failed, assignAll, calculated, gone, current, promoted, imported)
    requires n in before && n in failed && n !in gone
    ensures Midway(before, failed, assignAll, calculated, gone + {n}, after, promoted', imported')
    ensures fill.Some? ==> fill.value !in failed
  {
    after, fill, promoted', imported' := current, None, promoted, imported;
    if after[n].priority <= 0 {
      var pick;
      after, pick := PromoteReplica(current, failed);
      if pick.Some? {
        DroppedPromoting(before, failed, assignAll, calculated, gone, current, promoted, imported, n, pick.value);
        promoted' := promoted + {pick.value};
      } else {
        if assignAll && calculated.Some? {
          after, fill := AssignPrimary(current, failed, calculated.value);
        }
        DroppedImporting(before, failed, assignAll, calculated, gone, current, promoted, imported, n, fill);
        if fill.Some? {
          imported' := imported[fill.value := calculated.value[fill.value]];
        }
      }
    } else {
      DroppedReplica(before, failed, assignAll, calculated, gone, current, promoted, imported, n);
    }
    after := after - {n};
  }

  lemma NoneHandled(before: Nodes, failed: set<string>, assignAll: bool, calculated: Option<Nodes>)
    ensures Midway(before, failed, assignAll, calculated, {}, before, {}, map[])
  {
    assert FailedPrimaries(before, failed) * {} == {};
  }

  lemma AllHandled(before: Nodes, failed: set<string>, assignAll: bool, calculated: Option<Nodes>,
                   gone: set<string>, after: Nodes, promoted: set<string>, imported: Nodes)
    requires Midway(before, failed, assignAll, calculated, gone, after, promoted, imported)
    requires forall m | m in failed && m in before :: m in gone
    ensures Outcome(before, failed, assignAll, calculated, after, promoted, imported)
  {
    assert gone == before.Keys * failed;
    assert FailedPrimaries(before, failed) * gone == FailedPrimaries(before, failed);
  }

  /** Some run of the loop over this pindex ends with these nodes. */
  ghost predicate FailedOver(before: Nodes, failed: set<string>, assignAll: bool, calculated: Option<Nodes>,
                             after: Nodes)
  {
    exists promoted, imported :: Outcome(before, failed, assignAll, calculated, after, promoted, imported)
  }

  /** The body of the outer loop for one pindex. An entry inserted while the map is being
      ranged over may or may not be visited, as in Go. */
  method FailoverPIndex(before: Nodes, failed: set<string>, assignAll: bool, calculated: Option<Nodes>)
    returns (after: Nodes)
    ensures FailedOver(before, failed, assignAll, calculated, after)
  {
    after := before;
    ghost var promoted: set<string>, imported: Nodes := {}, map[];
    var todo := before.Keys;
    ghost var gone, left: set<string> := {}, before.Keys * failed;
    NoneHandled(before, failed, assignAll, calculated);
    while todo != {}
      invariant forall m | m in failed :: m in todo <==> m in left
      invariant forall m | m in failed && m in before :: m in gone <==> m !in left
      invariant left <= before.Keys
      invariant Midway(before, failed, assignAll, calculated, gone, after, promoted, imported)
      decreases left, todo
    {
      var n :| n in todo;
      todo := todo - {n};
      if n in failed {
        var fill;
        after, fill, promoted, imported :=
          DropNode(before, failed, assignAll, calculated, after, n, gone, promoted, imported);
        if fill.Some? {
          if * {
            todo := todo + {fill.value};
          }
        }
        gone, left := gone + {n}, left - {n};
      }
    }
    AllHandled(before, failed, assignAll, calculated, gone, after, promoted, imported);
  }

  function CalculatedNodes(calculated: PlanPIndexes, name: string): (r: Option<Nodes>) {
    if name in calculated then Some(calculated[name].nodes) else None
  }

  /** The entry stored under `key` is failed over and otherwise kept. */
  ghost predicate EntryFailedOver(before: PlanPIndex, key: string, failed: set<string>, calculated: PlanPIndexes,
                                  assignAll: string -> bool, after: PlanPIndex)
  {
    && after == before.(nodes := after.nodes)
    && FailedOver(before.nodes, failed, assignAll(before.indexName), CalculatedNodes(calculated, key), after.nodes)
  }

  /** Failover of a whole plan. `assignAll` is the failoverAssignAllPrimaries option by index name. */
  method FailoverPlan(plan: PlanPIndexes, failed: set<string>, calculated: PlanPIndexes, assignAll: string -> bool)
    returns (changed: bool, next: PlanPIndexes)
    ensures next.Keys == plan.Keys
    ensures forall p | p in plan :: EntryFailedOver(plan[p], p, failed, calculated, assignAll, next[p])
    ensures changed <==> exists p, n :: p in plan && n in plan[p].nodes && n in failed
  {
    next := plan;
    var todo := plan.Keys;
    while todo != {}
      invariant todo <= plan.Keys == next.Keys
      invariant forall p | p in todo :: next[p] == plan[p]
      invariant forall p | p in plan && p !in todo ::
                EntryFailedOver(plan[p], p, failed, calculated, assignAll, next[p])
      decreases todo
    {
      var p :| p in todo;
      todo := todo - {p};
      var after := FailoverPIndex(
        plan[p].nodes, failed, assignAll(plan[p].indexName), CalculatedNodes(calculated, p));
      next := next[p := plan[p].(nodes := after)];
    }
    changed := next != plan;
    ChangedIff(plan, failed, calculated, assignAll, next);
  }

  /** The new plan differs exactly when a failed node was assigned somewhere. */
  lemma ChangedIff(plan: PlanPIndexes, failed: set<string>, calculated: PlanPIndexes, assignAll: string -> bool,
                   next: PlanPIndexes)
    requires next.Keys == plan.Keys
    requires forall p | p in plan :: EntryFailedOver(plan[p], p, failed, calculated, assignAll, next[p])
    ensures next != plan <==> exists p, n :: p in plan && n in plan[p].nodes && n in failed
  {
    forall p | p in plan
      ensures next[p] != plan[p] <==> exists n :: n in plan[p].nodes && n in failed
    {
      NodesChangedIff(plan[p].nodes, failed, assignAll(plan[p].indexName), CalculatedNodes(calculated, p),
                      next[p].nodes);
    }
  }

  lemma NodesChangedIff(before: Nodes, failed: set<string>, assignAll: bool, calculated: Option<Nodes>, after: Nodes)
    requires FailedOver(before, failed, assignAll, calculated, after)
    ensures after != before <==> exists n :: n in before && n in failed
  {
    var promoted, imported :| Outcome(before, failed, assignAll, calculated, after, promoted, imported);
    if n :| n in before && n in failed {
      assert n !in after;
    } else {
      assert FailedPrimaries(before, failed) == {};
      NothingLost(before, failed, assignAll, calculated, after, promoted, imported);
      assert forall n :: n in after <==> n in before;
    }
  }

  /** Where no primary fails, no survivor changes. */
  lemma NothingLost(before: Nodes, failed: set<string>, assignAll: bool, calculated: Option<Nodes>,
                    after: Nodes, promoted: set<string>, imported: Nodes)
    requires Outcome(before, failed, assignAll, calculated, after, promoted, imported)
    requires FailedPrimaries(before, failed) == {}
    ensures promoted == {} && imported == map[]
  {
    assert |imported.Keys| == 0;
  }

  /** No failed node is left, and every survivor keeps its entry, except for surviving replicas that
      are promoted and nodes taken from the calculated plan, which together are at most as many as
      the primaries that failed. */
  lemma FailedNodesLeave(before: Nodes, failed: set<string>, assignAll: bool, calculated: Option<Nodes>, after: Nodes)
    returns (promoted: set<string>, imported: set<string>)
    requires FailedOver(before, failed, assignAll, calculated, after)
    ensures forall n | n in after :: n !in failed
    ensures forall n | n in before && n !in failed :: n in after
    ensures promoted <= SurvivingReplicas(before, failed)
    ensures |promoted| + |imported| <= |FailedPrimaries(before, failed)|
    ensures forall n | n in before && n !in failed && n !in promoted && n !in imported :: after[n] == before[n]
    ensures forall n | n in promoted && n !in imported :: n in after && after[n] == before[n].(priority := 0)
    ensures forall n | n in imported ::
              n in after && IsCandidate(calculated, failed, n) && after[n] == calculated.value[n]
    ensures forall n | n in after && n !in before :: n in imported
  {
    var imports: Nodes;
    promoted, imports :| Outcome(before, failed, assignAll, calculated, after, promoted, imports);
    imported := imports.Keys;
  }

  lemma SingleLoss(before: Nodes, failed: set<string>)
    requires AtMostOnePrimary(before)
    ensures |FailedPrimaries(before, failed)| <= 1
    ensures FailedPrimaries(before, failed) != {} ==> forall n | n in before && n !in failed :: !IsPrimary(before, n)
  {
    var lost := FailedPrimaries(before, failed);
    if lost != {} {
      var p :| p in lost;
      SubsetSize(lost, {p});
    }
  }

  /** A plan with at most one primary per pindex still has at most one. */
  lemma AtMostOnePrimaryKept(before: Nodes, failed: set<string>, assignAll: bool, calculated: Option<Nodes>,
                             after: Nodes)
    requires FailedOver(before, failed, assignAll, calculated, after)
    requires AtMostOnePrimary(before)
    ensures AtMostOnePrimary(after)
  {
    var promoted, imported :| Outcome(before, failed, assignAll, calculated, after, promoted, imported);
    SingleLoss(before, failed);
    if FailedPrimaries(before, failed) == {} {
      NothingLost(before, failed, assignAll, calculated, after, promoted, imported);
      assert forall n | n in after && IsPrimary(after, n) :: n in before && IsPrimary(before, n);
    } else {
      AtMostOneElement(promoted, imported.Keys);
      PrimariesNew(before, failed, promoted, imported, after);
    }
  }

  /** Where no primary survives, the primaries afterwards are promoted or imported ones. */
  lemma PrimariesNew(before: Nodes, failed: set<string>, promoted: set<string>, imported: Nodes, after: Nodes)
    requires Rewritten(before, before.Keys * failed, promoted, imported, after)
    requires forall n | n in before && n !in failed :: !IsPrimary(before, n)
    ensures forall n | n in after && IsPrimary(after, n) :: n in promoted || n in imported.Keys
  {
  }

  lemma AtMostOneElement<T>(a: set<T>, b: set<T>)
    requires |a| + |b| <= 1
    ensures forall x, y | (x in a || x in b) && (y in a || y in b) :: x == y
  {
    forall x, y | (x in a || x in b) && (y in a || y in b)
      ensures x == y
    {
      if x in a {
        assert |a - {x}| == 0;
      } else {
        assert |b - {x}| == 0;
      }
    }
  }

  /** Exactly when a pindex still has a primary: one survived, or one failed and there was a
      replica to promote or a primary of the calculated plan that may be taken over. */
  lemma PrimaryAfterFailover(before: Nodes, failed: set<string>, assignAll: bool, calculated: Option<Nodes>,
                             after: Nodes)
    requires FailedOver(before, failed, assignAll, calculated, after)
    ensures HasPrimary(after) <==>
              || (exists n | n in before :: IsPrimary(before, n) && n !in failed)
              || (&& FailedPrimaries(before, failed) != {}
                  && (SurvivingReplicas(before, failed) != {} || (assignAll && HasCandidate(calculated, failed))))
  {
    var promoted, imported :| Outcome(before, failed, assignAll, calculated, after, promoted, imported);
    var lost, spare := FailedPrimaries(before, failed), SurvivingReplicas(before, failed);
    if lost == {} {
      NothingLost(before, failed, assignAll, calculated, after, promoted, imported);
    }
    ImportedLast(failed, assignAll, calculated, |lost|, spare, promoted, imported);
    if n :| n in before && IsPrimary(before, n) && n !in failed {
      assert IsPrimary(after, n);
    }
    if lost != {} && spare != {} {
      assert promoted != {};
      var n :| n in promoted;
      assert IsPrimary(after, n);
    }
    if lost != {} && spare == {} && assignAll && HasCandidate(calculated, failed) {
      assert imported != map[];
      var n :| n in imported;
      assert IsPrimary(after, n);
    }
  }

  /** A single primary that fails is replaced by a single one whenever a replica survives, and the
      new primary is one of those replicas, otherwise unchanged. */
  lemma ReplicaTakesOver(before: Nodes, failed: set<string>, assignAll: bool, calculated: Option<Nodes>, after: Nodes)
    returns (heir: string)
    requires FailedOver(before, failed, assignAll, calculated, after)
    requires AtMostOnePrimary(before)
    requires FailedPrimaries(before, failed) != {} && SurvivingReplicas(before, failed) != {}
    ensures heir in SurvivingReplicas(before, failed)
    ensures forall n | n in after :: IsPrimary(after, n) <==> n == heir
    ensures forall n | n in after ::
              n in before && after[n] == if n == heir then before[n].(priority := 0) else before[n]
  {
    var promoted, imported :| Outcome(before, failed, assignAll, calculated, after, promoted, imported);
    SingleLoss(before, failed);
    assert |promoted| == 1;
    ImportedLast(failed, assignAll, calculated, |FailedPrimaries(before, failed)|,
                 SurvivingReplicas(before, failed), promoted, imported);
    heir :| heir in promoted;
    AtMostOneElement(promoted, {});
  }
}
