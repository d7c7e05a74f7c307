# A verified model of cbgt

cbgt splits indexes into partitions, called pindexes, assigns them to nodes in a shared plan, and
makes every node follow that plan. This project models the parts of it where state changes step by
step and proves what those steps promise together:

- how a plan evolves: the rebalancer's "add as replica, wait until caught up, promote" manoeuvre
  (`Rebalance`, `RebalanceRuns`), failover (`Failover`), the splitting of source partitions
  (`Planner`);
- how a node reconciles itself with the plan: pindexes (`Janitor`), the choice between removing,
  restarting and hibernating (`Classifier`), feeds (`Feeds`), the booting flags (`Booting`), the
  covering set of a query (`Covering`);
- the shared configuration under races: the compare-and-swap store (`CfgMem`), the version bump
  (`Version`), the node directory in metakv (`NodeRegistry`, `NodeRaces`);
- the stored forms of a plan: lean (`LeanPlan`) and split (`SplitPlan`);
- two life cycles: the DCP feed (`DcpFeed`) and the service manager's task list (`CtlMgr`).

`Common`, `Text` and `Plan` hold what these share: optional values, the Go string operations, and
the plan's records.

Code that updates state is a class or a method with loops, proved against a specification on
values; Go's map iteration is an arbitrary pick, so every contract holds for every order. Code that
runs concurrently is a state machine whose steps are the source's lock sections; a run is any
sequence of such steps, and the main results are about every state of every run. Calls into code
outside the repository (the orchestrator's moves, monitor samples, JSON, gzip, CRC32, index
implementations, clocks, new UUIDs) are parameters or arbitrary steps.

Where the code and its comments disagree, the code is followed:

- A `Del` of `CfgMem` with number 0, which is what reading a missing key returns, is unconditional,
  so it can remove what another client has created since (`CfgMem.DelLosesCreate`; the exact
  condition is `CfgMem.DelOnlyIfUnchanged`).
- Two nodes that race to store the first version do not both retry: the loser's `Set` is answered
  with a plain error, not a CAS mismatch (`Version.RacingFirstInit`; exactly when is
  `Version.FirstWriteFailsIff`).
- A version is at least itself only if all its parts are numbers (`Version.ReflexiveIffNumeric`), so
  `CheckVersion` answers false to a node whose own non-numeric version is the stored one.
- `updateBootingStatus` never flags the empty name, so that name is not exclusive
  (`Booting.EmptyNameShared`).
- `CalcFeedsDelta` says that pindexes which may not be written have their feeds removed, but only
  notices missing partitions: a feed that also serves a writable pindex keeps sending to the other
  one (`Feeds.PausedStaysFed`; exactly when is `Feeds.PausedUnfedIff` and `Feeds.AllFreshIff`).
- A forced removal of a node definition can put back another node that has left
  (`NodeRaces.ForcedWriteResurrects`; exactly when is `NodeRaces.ForcedStepKeepsOthersIff`).
- Two generations of a pindex that are both still open can be asked to restart as the same new
  pindex (`Classifier.TakenTwice`; exactly when is `Classifier.OneRequestEachIff`).
- A topology change can be prepared and started beside a pause or resume, although those refuse to
  start beside it (`CtlMgr.RebalanceBesidePause`; exactly when is `CtlMgr.MixedIff`).
- The lean form loses hibernation paths and the warnings of indexes without pindexes; the round trip
  holds exactly under `LeanPlan.IsLeanable`.
- An empty set of stop-after marks never closes a feed, although no marked partition is missing
  (`DcpFeed.AllReached` asks for at least one mark).

## Model

| member | source | states |
|---|---|---|
| `RebalanceRuns.CatchUpBeforePromotion` | rebalance/rebalance.go:932-1010 | In every run of concurrent batches, workers and monitor samples: from the first plan write of a two-step move on a pindex that has a primary, the moved node stays a replica until every source partition was observed at or past its wanted sequence. |
| `RebalanceRuns.PromotionIsCaughtUp` | rebalance/rebalance.go:932-1010 | Conversely, however a node becomes primary of a pindex that has nodes: it was first made a replica by the same call, and either there was no primary to catch up with or every source partition has caught up since. |
| `RebalanceRuns.PrimaryNeverLost` | rebalance/rebalance.go:1066-1119 | If a primary is taken away only after another node was promoted and left alone, a pindex that starts with a primary has one in every plan of the run. |
| `RebalanceRuns.RunInv` | rebalance/rebalance.go:932-1010 | Over every run: live batches hold distinct pindexes, two-step moves are replica then promotion, one-step moves never ask for a primary, and no two live batches move the same pindex on the same node. |
| `RebalanceRuns.TrackedRun` | rebalance/rebalance.go:1352-1587 | The worker of a followed move knows where every wanted sequence comes from and which partitions have caught up, at every point of its two loops. |
| `RebalanceRuns.PromotingMove` | rebalance/rebalance.go:1168-1252 | A step that makes a node primary of a pindex with nodes is the second step of a two-step move on that node. |
| `RebalanceRuns.UntouchedNode` | rebalance/rebalance.go:1066-1119 | A step changes a node's entry on a pindex only if it is a plan write of a batch for that node that names the pindex. |
| `RebalanceRuns.OtherWantsUntouched` | rebalance/rebalance.go:1659-1673 | No other worker writes the wanted sequences of a followed move. |
| `Rebalance.MovesFor` | rebalance/rebalance.go:1015-1048 | Moves end in the requested state; two steps are made only for a primary that is not a deletion, and the first of them is a replica step. |
| `Rebalance.CreatePIndexesMoves` | rebalance/rebalance.go:1015-1048 | One move per pindex, in order. |
| `Rebalance.LongMovesKept` | rebalance/rebalance.go:1052-1062 | Exactly the moves with a further step are kept, and distinct names stay distinct. |
| `Rebalance.RemoveShortMoves` | rebalance/rebalance.go:1052-1062 | The loop keeps exactly the long moves, in order. |
| `Rebalance.StepTouchesOneNode` | rebalance/rebalance.go:1168-1252 | A plan step changes the moved node's entry and no other; a replica step on a pindex with nodes gives a priority of at least 1; a promotion gives 0. |
| `Rebalance.UpdatePlanPIndexes` | rebalance/rebalance.go:1168-1252 | The plan after one step, or a refusal that leaves it alone; the former primary reported is a primary of the entry as it was, or none if there is none. |
| `Rebalance.UpdateBatch` | rebalance/rebalance.go:1097-1107 | The loop over a batch applies every step in order or refuses as a whole; over distinct pindexes each former primary is that of the plan before the batch. |
| `Rebalance.AssignedAt` | rebalance/rebalance.go:1097-1107 | In a batch over distinct pindexes each pindex gets its own single step, taken from the plan as it was. |
| `Rebalance.AssignedElsewhere` | rebalance/rebalance.go:1097-1107 | A batch leaves every pindex it does not name alone. |
| `Rebalance.Rebalancer.AssignPIndexCurrStates` | rebalance/rebalance.go:1126-1164 | An add is refused exactly when the node already holds the pindex in some state; a refusal changes no recorded state. |
| `Rebalance.Rebalancer.AssignPIndexes` | rebalance/rebalance.go:1066-1119 | The plan is written exactly when no state and no plan step is refused, the index is defined and the compare-and-swap wins; otherwise it is unchanged. |
| `Rebalance.SetUUIDSeq` | rebalance/rebalance.go:1697-1725 | Setting a sequence number changes what one pindex, partition and node reads, and nothing else. |
| `Failover.FailoverPlan` | cmd/planner.go:150-214 | Every entry is failed over in some iteration order and otherwise kept; a change is reported exactly when a failed node was assigned somewhere. |
| `Failover.FailoverPIndex` | cmd/planner.go:152-213 | Survivors, with as many replicas promoted as primaries failed and the rest imported from the calculated plan, whatever the order of iteration. |
| `Failover.PromoteReplica` | cmd/planner.go:162-179 | Gives one surviving replica priority 0 if there is one, and changes nothing else. |
| `Failover.AssignPrimary` | cmd/planner.go:194-201 | Copies one surviving primary of the calculated plan if there is one, and changes nothing else. |
| `Failover.FailedNodesLeave` | cmd/planner.go:150-214 | No failed node remains and every survivor stays; there are promoted replicas and nodes taken from the calculated plan, together at most as many as primaries failed, and every other survivor keeps its entry unchanged. |
| `Failover.AtMostOnePrimaryKept` | cmd/planner.go:150-214 | At most one primary per pindex before means at most one after. |
| `Failover.ReplicaTakesOver` | cmd/planner.go:157-179 | A single primary that fails while a replica survives is replaced by exactly one surviving replica, and every other survivor's entry is unchanged. |
| `Failover.PrimaryAfterFailover` | cmd/planner.go:157-203 | A pindex has a primary afterwards if and only if one survived, or one failed and a replica survived or an import was possible. |
| `Failover.ChangedIff` | cmd/planner.go:216-218 | The new plan differs from the old one exactly when a failed node was assigned somewhere. |
| `Planner.GroupSourcePartitions` | manager_planner.go:771-817 | The groups concatenate to the sources; with k index partitions there are min(k, n) non-empty groups whose sizes differ by at most one; otherwise all groups but the last are full and there is at least one. |
| `Planner.GroupEvenly` | manager_planner.go:774-800 | As above for k groups; the cursor into the sizes stays in bounds. |
| `Planner.GroupSizes` | manager_planner.go:777-790 | The sizes sum up to the number of sources, the remainder going to the first groups one each. |
| `Planner.GroupByMax` | manager_planner.go:801-816 | Full groups and a remainder; one group when there is no limit or no source. |
| `Planner.SplitIndexDefIntoPlanPIndexes` | manager_planner.go:707-769 | Every group has the plan pindex of its name, the last one winning where names collide. |
| `Planner.EachSourceOnce` | manager_planner.go:733-766 | Every source belongs to exactly one plan pindex if and only if the checksum tells the groups apart. |
| `Planner.SplitIsLeanable` | manager_planner.go:735-752 | The plan pindexes made of an index survive the lean form if and only if the index has no hibernation path or there are none. |
| `Planner.PlansAreOf` | manager_planner.go:735-752 | The plan pindexes of an index are keyed by name, share all fields of its definition and start without nodes. |
| `Planner.NamesTellApart` | manager_planner.go:1147-1152 | Two plan pindex names of an index are equal exactly when the checksums of their sources are. |
| `Planner.GroupsDivide` | manager_planner.go:771-817 | The groups made of at least one source are a division of the sources without empty groups. |
| `Janitor.JanitorPIndexes` | manager_janitor.go:1013-1133 | Computing and applying the delta leads to the target: the pindexes planned here and the retained ones of plans in progress, matching ones left running. |
| `Janitor.DeltaReachesTarget` | manager_janitor.go:1084-1133 | Every delta, computed and applied in any order, leads to that target. |
| `Janitor.TargetMatches` | manager_janitor.go:1084-1133 | Every pindex of the target matches its plan, and reconciling again changes nothing. |
| `Janitor.NextDeltaEmpty` | manager_janitor.go:1084-1133 | On the target the next delta adds and removes nothing. |
| `Janitor.CalcPIndexesDelta` | manager_janitor.go:1084-1133 | The lists hold, each once, exactly the pindexes wanted here but missing or mismatched, and those mismatched or neither wanted nor reusable. |
| `Janitor.ReusablePIndexesPlanMap` | manager_janitor.go:1013-1052 | Exactly the names of plans in progress whose pindex is here as they want it. |
| `Janitor.Reconcile` | manager_janitor.go:1309-1407 | Stops come before starts; starting a registered name leaves it alone. |
| `Janitor.Started` | manager_janitor.go:1309-1361 | A started pindex matches its plan and has its hibernation path. |
| `Classifier.ClassifyAddRemoveRestartPIndexes` | manager_janitor.go:677-706 | The four lists hold, as multisets, exactly the items of the pindexes to remove and the plans no request takes. |
| `Classifier.AdvPIndexClassifier` | manager_janitor.go:782-872 | The same for every order in which the indexes are visited. |
| `Classifier.RemovedExactlyOnce` | manager_janitor.go:782-872 | Every pindex to remove is in exactly one of remove, restart and hibernate, exactly once, under its own name. |
| `Classifier.PlansConserved` | manager_janitor.go:848-869 | Every plan to add is in the add list exactly once or is the target of a request, never both, and nothing else is added or targeted. |
| `Classifier.OneRequestEachIff` | manager_janitor.go:801-847 | Every plan is taken by at most one request if and only if the pindexes of an index that can be reused differ in the last part of their names. |
| `Classifier.TakenTwice` | manager_janitor.go:801-847 | Two generations of a pindex are both to restart as the same new one. |
| `Classifier.ItemIsAbout` | manager_janitor.go:801-916 | An item is about its own pindex; a request takes a plan to add of the same index with the same last part of the name, and carries that plan's parameters and nothing else new. |
| `Classifier.FindTarget` | manager_janitor.go:802-811 | The first plan whose name has the same last part. |
| `Feeds.CalcFeedsDelta` | manager_janitor.go:1184-1247 | Starts exactly the wanted feeds that are missing or miss a partition, with their whole group, and stops exactly the changed and the unwanted ones, each once. |
| `Feeds.GroupPIndexes` | manager_janitor.go:1192-1201 | Each group lists exactly the writable pindexes of its feed, each once. |
| `Feeds.IsChanged` | manager_janitor.go:1210-1226 | A feed is changed exactly when some pindex of the group has a partition it does not serve. |
| `Feeds.StartFeed` | manager_janitor.go:1409-1457 | A feed starts exactly when its pindexes agree on its name and no two source partitions collide; then every partition goes to its own pindex and there are no others. |
| `Feeds.JanitorFeeds` | manager_janitor.go:604-639 | After a round there is a feed for each wanted name and no other, new where it had to be started and the same otherwise. |
| `Feeds.EveryPIndexFed` | manager_janitor.go:1184-1247 | After a round every feed serves a writable pindex; every writable pindex has a feed that covers its source partitions, and they are sent to it exactly if the feed was started in the round or sent them to it before. |
| `Feeds.NextFeedsDeltaEmpty` | manager_janitor.go:1184-1247 | After a round the next delta is empty. |
| `Feeds.AllFreshIff` | manager_janitor.go:1203-1236 | After a round every feed sends exactly the partitions of its writable pindexes, each to its own, if and only if no feed that the round keeps has an out-of-date destination before. |
| `Feeds.PausedUnfedIff` | manager_janitor.go:1188-1226 | A pindex that may not be written is left without a feed if and only if no feed that the round keeps sends to it. |
| `Feeds.PausedStaysFed` | manager_janitor.go:1188-1226 | Two rounds after which a pindex that may no longer be written is still fed. |
| `Booting.Manager.UpdateBootingStatus` | manager.go:634-656 | Acquiring succeeds exactly for the empty name or one neither registered nor booting; releasing always succeeds. |
| `Booting.Manager.RegisterPIndex` | manager.go:792-816 | Registers a name exactly when it is not registered. |
| `Booting.Manager.UnregisterPIndex` | manager.go:820-846 | Removes and returns the registered pindex unless another one was asked for. |
| `Booting.BootingExclusion` | manager.go:692-733 | In every interleaving of workers, for every name but the empty one: at most one worker is on it, the flag is set exactly meanwhile, the holder finds the name unregistered and its registration succeeds. |
| `Booting.NothingLeftBooting` | manager_janitor.go:234-264 | When all workers wait, a name can be acquired exactly when it is not registered. |
| `Booting.EmptyNameShared` | manager.go:634-656 | Two workers can be on the empty name at once. |
| `Covering.ClassifyPIndexes` | pindex.go:471-558 | Every plan pindex is served by its best node, locally or remotely, or is missing, in the order of the plan. |
| `Covering.LowestNode` | pindex.go:499-537 | For every order of the nodes: none is chosen exactly when none is eligible; else the chosen node has the least priority among eligible ones, and the usable local node wins ties. |
| `Covering.EachPlanOnce` | pindex.go:538-554 | Every plan pindex is in exactly one of the local, remote and missing lists. |
| `Covering.MissingIff` | pindex.go:538-542 | A name is listed as missing exactly when it has a plan pindex that no node is eligible for. |
| `Covering.EligibleBelowMax` | pindex.go:499-537 | Below the largest priority, eligible means able to serve. |
| `Covering.NodeDoesPIndexes` | pindex.go:477-490 | The node is wanted under its own UUID and has no tags or the pindex tag. |
| `CfgMem.CfgMem.Get` | cfg_mem.go:46-62 | Reads as specified; a missing key reads as nothing with number 0. |
| `CfgMem.CfgMem.Set` | cfg_mem.go:92-120 | Number 0 only creates, the force number always writes, any other must be the entry's; the new state in each case. |
| `CfgMem.CfgMem.Del` | cfg_mem.go:122-135 | A number other than 0 must be the entry's; the new state in each case. |
| `CfgMem.RetryOnCASMismatch` | misc.go:141-164 | Retries exactly while the outcome is a CAS mismatch, within the limit if there is one. |
| `CfgMem.SetOnlyIfUnchanged` | cfg_mem.go:92-120 | In every interleaving a Set with the number of an earlier Get succeeds only if the entry is still what was read, even after a delete and recreate. |
| `CfgMem.NoLostUpdates` | cfg_mem.go:92-135 | In every interleaving a key's value is the in-order composition of the successful operations. |
| `CfgMem.DelOnlyIfUnchanged` | cfg_mem.go:122-135 | A successful Del removes what its client read if and only if the client read an entry or there is none. |
| `CfgMem.DelLosesCreate` | cfg_mem.go:122-135 | A run in which a Del removes an entry its client never saw. |
| `Version.VersionGTE` | misc.go:87-110 | The loop decides the lexicographic order of the numeric parts. |
| `Version.Transitive` | misc.go:87-110 | The order is transitive on all strings. |
| `Version.TotalOnNumeric` | misc.go:87-110 | On numeric versions the order is total, and both ways exactly for the same numbers. |
| `Version.ReflexiveIffNumeric` | misc.go:87-110 | A version is at least itself exactly when it is numeric. |
| `Version.CheckVersion` | version.go:34-108 | Alone, it stores the own version exactly when there is none or the bump is allowed, never lowers it, and answers whether the own version is at least the stored one. |
| `Version.VersionNeverDecreases` | version.go:34-108 | In every interleaving of CheckVersion calls the stored version, once there, stays and never decreases. |
| `Version.RacingFirstInit` | version.go:46-64 | A run in which the second of two first writers fails. |
| `Version.FirstWriteFailsIff` | version.go:48-64 | In every run a node that has read the version gets an error from its next step if and only if it read none and one is stored by now. |
| `Version.NoErrorOnceStored` | version.go:48-104 | Where a version is stored at the start of a run, no step after a read ends in an error. |
| `NodeRegistry.CfgMetaKv.Get` | cfg_metakv.go:362-422 | The union of the children in any order, the lowest version among numeric ones, a new number, and the cached entry. |
| `NodeRegistry.CfgMetaKv.Set` | cfg_metakv.go:426-550 | A mismatch changes nothing; an unforced write touches at most one child and only the writer's own, a forced one all; children are deleted only by a write that neither adds nor updates. |
| `NodeRegistry.Analyze` | cfg_metakv.go:457-478 | The children added, updated and removed with respect to the cached composite. |
| `NodeRegistry.Weave` | cfg_metakv.go:369-393 | The composite of the children and their lowest version, for every order. |
| `NodeRegistry.UnionIsComposite` | cfg_metakv.go:381-383 | In a directory of one child per node the union is one map, whatever the order. |
| `NodeRaces.OnlyOwnStepsCount` | cfg_metakv.go:426-550 | Two runs in which a node takes the same steps leave it the same child entry and process state, whatever all other nodes do with caches however stale. |
| `NodeRaces.AsIfAlone` | manager.go:536-620 | A node ends a race as if it had been alone. |
| `NodeRaces.Registered` | manager.go:536-594 | A node whose own steps were one registration is in the directory with what it registered. |
| `NodeRaces.Unregistered` | manager.go:600-620 | A node whose own steps were one removal is not in the directory. |
| `NodeRaces.ReadsAreUnions` | cfg_metakv.go:362-422 | In every reachable state a composite read is the union of the children. |
| `NodeRaces.OwnChildOnly` | cfg_metakv.go:484-545 | Written over the composite it was computed from, an edit of one's own entry changes that child alone. |
| `NodeRaces.SetIsCommit` | cfg_metakv.go:484-545 | Every outcome the split write allows to an unforced node is the one the races are about. |
| `NodeRaces.SaveNodeDef` | manager.go:536-594 | Alone, the node's child becomes its definition unless it already is and force is off; no other child changes. |
| `NodeRaces.RemoveNodeDef` | manager.go:600-620 | Alone, the node's child goes and no other changes. |
| `NodeRaces.SetIsForced` | cfg_metakv.go:484-545 | Every outcome the split write allows to a forced write is the one the forced steps are about. |
| `NodeRaces.ForcedKeepsOthersIff` | cfg_metakv.go:484-545 | A forced removal of a node leaves all others as they are if and only if what it writes or deletes about each of them is still so. |
| `NodeRaces.ForcedOverOwnReadIff` | defs.go:447-474 | Over its own read that is: if and only if every other node it read is still there with the same definition. |
| `NodeRaces.ForcedStepKeepsOthersIff` | defs.go:441-474 | The same at any point of any run that mixes forced removals by any process with the nodes' own steps. |
| `NodeRaces.ForcedAtOnce` | defs.go:447-474 | A forced removal right after its own read removes its node and no other. |
| `NodeRaces.ForcedWriteResurrects` | defs.go:447-474 | A run in which a node removes itself between the read and the write of a forced removal and is put back. |
| `LeanPlan.LeanRoundTrip` | cfg_metakv_lean.go:303-379 | Reading the children in any order gives back the pindexes if and only if the plan is keyed by name, pindexes of an index share its fields, and none has a hibernation path. |
| `LeanPlan.WarningsRoundTrip` | cfg_metakv_lean.go:348-356 | The warnings that come back are exactly those of the indexes that have pindexes, unchanged. |
| `LeanPlan.StoreAndLoad` | cfg_metakv_lean.go:154-224 | Written, listed in any order and read: the same pindexes exactly if the plan can be lean, the same UUID, the same version unless there was none, and exactly the warnings of indexes with pindexes. |
| `LeanPlan.SetLeanPlan` | cfg_metakv_lean.go:154-224 | One child per index, holding each of its pindexes under its name and the shared fields of one of them. |
| `LeanPlan.GetLeanPlan` | cfg_metakv_lean.go:303-379 | The pindexes of all children under their names, each index's own warnings, and the meta entry's UUID and version when the children agree. |
| `SplitPlan.SplitRoundTrip` | cfg_metakv_util.go:153-182 | However the children are listed, the numeric sort and concatenation return the bytes that were written. |
| `SplitPlan.StoreAndLoad` | cfg_metakv_util.go:112-182 | Written, listed in any order and read: the same bytes. |
| `SplitPlan.ChunksOf` | cfg_metakv_util.go:125-135 | The chunks concatenate to the value, each has 1 to 100000 bytes, all but the last are full, and their number is the length over 100000 rounded up. |
| `SplitPlan.SetSplitPlan` | cfg_metakv_util.go:112-150 | Every chunk is a child of its own under its number, and there are no others. |
| `SplitPlan.GetSplitPlan` | cfg_metakv_util.go:153-182 | The children, each once, in the order of their numbers when all have one, concatenated. |
| `SplitPlan.IdOfChildPath` | cfg_metakv_util.go:135-159 | The number of a child's path can be read back from it. |
| `DcpFeed.GocbcoreDCPFeed.InitiateStreamEx` | feed_dcp_gocbcore.go:938-951 | A closed feed opens nothing; a new stream counts once. |
| `DcpFeed.GocbcoreDCPFeed.Complete` | feed_dcp_gocbcore.go:1259-1266 | Ending a stream counts down exactly if it was active. |
| `DcpFeed.GocbcoreDCPFeed.Close` | feed_dcp_gocbcore.go:821-876 | Only the first close ends the streams, and the counter goes down by as many. |
| `DcpFeed.GocbcoreDCPFeed.UpdateStopAfter` | feed_dcp_gocbcore.go:1284-1311 | Reaching the last mark closes the feed; any other only records it. |
| `DcpFeed.GocbcoreDCPFeed.Mutation` | feed_dcp_gocbcore_observer.go:82-135 | A data callback on its own takes the steps of the run model, and calls the Dest exactly when the partition has not reached its mark. |
| `DcpFeed.CounterIsActive` | feed_dcp_gocbcore.go:821-876 | In every run the wait counter is the number of active vbuckets, and nothing is active after close. |
| `DcpFeed.StaysClosed` | feed_dcp_gocbcore.go:938-951 | Once closed, the feed stays closed and its counter stays zero. |
| `DcpFeed.NoCallAfterMark` | feed_dcp_gocbcore_observer.go:44-189 | In every run no call reaches a partition's Dest after the partition has reached its mark, and no snapshot is announced past a mark. |
| `DcpFeed.CrossesOnce` | feed_dcp_gocbcore_observer.go:82-189 | In every run a partition gets at most one successful data call at or past its mark. |
| `DcpFeed.ClosesItselfWhenAllReached` | feed_dcp_gocbcore.go:1284-1311 | In every run the feed has gone to close itself if and only if there are marks and every marked partition has reached its own. |
| `DcpFeed.AllDoneIff` | feed_dcp_gocbcore.go:1303-1309 | Comparing sizes decides whether this mark was the last. |
| `CtlMgr.CtlMgr.CancelTask` | ctl/manager.go:165-223 | The first task of the id that conflicts or is not cancelable decides; else all of that id go; the list changes only on success. |
| `CtlMgr.CtlMgr.PrepareTopologyChange` | ctl/manager.go:307-380 | Adds a prepared task exactly when the revision fits and no task is prepared or rebalancing. |
| `CtlMgr.CtlMgr.StartTopologyChange` | ctl/manager.go:382-434 | Prepared tasks become the rebalance; a rebalance conflicts; without a prepared task it is not found. |
| `CtlMgr.CtlMgr.HandleTaskProgress` | ctl/manager.go:692-746 | Tasks of the id get a new revision and the report, or go when there is no more progress and no error; others stay. |
| `CtlMgr.CtlMgr.PreparePause` | ctl/manager.go:879-948 | Adds a prepared task exactly when there is no task of any kind and the node is ready. |
| `CtlMgr.CtlMgr.PrepareResume` | ctl/manager.go:952-1029 | The same, with a number spent even when the node is not ready. |
| `CtlMgr.CtlMgr.Pause` | ctl/manager.go:1033-1067 | The list becomes the pause alone, exactly when nothing is underway and it starts. |
| `CtlMgr.CtlMgr.Resume` | ctl/manager.go:1116-1150 | The list becomes the resume alone, exactly when nothing is underway and it starts. |
| `CtlMgr.CtlMgr.AllocRevNum` | ctl/manager.go:790-797 | The next number is past the previous one and never below the counter. |
| `CtlMgr.RevsIncrease` | ctl/manager.go:777-797 | In every run each revision number handed out exceeds all earlier ones. |
| `CtlMgr.SameRevSameList` | ctl/manager.go:777-797 | In every run two task lists with the same revision are identical. |
| `CtlMgr.AtMostOneOfEach` | ctl/manager.go:307-434 | Every reachable list holds at most one prepared or rebalance task and at most one pause or resume task. |
| `CtlMgr.MixedIff` | ctl/manager.go:307-341 | In a run a topology change and a pause or resume are listed together at some point if and only if at some point a topology change is prepared while a bucket pauses or resumes. |
| `CtlMgr.RebalanceBesidePause` | ctl/manager.go:307-434 | A run that starts a rebalance beside a pause. |
| `Text.JoinSplit` | manager_janitor.go:1214-1216 | Joining what strings.Split returns gives the string back, and no part holds the separator. |
| `Text.SplitJoin` | manager_planner.go:735 | Splitting joined parts gives them back when none holds the separator. |
| `Text.AtoiItoa` | cfg_metakv_util.go:158-159 | Decimal formatting and parsing are inverse for all numbers that fit in 64 bits. |

## Left out

- blance's PlanNextMap and OrchestrateMoves: moves arrive as arbitrary well-formed requests, with at most one move in flight for a pindex on a node.
- The rebalancer's dry-run, SkipSeqChecks, AddPrimaryDirectly and timeout-skip paths: the properties about catching up do not hold for them by design.
- A concurrent planner's own write of the plan during a rebalance: it can make any node a primary, so the properties of RebalanceRuns are about the rebalancer's writes alone.
- The rebalancer's wait loops are steps of a worker between lock sections, not methods with loops; failing samples appear as a batch that is abandoned.
- Failover's warnings and the new plan's UUID.
- The composite UUID of the node directory (a checksum of the children's UUIDs), errors of metakv calls, and JSON and gzip, which are taken as invertible.
- Version.CheckVersion: VerifyEffectiveClusterVersion is a parameter, and errors of the Cfg other than those of CfgMem are an arbitrary failing step of a run.
- CfgMem's events and GetRev, and the wrappers CfgCB and CfgSimple.
- CfgMem.NoLostUpdates: the CAS counter is required to stay below the force number, as is each process's counter in NodeRaces.
- Booting.BootingExclusion: the restart and rollback paths of the janitor, which register without the flag, and a pindex that opens under another name than its directory's.
- The classifier's rebuildOnReplicaUpdate branch, and what restart and hibernate requests do afterwards.
- filterFeedable and the feed types' own start calls, which are taken to succeed in Feeds.JanitorFeeds.
- Planner.GroupEvenly: the quotient is integer division, where the source divides in floating point.
- Planner.SplitIndexDefIntoPlanPIndexes: data source calls, new UUIDs and the second output map.
- SplitPlan.GetSplitPlan: sort.Slice is an insertion sort on a sequence, not an in-place sort.
- LeanPlan: the directory's MD5 stamp, the meta entry's own storage, and orphan purging.
- DcpFeed: stream requests after their entry part, rollback, the vbucket check and sequence bookkeeping of the callbacks, and callbacks of one partition that overlap.
- CtlMgr.CtlMgr.AllocRevNum: revision numbers are unbounded; the wrap-around after 2^64 allocations is not modelled.
- CtlMgr: the wait channel of GetTaskList, task extras, start times and the stop functions.
- REST handlers, the coveringCache, hibernation, the bucket scope tracker, statistics and progress percentages.
