/** The plan and its parts: the records of defs.go and pindex.go that the other modules share. */
module Plan {
  datatype PlanPIndexNode = PlanPIndexNode(canRead: bool, canWrite: bool, priority: int)

  /** The nodes a pindex is assigned to, keyed by node UUID. */
  type Nodes = map<string, PlanPIndexNode>

  datatype PlanPIndex = PlanPIndex(
    name: string,
    uuid: string,
    indexType: string,
    indexName: string,
    indexUUID: string,
    indexParams: string,
    sourceType: string,
    sourceName: string,
    sourceUUID: string,
    sourceParams: string,
    sourcePartitions: string,
    hibernationPath: string,
    nodes: Nodes)

  /** The pindexes of a plan, keyed by pindex name. */
  type PlanPIndexes = map<string, PlanPIndex>

  /** A pindex that a node has open. */
  datatype PIndex = PIndex(
    name: string,
    indexType: string,
    indexName: string,
    indexUUID: string,
    indexParams: string,
    sourceType: string,
    sourceName: string,
    sourceUUID: string,
    sourceParams: string,
    sourcePartitions: string,
    hibernationPath: string)

  datatype NodeDef = NodeDef(
    hostPort: string,
    uuid: string,
    implVersion: string,
    tags: seq<string>,
    container: string,
    weight: int,
    extras: string)

  /** The node holds the pindex as its primary: the priority is zero or below. */
  predicate IsPrimary(nodes: Nodes, node: string) {
    node in nodes && nodes[node].priority <= 0
  }

  predicate HasPrimary(nodes: Nodes) {
    exists n | n in nodes :: IsPrimary(nodes, n)
  }

  predicate AtMostOnePrimary(nodes: Nodes) {
    forall m, n | m in nodes && n in nodes && IsPrimary(nodes, m) && IsPrimary(nodes, n) :: m == n
  }

  /** The pindex meets its plan; UUID, hibernation path and nodes are not compared. */
  predicate PIndexMatchesPlan(p: PIndex, plan: PlanPIndex) {
    && p.name == plan.name
    && p.indexType == plan.indexType
    && p.indexName == plan.indexName
    && p.indexUUID == plan.indexUUID
    && p.indexParams == plan.indexParams
    && p.sourceType == plan.sourceType
    && p.sourceName == plan.sourceName
    && p.sourceUUID == plan.sourceUUID
    && p.sourceParams == plan.sourceParams
    && p.sourcePartitions == plan.sourcePartitions
  }

  /** Every entry is stored under its own name. */
  predicate KeyedByName(plans: PlanPIndexes) {
    forall k | k in plans :: plans[k].name == k
  }
}
