/** The node directory in metakv (cfg_metakv.go): one child entry per node, a split cache per
    process, and nodes that register and unregister themselves (manager.go, defs.go). */
module NodeRegistry {
  import opened Common
  import opened Plan
  import CfgMem
  import Text
  import Version

  const CAS_FORCE := CfgMem.CAS_FORCE

  datatype NodeDefs = NodeDefs(uuid: string, nodeDefs: map<string, NodeDef>, implVersion: string)

  type Children = map<string, NodeDefs>

  datatype Entry = Entry(cas: nat, data: Option<NodeDefs>)

  function NextCas(cas: nat): (next: nat) {
    (cas + 1) % (CAS_FORCE + 1)
  }

  // ---------------------------------------------------------------- composite read

  ghost predicate HeldBy(children: Children, c: string, k: string, def: NodeDef) {
    c in children && k in children[c].nodeDefs && children[c].nodeDefs[k] == def
  }

  /** `defs` weaves together the entries of all children. */
  ghost predicate IsUnion(children: Children, defs: map<string, NodeDef>) {
    && (forall c, k | c in children && k in children[c].nodeDefs :: k in defs)
    && (forall k | k in defs :: exists c :: HeldBy(children, c, k, defs[k]))
  }

  /** `v` is the version of a child and no child has a lower one. */
  ghost predicate IsLowest(children: Children, v: string) {
    && (exists c :: c in children && children[c].implVersion == v)
    && forall c | c in children :: Version.GTE(children[c].implVersion, v)
  }

  /** Every child is stored under the UUID of the one node it holds. */
  predicate Directory(children: Children) {
    forall k | k in children :: IsChild(k, children[k])
  }

  predicate IsChild(k: string, child: NodeDefs) {
    child.nodeDefs.Keys == {k} && child.nodeDefs[k].uuid == k
  }

  predicate Keyed(defs: map<string, NodeDef>) {
    forall k | k in defs :: defs[k].uuid == k
  }

  function Composite(children: Children): (defs: map<string, NodeDef>) {
    map k | k in children && k in children[k].nodeDefs :: children[k].nodeDefs[k]
  }

  /** In a directory the union of the children is one map, whatever order they are read in. */
  lemma UnionIsComposite(children: Children, defs: map<string, NodeDef>)
    requires Directory(children)
    ensures IsUnion(children, defs) <==> defs == Composite(children)
  {
    var composite := Composite(children);
    if IsUnion(children, defs) {
      forall k
        ensures k in defs <==> k in composite
        ensures k in defs ==> defs[k] == composite[k]
      {
        if k in defs {
          var c :| HeldBy(children, c, k, defs[k]);
          assert IsChild(c, children[c]);
        }
        if k in composite {
          assert IsChild(k, children[k]);
        }
      }
      assert defs == composite;
    }
    if defs == composite {
      forall c, k | c in children && k in children[c].nodeDefs
        ensures k in defs
      {
        assert IsChild(c, children[c]);
      }
      forall k | k in defs
        ensures exists c :: HeldBy(children, c, k, defs[k])
      {
        assert IsChild(k, children[k]);
        assert HeldBy(children, k, k, defs[k]);
      }
    }
  }

  // ---------------------------------------------------------------- split write

  predicate CasMismatch(entry: Entry, cas: nat) {
    cas != CAS_FORCE && cas != 0 && cas != entry.cas
  }

  function Cached(entry: Entry): (defs: map<string, NodeDef>) {
    if entry.data.Some? then entry.data.value.nodeDefs else map[]
  }

  predicate AddsOrUpdates(cur: map<string, NodeDef>, defs: map<string, NodeDef>) {
    exists k | k in defs :: k !in cur || cur[k] != defs[k]
  }

  /** Children are deleted only by a write that neither adds nor updates. */
  function Deleted(cur: map<string, NodeDef>, defs: map<string, NodeDef>): (r: set<string>) {
    if AddsOrUpdates(cur, defs) then {} else cur.Keys - defs.Keys
  }

  predicate MayWrite(nodeUUID: string, def: NodeDef) {
    nodeUUID == "" || nodeUUID == def.uuid
  }

  /** The children a write may touch: all of them when forced, else one that is the writer's own. */
  ghost predicate IsWritten(nodeUUID: string, nd: NodeDefs, cas: nat, written: set<string>) {
    if cas == CAS_FORCE then
      written == nd.nodeDefs.Keys
    else
      && (forall k | k in written :: k in nd.nodeDefs && MayWrite(nodeUUID, nd.nodeDefs[k]))
      && (forall j, k | j in written && k in written :: j == k)
      && (written == {} ==> forall k | k in nd.nodeDefs :: !MayWrite(nodeUUID, nd.nodeDefs[k]))
  }

  function ChildOf(nd: NodeDefs, k: string): (child: NodeDefs)
    requires k in nd.nodeDefs
  {
    NodeDefs(nd.uuid, map[k := nd.nodeDefs[k]], nd.implVersion)
  }

  /** What a write leaves under one key, given the children it writes and deletes. */
  predicate KeyAfter(before: Children, nd: NodeDefs, written: set<string>, deleted: set<string>, after: Children,
                     k: string)
  {
    && (k in after <==> (k in before || k in written) && k !in deleted)
    && (k in after && k in written ==> k in nd.nodeDefs && after[k] == ChildOf(nd, k))
    && (k in after && k !in written ==> k in before && after[k] == before[k])
  }

  ghost predicate AfterWrite(before: Children, nd: NodeDefs, written: set<string>, deleted: set<string>,
                             after: Children)
  {
    forall k :: KeyAfter(before, nd, written, deleted, after, k)
  }

  /** The children below the directory's path. */
  class MetaKv {
    var children: Children

    constructor ()
      ensures children == map[]
    {
      children := map[];
    }
  }

  /** One process's view of the directory's key. */
  class CfgMetaKv {
    const nodeUUID: string
    var lastSplitCAS: nat
    var entry: Entry

    constructor (nodeUUID: string)
      ensures this.nodeUUID == nodeUUID && lastSplitCAS == 0 && entry == Entry(0, None)
    {
      this.nodeUUID := nodeUUID;
      lastSplitCAS, entry := 0, Entry(0, None);
    }

    /** `checksum` stands for the checksum of the children's UUIDs, `clusterVersion` for what the
        version key holds. */
    method Get(kv: MetaKv, checksum: string, clusterVersion: string) returns (nd: NodeDefs, cas: nat)
      modifies this
      ensures IsUnion(kv.children, nd.nodeDefs)
      ensures kv.children != map[] && AllNumeric(kv.children) ==> IsLowest(kv.children, nd.implVersion)
      ensures kv.children == map[] ==> nd.implVersion == clusterVersion
      ensures nd.uuid == checksum && cas == NextCas(old(lastSplitCAS))
      ensures lastSplitCAS == cas && entry == Entry(cas, Some(nd))
    {
      var defs, implVersion := Weave(kv.children);
      if implVersion == "" {
        EmptyNotNumeric();
        implVersion := clusterVersion;
      }
      nd := NodeDefs(checksum, defs, implVersion);
      cas := (lastSplitCAS + 1) % (CAS_FORCE + 1);
      lastSplitCAS := cas;
      entry := Entry(cas, Some(nd));
    }

    /** The cached entry is left as it was. */
    method Set(kv: MetaKv, nd: NodeDefs, cas: nat) returns (ok: bool, ghost written: set<string>)
      modifies this`lastSplitCAS, kv
      ensures ok == !CasMismatch(entry, cas)
      ensures !ok ==> kv.children == old(kv.children) && lastSplitCAS == old(lastSplitCAS)
      ensures ok ==>
                && IsWritten(nodeUUID, nd, cas, written)
                && AfterWrite(old(kv.children), nd, written, Deleted(Cached(entry), nd.nodeDefs), kv.children)
                && lastSplitCAS == NextCas(old(lastSplitCAS))
    {
      written := {};
      if cas != CAS_FORCE && cas != 0 && cas != entry.cas {
        return false, {};
      }
      var cur := if entry.data.Some? then entry.data.value.nodeDefs else map[];
      written := WriteAndDelete(kv, nd, cas, cur);
      lastSplitCAS := (lastSplitCAS + 1) % (CAS_FORCE + 1);
      ok := true;
    }

    method WriteAndDelete(kv: MetaKv, nd: NodeDefs, cas: nat, cur: map<string, NodeDef>)
      returns (ghost written: set<string>)
      modifies kv
      ensures IsWritten(nodeUUID, nd, cas, written)
      ensures AfterWrite(old(kv.children), nd, written, Deleted(cur, nd.nodeDefs), kv.children)
    {
      var added, updated, removed := Analyze(cur, nd.nodeDefs);
      DeletedWhen(cur, nd.nodeDefs, added, updated, removed);
      written := WriteChildren(kv, nd, cas);
      ghost var before, afterWrites := old(kv.children), kv.children;
      if |added| <= 0 && |updated| <= 0 && |removed| > 0 {
        DeleteChildren(kv, removed);
      }
      DeleteStep(before, nd, written, afterWrites, Deleted(cur, nd.nodeDefs), kv.children);
    }

    method WriteChildren(kv: MetaKv, nd: NodeDefs, cas: nat) returns (ghost written: set<string>)
      modifies kv
      ensures IsWritten(nodeUUID, nd, cas, written) && written <= nd.nodeDefs.Keys
      ensures AfterWrite(old(kv.children), nd, written, {}, kv.children)
    {
      written := {};
      var todo := nd.nodeDefs.Keys;
      while todo != {}
        invariant todo <= nd.nodeDefs.Keys && written <= nd.nodeDefs.Keys
        invariant forall k | k in written :: cas == CAS_FORCE && k !in todo
        invariant forall k | k in nd.nodeDefs && k !in todo && k !in written ::
                  cas != CAS_FORCE && !MayWrite(nodeUUID, nd.nodeDefs[k])
        invariant AfterWrite(old(kv.children), nd, written, {}, kv.children)
        decreases |todo|
      {
        var k :| k in todo;
        todo := todo - {k};
        var v := nd.nodeDefs[k];
        if cas != CAS_FORCE && nodeUUID != "" && nodeUUID != v.uuid {
          continue;
        }
        WriteStep(old(kv.children), nd, written, kv.children, k);
        kv.children := kv.children[k := NodeDefs(nd.uuid, map[k := v], nd.implVersion)];
        written := written + {k};
        if cas != CAS_FORCE {
          break;
        }
      }
    }

    method DeleteChildren(kv: MetaKv, removed: set<string>)
      modifies kv
      ensures forall k :: k in kv.children <==> k in old(kv.children) && k !in removed
      ensures forall k | k in kv.children :: kv.children[k] == old(kv.children)[k]
    {
      var todo := removed;
      while todo != {}
        invariant todo <= removed
        invariant forall k :: k in kv.children <==> k in old(kv.children) && (k !in removed || k in todo)
        invariant forall k | k in kv.children :: kv.children[k] == old(kv.children)[k]
        decreases |todo|
      {
        var k :| k in todo;
        kv.children := kv.children - {k};
        todo := todo - {k};
      }
    }
  }

  lemma DeletedWhen(cur: map<string, NodeDef>, defs: map<string, NodeDef>,
                    added: set<string>, updated: set<string>, removed: set<string>)
    requires added == {} && updated == {} <==> !AddsOrUpdates(cur, defs)
    requires removed == cur.Keys - defs.Keys
    ensures Deleted(cur, defs) == if |added| <= 0 && |updated| <= 0 then removed else {}
    ensures |removed| <= 0 ==> removed == {}
  {
  }

  lemma WriteStep(before: Children, nd: NodeDefs, written: set<string>, after: Children, k: string)
    requires AfterWrite(before, nd, written, {}, after) && k in nd.nodeDefs
    ensures AfterWrite(before, nd, written + {k}, {}, after[k := ChildOf(nd, k)])
  {
    var written', after' := written + {k}, after[k := ChildOf(nd, k)];
    forall j
      ensures KeyAfter(before, nd, written', {}, after', j)
    {
      assert KeyAfter(before, nd, written, {}, after, j);
    }
  }

  lemma DeleteStep(before: Children, nd: NodeDefs, written: set<string>, mid: Children, deleted: set<string>,
                   after: Children)
    requires AfterWrite(before, nd, written, {}, mid)
    requires forall k :: k in after <==> k in mid && k !in deleted
    requires forall k | k in after :: after[k] == mid[k]
    ensures AfterWrite(before, nd, written, deleted, after)
  {
    forall k
      ensures KeyAfter(before, nd, written, deleted, after, k)
    {
      assert KeyAfter(before, nd, written, {}, mid, k);
    }
  }

  predicate AllNumeric(children: Children) {
    forall c | c in children :: Version.Numeric(children[c].implVersion)
  }

  /** What the loop over the children keeps: their entries, and their lowest version. */
  ghost predicate Woven(seen: Children, defs: map<string, NodeDef>, v: string) {
    && IsUnion(seen, defs)
    && (seen == map[] ==> v == "")
    && (seen != map[] && AllNumeric(seen) ==> IsLowest(seen, v))
  }

  method Weave(children: Children) returns (defs: map<string, NodeDef>, implVersion: string)
    ensures Woven(children, defs, implVersion)
  {
    defs, implVersion := map[], "";
    var todo := children.Keys;
    ghost var seen: Children := map[];
    while todo != {}
      invariant forall c :: c in children <==> c in seen || c in todo
      invariant forall c | c in seen :: c !in todo && seen[c] == children[c]
      invariant Woven(seen, defs, implVersion)
      decreases |todo|
    {
      var c :| c in todo;
      var child := children[c];
      WovenStep(seen, c, child, defs, implVersion);
      defs := defs + child.nodeDefs;
      var gte := Version.VersionGTE(child.implVersion, implVersion);
      if implVersion == "" || !gte {
        implVersion := child.implVersion;
      }
      seen := seen[c := child];
      todo := todo - {c};
    }
    assert seen.Keys == children.Keys;
    assert seen == children;
  }

  /** The children added, updated and removed with respect to the cached composite. */
  method Analyze(cur: map<string, NodeDef>, defs: map<string, NodeDef>)
    returns (added: set<string>, updated: set<string>, removed: set<string>)
    ensures added == defs.Keys - cur.Keys && removed == cur.Keys - defs.Keys
    ensures forall k :: k in updated <==> k in defs && k in cur && cur[k] != defs[k]
    ensures added == {} && updated == {} <==> !AddsOrUpdates(cur, defs)
  {
    added, updated, removed := {}, {}, {};
    var todo := defs.Keys;
    while todo != {}
      invariant todo <= defs.Keys
      invariant forall k :: k in added <==> k in defs && k !in todo && k !in cur
      invariant forall k :: k in updated <==> k in defs && k !in todo && k in cur && cur[k] != defs[k]
      decreases |todo|
    {
      var k :| k in todo;
      if k !in cur {
        added := added + {k};
      } else if cur[k] != defs[k] {
        updated := updated + {k};
      }
      todo := todo - {k};
    }
    todo := cur.Keys;
    while todo != {}
      invariant todo <= cur.Keys
      invariant forall k :: k in removed <==> k in cur && k !in todo && k !in defs
      decreases |todo|
    {
      var k :| k in todo;
      if k !in defs {
        removed := removed + {k};
      }
      todo := todo - {k};
    }
    if added != {} {
      var k :| k in added;
    }
    if updated != {} {
      var k :| k in updated;
    }
  }

  lemma UnionStep(seen: Children, c: string, child: NodeDefs, defs: map<string, NodeDef>)
    requires c !in seen && IsUnion(seen, defs)
    ensures IsUnion(seen[c := child], defs + child.nodeDefs)
  {
    var seen', defs' := seen[c := child], defs + child.nodeDefs;
    forall k | k in defs'
      ensures exists c' :: HeldBy(seen', c', k, defs'[k])
    {
      if k in child.nodeDefs {
        assert HeldBy(seen', c, k, defs'[k]);
      } else {
        var c' :| HeldBy(seen, c', k, defs[k]);
        assert HeldBy(seen', c', k, defs'[k]);
      }
    }
  }

  lemma EmptyNotNumeric()
    ensures !Version.Numeric("")
  {
    assert Text.Split("", '.')[0] == "";
  }

  function Lower(child: NodeDefs, v: string): (r: string) {
    if v == "" || !Version.GTE(child.implVersion, v) then child.implVersion else v
  }

  lemma WovenStep(seen: Children, c: string, child: NodeDefs, defs: map<string, NodeDef>, v: string)
    requires c !in seen && Woven(seen, defs, v)
    ensures Woven(seen[c := child], defs + child.nodeDefs, Lower(child, v))
  {
    UnionStep(seen, c, child, defs);
    var seen' := seen[c := child];
    if AllNumeric(seen') {
      assert c in seen' && seen'[c] == child;
      assert AllNumeric(seen) by {
        assert forall d | d in seen :: seen'[d] == seen[d];
      }
      if seen == map[] {
        Version.ReflexiveIffNumeric(child.implVersion);
      } else {
        LowestStep(seen, c, child, v);
      }
    }
  }

  lemma LowestStep(seen: Children, c: string, child: NodeDefs, v: string)
    requires c !in seen && Version.Numeric(child.implVersion) && AllNumeric(seen) && IsLowest(seen, v)
    ensures IsLowest(seen[c := child], Lower(child, v))
  {
    var seen', v' := seen[c := child], Lower(child, v);
    var d :| d in seen && seen[d].implVersion == v;
    EmptyNotNumeric();
    Version.ReflexiveIffNumeric(child.implVersion);
    Version.TotalOnNumeric(child.implVersion, v);
    assert seen'[d].implVersion == v && seen'[c].implVersion == child.implVersion;
    forall d | d in seen'
      ensures Version.GTE(seen'[d].implVersion, v')
    {
      if d != c && v' != v {
        Version.Transitive(seen[d].implVersion, v, v');
      }
    }
  }
}
