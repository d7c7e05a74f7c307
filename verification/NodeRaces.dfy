/** Nodes racing to register and unregister themselves, each through its own possibly stale
    split cache (manager.go SaveNodeDef and RemoveNodeDef over NodeRegistry). */
module NodeRaces {
  import opened Common
  import opened Plan
  import opened NodeRegistry

  // ---------------------------------------------------------------- one unforced write

  /** The children after process `u` writes `nd`, when `entry` is what it has cached. */
  function CommitOf(children: Children, u: string, nd: NodeDefs, entry: Entry): (after: Children) {
    (if u in nd.nodeDefs then children[u := ChildOf(nd, u)] else children) - Deleted(Cached(entry), nd.nodeDefs)
  }

  /** Every outcome that CfgMetaKv.Set allows to an unforced write of node `u` is CommitOf. */
  lemma SetIsCommit(children: Children, u: string, nd: NodeDefs, entry: Entry, cas: nat, written: set<string>,
                    after: Children)
    requires u != "" && Keyed(nd.nodeDefs) && cas != CAS_FORCE
    requires IsWritten(u, nd, cas, written)
    requires AfterWrite(children, nd, written, Deleted(Cached(entry), nd.nodeDefs), after)
    ensures after == CommitOf(children, u, nd, entry)
  {
    var commit := CommitOf(children, u, nd, entry);
    assert forall k :: k in written <==> k == u && u in nd.nodeDefs;
    forall k
      ensures k in after <==> k in commit
      ensures k in after ==> after[k] == commit[k]
    {
      assert KeyAfter(children, nd, written, Deleted(Cached(entry), nd.nodeDefs), after, k);
    }
    assert after == commit;
  }

  predicate SameAt(a: map<string, NodeDef>, b: map<string, NodeDef>, k: string) {
    (k in a <==> k in b) && (k in a ==> a[k] == b[k])
  }

  /** A composite that was edited at `u` alone. */
  ghost predicate EditedAt(u: string, defs: map<string, NodeDef>, cur: map<string, NodeDef>) {
    && (u in defs || u in cur)
    && forall k | k != u :: SameAt(defs, cur, k)
  }

  /** Written over the very composite it was computed from, an edit of one's own entry changes
      that child alone, however stale the composite is. */
  lemma OwnChildOnly(children: Children, u: string, nd: NodeDefs, entry: Entry)
    requires EditedAt(u, nd.nodeDefs, Cached(entry))
    ensures CommitOf(children, u, nd, entry) ==
            if u in nd.nodeDefs then children[u := ChildOf(nd, u)] else children - {u}
  {
    var cur := Cached(entry);
    assert forall k | k in nd.nodeDefs && k != u :: SameAt(nd.nodeDefs, cur, k);
    assert forall k | k in cur && k != u :: SameAt(nd.nodeDefs, cur, k);
    if u in nd.nodeDefs {
      assert cur.Keys - nd.nodeDefs.Keys == {};
    } else {
      assert !AddsOrUpdates(cur, nd.nodeDefs);
      assert cur.Keys - nd.nodeDefs.Keys == {u};
    }
  }

  method CfgGetNodeDefs(c: CfgMetaKv, kv: MetaKv, version: string) returns (nd: NodeDefs, cas: nat)
    requires Directory(kv.children)
    modifies c
    ensures nd.nodeDefs == Composite(kv.children)
    ensures cas == NextCas(old(c.lastSplitCAS)) && c.lastSplitCAS == cas && c.entry == Entry(cas, Some(nd))
  {
    nd, cas := c.Get(kv, "", version);
    UnionIsComposite(kv.children, nd.nodeDefs);
  }

  /** A node's write of an edit of its own entry, with the number it read. */
  method CfgSetNodeDefs(c: CfgMetaKv, kv: MetaKv, nd: NodeDefs, cas: nat) returns (ok: bool)
    requires c.nodeUUID != "" && cas != CAS_FORCE && Keyed(nd.nodeDefs)
    requires cas == c.entry.cas ==> EditedAt(c.nodeUUID, nd.nodeDefs, Cached(c.entry))
    requires cas != 0
    modifies c`lastSplitCAS, kv
    ensures ok == (cas == c.entry.cas)
    ensures !ok ==> kv.children == old(kv.children) && c.lastSplitCAS == old(c.lastSplitCAS)
    ensures ok ==>
              kv.children ==
              if c.nodeUUID in nd.nodeDefs then old(kv.children)[c.nodeUUID := ChildOf(nd, c.nodeUUID)]
              else old(kv.children) - {c.nodeUUID}
  {
    ghost var before := kv.children;
    ghost var written;
    ok, written := c.Set(kv, nd, cas);
    if ok {
      SetIsCommit(before, c.nodeUUID, nd, c.entry, cas, written, kv.children);
      OwnChildOnly(before, c.nodeUUID, nd, c.entry);
    }
  }

  /** SaveNodeDef with no other node writing. */
  method SaveNodeDef(c: CfgMetaKv, kv: MetaKv, def: NodeDef, force: bool, uuid: string, version: string)
    requires Directory(kv.children) && c.nodeUUID == def.uuid != "" && c.lastSplitCAS + 1 < CAS_FORCE
    modifies c, kv
    ensures var defs := Composite(old(kv.children));
            kv.children ==
            if def.uuid in defs && !force && defs[def.uuid] == def then old(kv.children)
            else old(kv.children)[def.uuid := NodeDefs(uuid, map[def.uuid := def], version)]
  {
    var done := false;
    while !done
      invariant !done ==> kv.children == old(kv.children) && c.lastSplitCAS == old(c.lastSplitCAS)
      invariant done ==> kv.children == old(kv.children)[def.uuid := NodeDefs(uuid, map[def.uuid := def], version)]
      invariant done ==> var defs := Composite(old(kv.children)); !(def.uuid in defs && !force && defs[def.uuid] == def)
      decreases !done
    {
      var nodeDefs, cas := CfgGetNodeDefs(c, kv, version);
      var defs := nodeDefs.nodeDefs;
      if def.uuid in defs && !force && defs[def.uuid] == def {
        return;
      }
      SaveEdits(kv.children, def);
      done := CfgSetNodeDefs(c, kv, NodeDefs(uuid, defs[def.uuid := def], version), cas);
    }
  }

  /** RemoveNodeDef with no other node writing. */
  method RemoveNodeDef(c: CfgMetaKv, kv: MetaKv, uuid: string, version: string)
    requires Directory(kv.children) && c.nodeUUID != "" && c.lastSplitCAS + 1 < CAS_FORCE
    modifies c, kv
    ensures kv.children == old(kv.children) - {c.nodeUUID}
  {
    var done := false;
    while !done
      invariant !done ==> kv.children == old(kv.children) && c.lastSplitCAS == old(c.lastSplitCAS)
      invariant done ==> kv.children == old(kv.children) - {c.nodeUUID}
      decreases !done
    {
      var nodeDefs, cas := CfgGetNodeDefs(c, kv, version);
      var defs := nodeDefs.nodeDefs;
      RemoveEdits(kv.children, c.nodeUUID);
      if c.nodeUUID !in defs {
        assert kv.children == kv.children - {c.nodeUUID};
        return;
      }
      done := CfgSetNodeDefs(c, kv, NodeDefs(uuid, defs - {c.nodeUUID}, version), cas);
    }
  }

  lemma SaveEdits(children: Children, def: NodeDef)
    requires Directory(children)
    ensures var defs := Composite(children); var edited := defs[def.uuid := def];
            EditedAt(def.uuid, edited, defs) && Keyed(edited)
  {
    CompositeKeyed(children);
  }

  lemma RemoveEdits(children: Children, u: string)
    requires Directory(children)
    ensures var defs := Composite(children); var edited := defs - {u};
            (u in defs <==> u in children) && (u in defs ==> EditedAt(u, edited, defs)) && Keyed(edited)
  {
    CompositeKeyed(children);
    var defs := Composite(children);
    var edited := defs - {u};
    assert forall k | k != u :: SameAt(edited, defs, k);
  }

  // ---------------------------------------------------------------- all nodes

  datatype Pending = Idle | Writing(nd: NodeDefs, cas: nat)

  datatype Proc = Proc(lastSplitCAS: nat, entry: Entry, pending: Pending)

  datatype State = State(children: Children, procs: map<string, Proc>)

  /** `Save` and `Remove` are the reading halves of SaveNodeDef and RemoveNodeDef, `Commit` the
      writing half; after a CAS mismatch a node starts over with a new `Save` or `Remove`.
      `Refresh` is any other read of the directory by the process, `OtherKey` a use of another
      split key. The remaining arguments are what a node takes from elsewhere: new UUIDs, the
      version key, the checksum of a composite. */
  datatype Action =
    | Save(u: string, def: NodeDef, force: bool, uuid: string, version: string)
    | Remove(u: string, uuid: string, version: string)
    | Commit(u: string)
    | Refresh(u: string)
    | OtherKey(u: string)

  function Read(s: State, p: Proc): (p': Proc) {
    var cas := NextCas(p.lastSplitCAS);
    Proc(cas, Entry(cas, Some(NodeDefs("", Composite(s.children), ""))), p.pending)
  }

  function SaveOf(s: State, p: Proc, a: Action): (p': Proc)
    requires a.Save?
  {
    var p1, defs := Read(s, p), Composite(s.children);
    var def := a.def.(uuid := a.u);
    if a.u in defs && !a.force && defs[a.u] == def then p1
    else p1.(pending := Writing(NodeDefs(a.uuid, defs[a.u := def], a.version), p1.entry.cas))
  }

  function RemoveOf(s: State, p: Proc, a: Action): (p': Proc)
    requires a.Remove?
  {
    var p1, defs := Read(s, p), Composite(s.children);
    if a.u !in defs then p1
    else p1.(pending := Writing(NodeDefs(a.uuid, defs - {a.u}, a.version), p1.entry.cas))
  }

  /** The node's own process record and, when its write goes through, the children. */
  function Next(s: State, a: Action): (s': State) {
    if a.u !in s.procs then s else
    var p := s.procs[a.u];
    match a
    case Save(u, _, _, _, _) => if p.pending.Idle? then s.(procs := s.procs[u := SaveOf(s, p, a)]) else s
    case Remove(u, _, _) => if p.pending.Idle? then s.(procs := s.procs[u := RemoveOf(s, p, a)]) else s
    case Refresh(u) => s.(procs := s.procs[u := Read(s, p)])
    case OtherKey(u) => s.(procs := s.procs[u := p.(lastSplitCAS := NextCas(p.lastSplitCAS))])
    case Commit(u) =>
      if p.pending.Idle? then s
      else if CasMismatch(p.entry, p.pending.cas) then s.(procs := s.procs[u := p.(pending := Idle)])
      else State(CommitOf(s.children, u, p.pending.nd, p.entry),
                 s.procs[u := p.(pending := Idle, lastSplitCAS := NextCas(p.lastSplitCAS))])
  }

  function Exec(s: State, actions: seq<Action>): (s': State)
    decreases |actions|
  {
    if actions == [] then s else Exec(Next(s, actions[0]), actions[1..])
  }

  ghost predicate ProcOk(u: string, p: Proc) {
    && p.entry.cas <= p.lastSplitCAS
    && (p.pending.Writing? ==>
          && 0 < p.pending.cas <= p.lastSplitCAS
          && Keyed(p.pending.nd.nodeDefs)
          && (p.pending.cas == p.entry.cas ==> EditedAt(u, p.pending.nd.nodeDefs, Cached(p.entry))))
  }

  /** `room` more steps keep every process's CAS counter below the force number. */
  ghost predicate Inv(s: State, room: nat) {
    && Directory(s.children)
    && forall u | u in s.procs :: ProcOk(u, s.procs[u]) && s.procs[u].lastSplitCAS + room < CAS_FORCE
  }

  lemma CompositeKeyed(children: Children)
    requires Directory(children)
    ensures Keyed(Composite(children))
    ensures forall u :: u in children <==> u in Composite(children)
  {
    forall u | u in children
      ensures u in Composite(children) && Composite(children)[u].uuid == u
    {
      assert IsChild(u, children[u]);
    }
  }

  lemma ReadOk(s: State, u: string, p: Proc)
    requires ProcOk(u, p) && p.lastSplitCAS + 1 < CAS_FORCE
    ensures ProcOk(u, Read(s, p)) && Read(s, p).lastSplitCAS == p.lastSplitCAS + 1
  {
  }

  lemma SaveOk(s: State, p: Proc, a: Action)
    requires Directory(s.children) && a.Save? && p.pending.Idle? && ProcOk(a.u, p) && p.lastSplitCAS + 1 < CAS_FORCE
    ensures ProcOk(a.u, SaveOf(s, p, a)) && SaveOf(s, p, a).lastSplitCAS == p.lastSplitCAS + 1
  {
    SaveEdits(s.children, a.def.(uuid := a.u));
  }

  lemma RemoveOk(s: State, p: Proc, a: Action)
    requires Directory(s.children) && a.Remove? && p.pending.Idle? && ProcOk(a.u, p) && p.lastSplitCAS + 1 < CAS_FORCE
    ensures ProcOk(a.u, RemoveOf(s, p, a)) && RemoveOf(s, p, a).lastSplitCAS == p.lastSplitCAS + 1
  {
    RemoveEdits(s.children, a.u);
  }

  /** A process that has written, or failed to, or used another key. */
  lemma BumpOk(u: string, p: Proc, pending: Pending)
    requires ProcOk(u, p) && p.lastSplitCAS + 1 < CAS_FORCE && (pending == p.pending || pending.Idle?)
    ensures ProcOk(u, p.(pending := pending))
    ensures ProcOk(u, p.(pending := pending, lastSplitCAS := NextCas(p.lastSplitCAS)))
    ensures NextCas(p.lastSplitCAS) == p.lastSplitCAS + 1
  {
  }

  lemma InvProc(s: State, a: Action, room: nat)
    requires Inv(s, room) && room > 0 && a.u in s.procs
    ensures ProcOk(a.u, Next(s, a).procs[a.u])
    ensures Next(s, a).procs[a.u].lastSplitCAS <= s.procs[a.u].lastSplitCAS + 1
  {
    var p := s.procs[a.u];
    assert ProcOk(a.u, p) && p.lastSplitCAS + 1 < CAS_FORCE;
    match a
    case Save(_, _, _, _, _) => if p.pending.Idle? { SaveOk(s, p, a); }
    case Remove(_, _, _) => if p.pending.Idle? { RemoveOk(s, p, a); }
    case Refresh(u) => ReadOk(s, u, p);
    case OtherKey(u) => BumpOk(u, p, p.pending);
    case Commit(u) => BumpOk(u, p, Idle);
  }

  /** One process may change, and its counter may go up by one. */
  lemma ProcsInv(s: State, room: nat, children: Children, u: string, p: Proc)
    requires Inv(s, room) && room > 0 && u in s.procs && Directory(children)
    requires ProcOk(u, p) && p.lastSplitCAS <= s.procs[u].lastSplitCAS + 1
    ensures Inv(State(children, s.procs[u := p]), room - 1)
  {
    var procs := s.procs[u := p];
    forall v | v in procs
      ensures ProcOk(v, procs[v]) && procs[v].lastSplitCAS + (room - 1) < CAS_FORCE
    {
      assert ProcOk(v, s.procs[v]) && s.procs[v].lastSplitCAS + room < CAS_FORCE;
    }
  }

  lemma LessRoom(s: State, room: nat)
    requires Inv(s, room) && room > 0
    ensures Inv(s, room - 1)
  {
  }

  /** What a step does to the children: nothing, or one write by the acting node. */
  lemma ChildrenAfter(s: State, a: Action, room: nat)
    requires Inv(s, room) && room > 0
    ensures forall k | k != a.u ::
              (k in Next(s, a).children <==> k in s.children)
                && (k in s.children ==> Next(s, a).children[k] == s.children[k])
    ensures Directory(Next(s, a).children)
  {
    if && a.Commit? && a.u in s.procs && s.procs[a.u].pending.Writing?
       && !CasMismatch(s.procs[a.u].entry, s.procs[a.u].pending.cas) {
      var p := s.procs[a.u];
      assert ProcOk(a.u, p);
      OwnChildOnly(s.children, a.u, p.pending.nd, p.entry);
      var after := Next(s, a).children;
      forall k | k in after
        ensures IsChild(k, after[k])
      {
        assert k != a.u ==> IsChild(k, s.children[k]);
      }
    }
  }

  lemma InvStep(s: State, a: Action, room: nat)
    requires Inv(s, room) && room > 0
    ensures Inv(Next(s, a), room - 1)
  {
    if a.u in s.procs {
      var s' := Next(s, a);
      ChildrenAfter(s, a, room);
      InvProc(s, a, room);
      ProcsInv(s, room, s'.children, a.u, s'.procs[a.u]);
      assert s'.procs == s.procs[a.u := s'.procs[a.u]];
    } else {
      LessRoom(s, room);
    }
  }

  /** Over every run: the directory stays one child per node, keyed by its UUID, so every reading
      of it is the union of the children. */
  lemma {:induction false} ReadsAreUnions(s: State, actions: seq<Action>, defs: map<string, NodeDef>)
    requires Inv(s, |actions|)
    ensures Directory(Exec(s, actions).children)
    ensures IsUnion(Exec(s, actions).children, defs) <==> defs == Composite(Exec(s, actions).children)
    decreases |actions|
  {
    if actions == [] {
      UnionIsComposite(s.children, defs);
    } else {
      InvStep(s, actions[0], |actions|);
      ReadsAreUnions(Next(s, actions[0]), actions[1..], defs);
    }
  }

  // ---------------------------------------------------------------- no interference

  predicate SameWrite(u: string, a: Pending, b: Pending) {
    match (a, b)
    case (Idle, Idle) => true
    case (Writing(nd1, cas1), Writing(nd2, cas2)) =>
      cas1 == cas2 && nd1.uuid == nd2.uuid && nd1.implVersion == nd2.implVersion
        && SameAt(nd1.nodeDefs, nd2.nodeDefs, u)
    case _ => false
  }

  /** Node `u` has the same child entry in both states, and its process is at the same point. The
      entries of the other nodes, in the store and in the caches, may be anything. */
  predicate SameFor(u: string, s: State, t: State) {
    && (u in s.children <==> u in t.children) && (u in s.children ==> s.children[u] == t.children[u])
    && (u in s.procs <==> u in t.procs)
    && (u in s.procs ==>
          && s.procs[u].lastSplitCAS == t.procs[u].lastSplitCAS
          && s.procs[u].entry.cas == t.procs[u].entry.cas
          && SameWrite(u, s.procs[u].pending, t.procs[u].pending))
  }

  function OwnSteps(u: string, actions: seq<Action>): (own: seq<Action>) {
    if actions == [] then []
    else (if actions[0].u == u then [actions[0]] else []) + OwnSteps(u, actions[1..])
  }

  lemma OtherStep(u: string, s: State, a: Action, room: nat)
    requires Inv(s, room) && room > 0 && a.u != u
    ensures SameFor(u, Next(s, a), s)
  {
    ChildrenAfter(s, a, room);
  }

  lemma OwnCommit(u: string, s: State, t: State, roomS: nat, roomT: nat)
    requires Inv(s, roomS) && roomS > 0 && Inv(t, roomT) && roomT > 0 && SameFor(u, s, t)
    ensures SameFor(u, Next(s, Commit(u)), Next(t, Commit(u)))
  {
    if u in s.procs && s.procs[u].pending.Writing? && !CasMismatch(s.procs[u].entry, s.procs[u].pending.cas) {
      var p, q := s.procs[u], t.procs[u];
      assert ProcOk(u, p) && ProcOk(u, q);
      OwnChildOnly(s.children, u, p.pending.nd, p.entry);
      OwnChildOnly(t.children, u, q.pending.nd, q.entry);
      assert u in p.pending.nd.nodeDefs ==> ChildOf(p.pending.nd, u) == ChildOf(q.pending.nd, u);
    }
  }

  lemma OwnStep(u: string, s: State, t: State, a: Action, roomS: nat, roomT: nat)
    requires Inv(s, roomS) && roomS > 0 && Inv(t, roomT) && roomT > 0 && SameFor(u, s, t) && a.u == u
    ensures SameFor(u, Next(s, a), Next(t, a))
  {
    assert SameAt(Composite(s.children), Composite(t.children), u);
    match a
    case Commit(_) => OwnCommit(u, s, t, roomS, roomT);
    case Save(_, _, _, _, _) =>
    case Remove(_, _, _) =>
    case Refresh(_) =>
    case OtherKey(_) =>
  }

  /** Whatever the other nodes do and in whatever order, a node's own steps alone decide its child
      entry: two runs in which it takes the same steps end alike for it. In particular no step of
      another node overwrites, deletes or resurrects its entry. */
  lemma {:induction false} OnlyOwnStepsCount(u: string, s: State, xs: seq<Action>, t: State, ys: seq<Action>)
    requires Inv(s, |xs|) && Inv(t, |ys|) && SameFor(u, s, t)
    requires OwnSteps(u, xs) == OwnSteps(u, ys)
    ensures SameFor(u, Exec(s, xs), Exec(t, ys))
    decreases |xs| + |ys|
  {
    if xs != [] && xs[0].u != u {
      InvStep(s, xs[0], |xs|);
      OtherStep(u, s, xs[0], |xs|);
      assert OwnSteps(u, xs) == OwnSteps(u, xs[1..]);
      OnlyOwnStepsCount(u, Next(s, xs[0]), xs[1..], t, ys);
    } else if ys != [] && ys[0].u != u {
      InvStep(t, ys[0], |ys|);
      OtherStep(u, t, ys[0], |ys|);
      assert OwnSteps(u, ys) == OwnSteps(u, ys[1..]);
      OnlyOwnStepsCount(u, s, xs, Next(t, ys[0]), ys[1..]);
    } else if xs != [] {
      var own, other := OwnSteps(u, xs), OwnSteps(u, ys);
      assert own == [xs[0]] + OwnSteps(u, xs[1..]) && own[0] == xs[0] && own[1..] == OwnSteps(u, xs[1..]);
      assert ys != [];
      assert other == [ys[0]] + OwnSteps(u, ys[1..]) && other[0] == ys[0] && other[1..] == OwnSteps(u, ys[1..]);
      InvStep(s, xs[0], |xs|);
      InvStep(t, ys[0], |ys|);
      OwnStep(u, s, t, xs[0], |xs|, |ys|);
      OnlyOwnStepsCount(u, Next(s, xs[0]), xs[1..], Next(t, ys[0]), ys[1..]);
    }
  }

  lemma {:induction false} OwnStepsAlone(u: string, actions: seq<Action>)
    ensures OwnSteps(u, OwnSteps(u, actions)) == OwnSteps(u, actions)
    ensures |OwnSteps(u, actions)| <= |actions|
  {
    if actions != [] {
      OwnStepsAlone(u, actions[1..]);
      if actions[0].u == u {
        var rest := OwnSteps(u, actions[1..]);
        var own := [actions[0]] + rest;
        assert own[0] == actions[0] && own[1..] == rest;
      } else {
        assert [] + OwnSteps(u, actions[1..]) == OwnSteps(u, actions[1..]);
      }
    }
  }

  /** A node ends a race as if it had been alone. */
  lemma AsIfAlone(u: string, s: State, actions: seq<Action>)
    requires Inv(s, |actions|)
    ensures SameFor(u, Exec(s, actions), Exec(s, OwnSteps(u, actions)))
  {
    OwnStepsAlone(u, actions);
    OnlyOwnStepsCount(u, s, actions, s, OwnSteps(u, actions));
  }

  /** A node whose own steps were one registration is in the directory with what it registered,
      whatever the others did. */
  lemma Registered(u: string, s: State, actions: seq<Action>, save: Action)
    requires Inv(s, |actions|) && u in s.procs && s.procs[u].pending.Idle?
    requires save.Save? && OwnSteps(u, actions) == [save, Commit(u)]
    ensures var defs := Composite(Exec(s, actions).children);
            u in defs && defs[u] == save.def.(uuid := u)
  {
    AsIfAlone(u, s, actions);
    OwnStepsAlone(u, actions);
    OwnerOf(u, actions);
    assert OwnSteps(u, actions)[0] == save;
    SaveThenCommit(s, save, |actions|);
    ExecTwo(s, save, Commit(u));
  }

  lemma SaveThenCommit(s: State, save: Action, room: nat)
    requires Inv(s, room) && room > 1 && save.Save? && save.u in s.procs && s.procs[save.u].pending.Idle?
    ensures var defs := Composite(Next(Next(s, save), Commit(save.u)).children);
            save.u in defs && defs[save.u] == save.def.(uuid := save.u)
  {
    var u, s1 := save.u, Next(s, save);
    InvStep(s, save, room);
    var p := s1.procs[u];
    assert ProcOk(u, p);
    if p.pending.Writing? {
      OwnChildOnly(s1.children, u, p.pending.nd, p.entry);
    }
  }

  /** A node whose own steps were one removal is not in the directory, whatever the others did. */
  lemma Unregistered(u: string, s: State, actions: seq<Action>, remove: Action)
    requires Inv(s, |actions|) && u in s.procs && s.procs[u].pending.Idle?
    requires remove.Remove? && OwnSteps(u, actions) == [remove, Commit(u)]
    ensures u !in Exec(s, actions).children
  {
    AsIfAlone(u, s, actions);
    OwnStepsAlone(u, actions);
    OwnerOf(u, actions);
    assert OwnSteps(u, actions)[0] == remove;
    RemoveThenCommit(s, remove, |actions|);
    ExecTwo(s, remove, Commit(u));
  }

  lemma RemoveThenCommit(s: State, remove: Action, room: nat)
    requires Inv(s, room) && room > 1 && remove.Remove? && remove.u in s.procs && s.procs[remove.u].pending.Idle?
    ensures remove.u !in Next(Next(s, remove), Commit(remove.u)).children
  {
    var u, s1 := remove.u, Next(s, remove);
    CompositeKeyed(s.children);
    InvStep(s, remove, room);
    var p := s1.procs[u];
    assert ProcOk(u, p);
    if p.pending.Writing? {
      OwnChildOnly(s1.children, u, p.pending.nd, p.entry);
    }
  }

  lemma ExecTwo(s: State, a: Action, b: Action)
    ensures Exec(s, [a, b]) == Next(Next(s, a), b)
  {
    var s1 := Next(s, a);
    assert [a, b][1..] == [b] && [b][1..] == [];
    assert Exec(s1, [b]) == Exec(Next(s1, b), []);
  }

  lemma {:induction false} OwnerOf(u: string, actions: seq<Action>)
    ensures forall a | a in OwnSteps(u, actions) :: a.u == u
  {
    if actions != [] {
      OwnerOf(u, actions[1..]);
      var rest := OwnSteps(u, actions[1..]);
      assert forall a | a in [actions[0]] + rest :: a == actions[0] || a in rest;
    }
  }

  // ---------------------------------------------------------------- forced writes

  /** The children after a forced write of `nd`, when `entry` is what the process has cached. */
  function ForcedOf(children: Children, nd: NodeDefs, entry: Entry): (after: Children) {
    children + (map k | k in nd.nodeDefs :: ChildOf(nd, k)) - Deleted(Cached(entry), nd.nodeDefs)
  }

  /** Every outcome that CfgMetaKv.Set allows to a forced write is ForcedOf. */
  lemma SetIsForced(children: Children, u: string, nd: NodeDefs, entry: Entry, written: set<string>, after: Children)
    requires IsWritten(u, nd, CAS_FORCE, written)
    requires AfterWrite(children, nd, written, Deleted(Cached(entry), nd.nodeDefs), after)
    ensures after == ForcedOf(children, nd, entry)
  {
    var forced := ForcedOf(children, nd, entry);
    forall k
      ensures k in after <==> k in forced
      ensures k in after ==> after[k] == forced[k]
    {
      assert KeyAfter(children, nd, written, Deleted(Cached(entry), nd.nodeDefs), after, k);
    }
    assert after == forced;
  }

  /** What the forced write says about node k is still so. */
  predicate UpToDate(children: Children, nd: NodeDefs, entry: Entry, k: string) {
    && (k in nd.nodeDefs ==> k in Composite(children) && Composite(children)[k] == nd.nodeDefs[k])
    && (k in Deleted(Cached(entry), nd.nodeDefs) ==> k !in Composite(children))
  }

  lemma ForcedAt(children: Children, nd: NodeDefs, entry: Entry, k: string)
    requires Directory(children) && Keyed(nd.nodeDefs)
    ensures SameAt(Composite(ForcedOf(children, nd, entry)), Composite(children), k) <==>
            UpToDate(children, nd, entry, k)
  {
    if k in children {
      assert IsChild(k, children[k]);
    }
  }

  /** The directory has the same entries for all nodes but x. */
  ghost predicate OthersKept(children: Children, after: Children, x: string) {
    forall k | k != x :: SameAt(Composite(after), Composite(children), k)
  }

  ghost predicate OthersUpToDate(children: Children, nd: NodeDefs, entry: Entry, x: string) {
    forall k | k != x :: UpToDate(children, nd, entry, k)
  }

  /** A forced removal of node x leaves all other nodes as they are, if and only if what it writes
      about each of them is still so. */
  lemma ForcedKeepsOthersIff(children: Children, x: string, nd: NodeDefs, entry: Entry)
    requires Directory(children) && Keyed(nd.nodeDefs)
    ensures OthersKept(children, ForcedOf(children, nd, entry), x) <==> OthersUpToDate(children, nd, entry, x)
  {
    forall k {
      ForcedAt(children, nd, entry, k);
    }
  }

  /** In particular, over the composite it was computed from: if and only if every other node of that
      composite is still there with the same definition. */
  lemma ForcedOverOwnReadIff(children: Children, x: string, nd: NodeDefs, entry: Entry)
    requires Directory(children) && Keyed(nd.nodeDefs) && EditedAt(x, nd.nodeDefs, Cached(entry))
    ensures OthersKept(children, ForcedOf(children, nd, entry), x) <==>
            forall k | k != x && k in Cached(entry) :: k in children && children[k].nodeDefs[k] == Cached(entry)[k]
  {
    ForcedKeepsOthersIff(children, x, nd, entry);
    var cur := Cached(entry);
    forall k | k != x
      ensures UpToDate(children, nd, entry, k) <==>
              (k in cur ==> k in children && children[k].nodeDefs[k] == cur[k])
    {
      assert SameAt(nd.nodeDefs, cur, k);
      if k in children {
        assert IsChild(k, children[k]);
      }
    }
  }

  /** The nodes' own steps, and forced removals of any node by any process: the reading half and the
      writing half. */
  datatype Step =
    | Own(a: Action)
    | ForceRead(u: string, x: string, uuid: string, version: string)
    | ForceWrite(u: string)

  /** `forced` is what each process is about to force, and for which node. */
  datatype Forcing = Forcing(x: string, nd: NodeDefs)

  datatype Cluster = Cluster(base: State, forced: map<string, Forcing>)

  function NextStep(s: Cluster, step: Step): (s': Cluster) {
    match step
    case Own(a) => s.(base := Next(s.base, a))
    case ForceRead(u, x, uuid, version) =>
      if u !in s.base.procs || u in s.forced then s
      else
        var defs := Composite(s.base.children);
        Cluster(s.base.(procs := s.base.procs[u := Read(s.base, s.base.procs[u])]),
                if x in defs then s.forced[u := Forcing(x, NodeDefs(uuid, defs - {x}, version))] else s.forced)
    case ForceWrite(u) =>
      if u !in s.base.procs || u !in s.forced then s
      else
        var p := s.base.procs[u];
        Cluster(State(ForcedOf(s.base.children, s.forced[u].nd, p.entry),
                      s.base.procs[u := p.(lastSplitCAS := NextCas(p.lastSplitCAS))]),
                s.forced - {u})
  }

  function ExecSteps(s: Cluster, steps: seq<Step>): (s': Cluster)
    decreases |steps|
  {
    if steps == [] then s else ExecSteps(NextStep(s, steps[0]), steps[1..])
  }

  ghost predicate ClusterInv(s: Cluster, room: nat) {
    Inv(s.base, room) && forall u | u in s.forced :: Keyed(s.forced[u].nd.nodeDefs)
  }

  lemma ForcedIsDirectory(children: Children, nd: NodeDefs, entry: Entry)
    requires Directory(children) && Keyed(nd.nodeDefs)
    ensures Directory(ForcedOf(children, nd, entry))
  {
    var after := ForcedOf(children, nd, entry);
    forall k | k in after
      ensures IsChild(k, after[k])
    {
      assert k !in nd.nodeDefs ==> IsChild(k, children[k]);
    }
  }

  lemma ForceReadInv(s: Cluster, step: Step, room: nat)
    requires ClusterInv(s, room) && room > 0 && step.ForceRead?
    ensures ClusterInv(NextStep(s, step), room - 1)
  {
    LessRoom(s.base, room);
    if step.u in s.base.procs && step.u !in s.forced {
      var p := s.base.procs[step.u];
      assert ProcOk(step.u, p);
      CompositeKeyed(s.base.children);
      ReadOk(s.base, step.u, p);
      ProcsInv(s.base, room, s.base.children, step.u, Read(s.base, p));
    }
  }

  lemma ForceWriteInv(s: Cluster, step: Step, room: nat)
    requires ClusterInv(s, room) && room > 0 && step.ForceWrite?
    ensures ClusterInv(NextStep(s, step), room - 1)
  {
    LessRoom(s.base, room);
    if step.u in s.base.procs && step.u in s.forced {
      var p, nd := s.base.procs[step.u], s.forced[step.u].nd;
      assert ProcOk(step.u, p);
      ForcedIsDirectory(s.base.children, nd, p.entry);
      BumpOk(step.u, p, p.pending);
      ProcsInv(s.base, room, ForcedOf(s.base.children, nd, p.entry), step.u,
               p.(lastSplitCAS := NextCas(p.lastSplitCAS)));
    }
  }

  lemma {:induction false} ClusterRun(s: Cluster, steps: seq<Step>, room: nat)
    requires ClusterInv(s, |steps| + room)
    ensures ClusterInv(ExecSteps(s, steps), room)
    decreases |steps|
  {
    if steps != [] {
      match steps[0] {
        case Own(a) => InvStep(s.base, a, |steps| + room);
        case ForceRead(_, _, _, _) => ForceReadInv(s, steps[0], |steps| + room);
        case ForceWrite(_) => ForceWriteInv(s, steps[0], |steps| + room);
      }
      ClusterRun(NextStep(s, steps[0]), steps[1..], room);
    }
  }

  /** At any point of any run, a forced write leaves the entries of all nodes but the one it removes
      alone, if and only if what it read about each of them is still so. */
  lemma ForcedStepKeepsOthersIff(s0: Cluster, steps: seq<Step>, u: string)
    requires ClusterInv(s0, |steps| + 1)
    requires u in ExecSteps(s0, steps).base.procs && u in ExecSteps(s0, steps).forced
    ensures var s := ExecSteps(s0, steps); var f := s.forced[u];
            OthersKept(s.base.children, NextStep(s, ForceWrite(u)).base.children, f.x) <==>
            OthersUpToDate(s.base.children, f.nd, s.base.procs[u].entry, f.x)
  {
    ClusterRun(s0, steps, 1);
    ForceWriteKeepsOthersIff(ExecSteps(s0, steps), u);
  }

  lemma ForceWriteKeepsOthersIff(s: Cluster, u: string)
    requires ClusterInv(s, 1) && u in s.base.procs && u in s.forced
    ensures var f := s.forced[u];
            OthersKept(s.base.children, NextStep(s, ForceWrite(u)).base.children, f.x) <==>
            OthersUpToDate(s.base.children, f.nd, s.base.procs[u].entry, f.x)
  {
    var f, entry := s.forced[u], s.base.procs[u].entry;
    assert NextStep(s, ForceWrite(u)).base.children == ForcedOf(s.base.children, f.nd, entry);
    ForcedKeepsOthersIff(s.base.children, f.x, f.nd, entry);
  }

  lemma ForcedRemovesOne(children: Children, x: string, nd: NodeDefs, entry: Entry)
    requires Directory(children) && x in Composite(children)
    requires nd.nodeDefs == Composite(children) - {x} && Cached(entry) == Composite(children)
    ensures Composite(ForcedOf(children, nd, entry)) == Composite(children) - {x}
  {
    var defs, after := Composite(children), Composite(ForcedOf(children, nd, entry));
    CompositeKeyed(children);
    DeletedOne(defs, nd.nodeDefs, x);
    forall k | k != x
      ensures SameAt(after, defs, k)
    {
      ForcedAt(children, nd, entry, k);
    }
    AllButOne(defs, after, x);
  }

  lemma DeletedOne(defs: map<string, NodeDef>, rest: map<string, NodeDef>, x: string)
    requires x in defs && rest == defs - {x}
    ensures Deleted(defs, rest) == {x}
  {
  }

  lemma AllButOne(defs: map<string, NodeDef>, after: map<string, NodeDef>, x: string)
    requires x !in after && forall k | k != x :: SameAt(after, defs, k)
    ensures after == defs - {x}
  {
    forall k
      ensures k in after <==> k in defs - {x}
      ensures k in after ==> after[k] == (defs - {x})[k]
    {
      assert k != x ==> SameAt(after, defs, k);
    }
  }

  /** A forced removal right after its own read removes its node and no other. */
  lemma ForcedAtOnce(s: Cluster, u: string, x: string, uuid: string, version: string)
    requires Directory(s.base.children) && u in s.base.procs && u !in s.forced
    ensures var s' := NextStep(NextStep(s, ForceRead(u, x, uuid, version)), ForceWrite(u));
            Composite(s'.base.children) == Composite(s.base.children) - {x}
  {
    var defs := Composite(s.base.children);
    var s1 := NextStep(s, ForceRead(u, x, uuid, version));
    assert s1.base.children == s.base.children;
    if x in defs {
      ForcedRemovesOne(s.base.children, x, s1.forced[u].nd, s1.base.procs[u].entry);
    } else {
      assert defs - {x} == defs;
    }
  }

  const NODE_A := NodeDef("", "a", "", [], "", 0, "")
  const NODE_B := NodeDef("", "b", "", [], "", 0, "")

  /** Two nodes that are registered; neither has read anything. */
  function TwoNodes(): (s: Cluster) {
    var proc := Proc(0, Entry(0, None), Idle);
    Cluster(State(map["a" := NodeDefs("", map["a" := NODE_A], ""), "b" := NodeDefs("", map["b" := NODE_B], "")],
                  map["a" := proc, "b" := proc]), map[])
  }

  /** It fails when a node leaves in between: a reads, b removes itself, and a's forced write puts b
      back. */
  lemma ForcedWriteResurrects() returns (s: Cluster, steps: seq<Step>)
    ensures ClusterInv(s, |steps|) && s.forced == map[]
    ensures steps == [ForceRead("a", "a", "", ""), Own(Remove("b", "", "")), Own(Commit("b")), ForceWrite("a")]
    ensures var left := NextStep(NextStep(NextStep(s, steps[0]), steps[1]), steps[2]);
            "b" !in left.base.children && "b" in NextStep(left, steps[3]).base.children
  {
    s := TwoNodes();
    steps := [ForceRead("a", "a", "", ""), Own(Remove("b", "", "")), Own(Commit("b")), ForceWrite("a")];
    TwoNodesInv();
    var s2 := NextStep(NextStep(s, steps[0]), steps[1]);
    LeavesInBetween(s2);
  }

  lemma TwoNodesInv()
    ensures ClusterInv(TwoNodes(), 4) && Composite(TwoNodes().base.children) == map["a" := NODE_A, "b" := NODE_B]
  {
  }

  /** b has read both nodes and is to remove itself, while a is to force b alone. */
  lemma LeavesInBetween(s: Cluster)
    requires "a" in s.forced && "a" in s.base.procs && "b" in s.base.procs && "b" in s.base.children
    requires var both, a, b := map["a" := NODE_A, "b" := NODE_B], s.base.procs["a"], s.base.procs["b"];
             && s.forced["a"].nd.nodeDefs == both - {"a"} && Cached(a.entry) == both
             && b.pending.Writing? && b.pending.nd.nodeDefs == both - {"b"} && Cached(b.entry) == both
             && b.pending.cas == b.entry.cas
    ensures var left := NextStep(s, Own(Commit("b")));
            "b" !in left.base.children && "b" in NextStep(left, ForceWrite("a")).base.children
  {
    var p := s.base.procs["b"];
    OwnChildOnly(s.base.children, "b", p.pending.nd, p.entry);
    assert "b" !in Deleted(Cached(s.base.procs["a"].entry), s.forced["a"].nd.nodeDefs);
  }
}
