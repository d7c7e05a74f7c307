/** Version comparison (misc.go) and the version bump protocol over the Cfg (version.go). */
module Version {
  import opened Common
  import opened CfgMem
  import Text

  const VERSION_KEY := "version"
  const MAX_TRIES := 100

  // ---------------------------------------------------------------- comparison

  predicate PartsGTE(xa: seq<string>, ya: seq<string>) {
    if xa == [] then ya == []
    else if ya == [] then true
    else
      var x, y := Text.Atoi(xa[0]), Text.Atoi(ya[0]);
      && x.Some? && y.Some? && x.value >= y.value
      && (x.value > y.value || PartsGTE(xa[1..], ya[1..]))
  }

  /** Version x is at least version y. */
  predicate GTE(x: string, y: string) {
    PartsGTE(Text.Split(x, '.'), Text.Split(y, '.'))
  }

  method VersionGTE(x: string, y: string) returns (r: bool)
    ensures r == GTE(x, y)
  {
    var xa, ya := Text.Split(x, '.'), Text.Split(y, '.');
    for i := 0 to |xa|
      invariant i <= |ya| && PartsGTE(xa, ya) == PartsGTE(xa[i..], ya[i..])
    {
      if i >= |ya| {
        return true;
      }
      var xv := Text.Atoi(xa[i]);
      if xv.None? {
        return false;
      }
      var yv := Text.Atoi(ya[i]);
      if yv.None? {
        return false;
      }
      if xv.value > yv.value {
        return true;
      }
      if xv.value < yv.value {
        return false;
      }
      assert xa[i..][1..] == xa[i + 1..] && ya[i..][1..] == ya[i + 1..];
    }
    return |xa| >= |ya|;
  }

  predicate NumericParts(xa: seq<string>) {
    forall i | 0 <= i < |xa| :: Text.Atoi(xa[i]).Some?
  }

  predicate Numeric(x: string) {
    NumericParts(Text.Split(x, '.'))
  }

  function Values(xa: seq<string>): (vs: seq<int>)
    requires NumericParts(xa)
    ensures |vs| == |xa| && forall i | 0 <= i < |xa| :: Text.Atoi(xa[i]) == Some(vs[i])
  {
    if xa == [] then [] else [Text.Atoi(xa[0]).value] + Values(xa[1..])
  }

  lemma {:induction false} PartsTransitive(xa: seq<string>, ya: seq<string>, za: seq<string>)
    requires PartsGTE(xa, ya) && PartsGTE(ya, za)
    ensures PartsGTE(xa, za)
  {
    if xa != [] && ya != [] && za != [] && Text.Atoi(xa[0]) == Text.Atoi(ya[0]) == Text.Atoi(za[0]) {
      PartsTransitive(xa[1..], ya[1..], za[1..]);
    }
  }

  /** The comparison is transitive on all strings. */
  lemma Transitive(x: string, y: string, z: string)
    requires GTE(x, y) && GTE(y, z)
    ensures GTE(x, z)
  {
    PartsTransitive(Text.Split(x, '.'), Text.Split(y, '.'), Text.Split(z, '.'));
  }

  lemma {:induction false} PartsTotal(xa: seq<string>, ya: seq<string>)
    requires NumericParts(xa) && NumericParts(ya)
    ensures PartsGTE(xa, ya) || PartsGTE(ya, xa)
    ensures PartsGTE(xa, ya) && PartsGTE(ya, xa) <==> Values(xa) == Values(ya)
  {
    if xa == [] || ya == [] {
      assert |Values(xa)| == |xa| && |Values(ya)| == |ya|;
    } else {
      PartsTotal(xa[1..], ya[1..]);
      assert Values(xa) == [Text.Atoi(xa[0]).value] + Values(xa[1..]);
      assert Values(ya) == [Text.Atoi(ya[0]).value] + Values(ya[1..]);
      assert Values(xa)[1..] == Values(xa[1..]) && Values(ya)[1..] == Values(ya[1..]);
    }
  }

  /** On numeric dotted versions the comparison is total, and both ways only for the same numbers. */
  lemma TotalOnNumeric(x: string, y: string)
    requires Numeric(x) && Numeric(y)
    ensures GTE(x, y) || GTE(y, x)
    ensures GTE(x, y) && GTE(y, x) <==> Values(Text.Split(x, '.')) == Values(Text.Split(y, '.'))
  {
    PartsTotal(Text.Split(x, '.'), Text.Split(y, '.'));
  }

  lemma {:induction false} PartsReflexive(xa: seq<string>)
    ensures PartsGTE(xa, xa) <==> NumericParts(xa)
  {
    if xa != [] {
      PartsReflexive(xa[1..]);
      assert NumericParts(xa) <==> Text.Atoi(xa[0]).Some? && NumericParts(xa[1..]) by {
        assert forall i | 1 <= i < |xa| :: xa[i] == xa[1..][i - 1];
        assert forall i | 0 <= i < |xa[1..]| :: xa[1..][i] == xa[i + 1];
      }
    }
  }

  /** A version is at least itself exactly when it is numeric. */
  lemma ReflexiveIffNumeric(x: string)
    ensures GTE(x, x) <==> Numeric(x)
  {
    PartsReflexive(Text.Split(x, '.'));
  }

  // ---------------------------------------------------------------- one node alone

  /** CheckVersion with no other node writing. `bump` is what VerifyEffectiveClusterVersion answers. */
  method CheckVersion(cfg: CfgMem, myVersion: string, bump: bool) returns (ok: bool, err: bool)
    requires StoreOk(cfg.State()) && cfg.casNext < CAS_FORCE
    modifies cfg
    ensures !err
    ensures var was := old(ValueOf(cfg.State(), VERSION_KEY)); var now := ValueOf(cfg.State(), VERSION_KEY);
            if was.None? then
              now == Some(myVersion) && ok == Numeric(myVersion)
            else if GTE(myVersion, was.value) && myVersion != was.value && bump then
              now == Some(myVersion) && ok == Numeric(myVersion)
            else
              now == was && ok == GTE(myVersion, was.value)
  {
    ReflexiveIffNumeric(myVersion);
    var tries := 0;
    ghost var written := false;
    while true
      invariant tries <= 1 && (tries == 1 <==> written)
      invariant !written ==> cfg.State() == old(cfg.State())
      invariant written ==>
                  && ValueOf(cfg.State(), VERSION_KEY) == Some(myVersion)
                  && var was := old(ValueOf(cfg.State(), VERSION_KEY));
                     was.None? || (GTE(myVersion, was.value) && myVersion != was.value && bump)
      decreases !written
    {
      tries := tries + 1;
      if tries > MAX_TRIES {
        return false, true;
      }
      var got := cfg.Get(VERSION_KEY, 0);
      if got.GetCASError? {
        return false, true;
      }
      if got.val.None? {
        var set1 := cfg.Set(VERSION_KEY, myVersion, got.cas);
        if set1 == SetCASError {
          continue;
        }
        if set1 == AlreadyExists {
          return false, true;
        }
        written := true;
        continue;
      }
      var modern := VersionGTE(myVersion, got.val.value);
      if !modern {
        return false, false;
      }
      if myVersion != got.val.value {
        if !bump {
          return true, false;
        }
        var set2 := cfg.Set(VERSION_KEY, myVersion, got.cas);
        if set2 == SetCASError {
          continue;
        }
        if set2 == AlreadyExists {
          return false, true;
        }
        written := true;
        continue;
      }
      return true, false;
    }
  }

  // ---------------------------------------------------------------- racing nodes

  datatype Pc = Start | Got(version: Option<string>, cas: nat) | Finished(ok: bool, err: bool)

  datatype Node = Node(myVersion: string, tries: nat, pc: Pc)

  datatype Cluster = Cluster(store: Store, nodes: map<nat, Node>)

  /** A node enters CheckVersion, takes one step of it, or gives up on an error of a foreign call;
      keys other than the version key may be written and deleted in any way. */
  datatype Action =
    | Enter(n: nat, myVersion: string)
    | Go(n: nat, bump: bool)
    | Fail(n: nat)
    | OtherSet(key: string, val: Bytes, cas: nat)
    | OtherDel(key: string, cas: nat)

  /** The write of a node's own version with the number it read, and what it does next. */
  function Write(s: Cluster, n: nat, cas: nat): (s': Cluster)
    requires n in s.nodes
  {
    var node := s.nodes[n];
    var pc := match SetCheck(s.store, VERSION_KEY, cas)
              case Stored(_) => Start
              case SetCASError => Start
              case AlreadyExists => Finished(false, true);
    Cluster(SetOf(s.store, VERSION_KEY, node.myVersion, cas), s.nodes[n := node.(pc := pc)])
  }

  function Step(s: Cluster, n: nat, bump: bool): (s': Cluster)
    requires n in s.nodes
  {
    var node := s.nodes[n];
    match node.pc
    case Start =>
      if node.tries + 1 > MAX_TRIES then
        s.(nodes := s.nodes[n := Node(node.myVersion, node.tries + 1, Finished(false, true))])
      else
        var r := GetOf(s.store, VERSION_KEY, 0);
        var pc := if r.GetCASError? then Finished(false, true) else Got(r.val, r.cas);
        s.(nodes := s.nodes[n := Node(node.myVersion, node.tries + 1, pc)])
    case Got(None, cas) => Write(s, n, cas)
    case Got(Some(v), cas) =>
      if !GTE(node.myVersion, v) then s.(nodes := s.nodes[n := node.(pc := Finished(false, false))])
      else if node.myVersion != v && bump then Write(s, n, cas)
      else s.(nodes := s.nodes[n := node.(pc := Finished(true, false))])
    case Finished(_, _) => s
  }

  function Next(s: Cluster, a: Action): (s': Cluster) {
    match a
    case Enter(n, myVersion) => s.(nodes := s.nodes[n := Node(myVersion, 0, Start)])
    case Go(n, bump) => if n in s.nodes then Step(s, n, bump) else s
    case Fail(n) => if n in s.nodes then s.(nodes := s.nodes[n := s.nodes[n].(pc := Finished(false, true))]) else s
    case OtherSet(key, val, cas) => if key == VERSION_KEY then s else s.(store := SetOf(s.store, key, val, cas))
    case OtherDel(key, cas) => if key == VERSION_KEY then s else s.(store := DelOf(s.store, key, cas))
  }

  ghost predicate NodeOk(st: Store, node: Node) {
    node.pc.Got? ==> HeldOk(st, Held(VERSION_KEY, node.pc.version, node.pc.cas))
  }

  ghost predicate Inv(s: Cluster) {
    StoreOk(s.store) && forall n | n in s.nodes :: NodeOk(s.store, s.nodes[n])
  }

  ghost predicate IsRun(states: seq<Cluster>, actions: seq<Action>) {
    && |states| == |actions| + 1
    && StoreOk(states[0].store) && states[0].nodes == map[]
    && (forall i | 0 <= i < |states| :: states[i].store.casNext < CAS_FORCE)
    && forall i | 0 <= i < |actions| :: StepAt(states, actions, i)
  }

  ghost predicate StepAt(states: seq<Cluster>, actions: seq<Action>, i: nat)
    requires |states| == |actions| + 1 && i < |actions|
  {
    states[i + 1] == Next(states[i], actions[i])
  }

  lemma HeldStaysOk(st: Store, h: Held, key: string, val: Bytes, cas: nat)
    requires StoreOk(st) && HeldOk(st, h) && st.casNext < CAS_FORCE
    ensures StoreOk(SetOf(st, key, val, cas)) && HeldOk(SetOf(st, key, val, cas), h)
    ensures StoreOk(DelOf(st, key, cas)) && HeldOk(DelOf(st, key, cas), h)
  {
  }

  lemma InvStep(s: Cluster, a: Action)
    requires Inv(s) && s.store.casNext < CAS_FORCE
    ensures Inv(Next(s, a))
  {
    var s' := Next(s, a);
    forall n | n in s'.nodes && s'.nodes[n].pc.Got?
      ensures NodeOk(s'.store, s'.nodes[n])
    {
      if n in s.nodes && s'.nodes[n] == s.nodes[n] {
        NodeStaysOk(s, a, n);
      }
    }
  }

  lemma NodeStaysOk(s: Cluster, a: Action, n: nat)
    requires Inv(s) && s.store.casNext < CAS_FORCE && n in s.nodes
    ensures NodeOk(Next(s, a).store, s.nodes[n])
  {
    assert NodeOk(s.store, s.nodes[n]);
    if s.nodes[n].pc.Got? {
      var h := Held(VERSION_KEY, s.nodes[n].pc.version, s.nodes[n].pc.cas);
      match a
      case OtherSet(key, val, cas) => HeldStaysOk(s.store, h, key, val, cas);
      case OtherDel(key, cas) => HeldStaysOk(s.store, h, key, "", cas);
      case Go(m, _) =>
        if m in s.nodes && s.nodes[m].pc.Got? {
          HeldStaysOk(s.store, h, VERSION_KEY, s.nodes[m].myVersion, s.nodes[m].pc.cas);
        }
      case _ =>
    }
  }

  lemma {:induction false} RunInv(states: seq<Cluster>, actions: seq<Action>, i: nat)
    requires IsRun(states, actions) && i < |states|
    ensures Inv(states[i])
  {
    if i > 0 {
      RunInv(states, actions, i - 1);
      assert StepAt(states, actions, i - 1);
      InvStep(states[i - 1], actions[i - 1]);
    }
  }

  /** The later version is the same one, or at least the earlier one. */
  predicate NotOlder(later: Option<string>, earlier: Option<string>) {
    earlier.Some? ==> later.Some? && (later == earlier || GTE(later.value, earlier.value))
  }

  lemma StepNotOlder(s: Cluster, a: Action)
    requires Inv(s) && s.store.casNext < CAS_FORCE
    ensures NotOlder(ValueOf(Next(s, a).store, VERSION_KEY), ValueOf(s.store, VERSION_KEY))
  {
    if a.Go? && a.n in s.nodes && s.nodes[a.n].pc.Got? {
      assert NodeOk(s.store, s.nodes[a.n]);
    }
  }

  /** In every interleaving of CheckVersion calls the stored version never decreases. */
  lemma {:induction false} VersionNeverDecreases(states: seq<Cluster>, actions: seq<Action>, i: nat, j: nat)
    requires IsRun(states, actions) && i <= j < |states|
    ensures NotOlder(ValueOf(states[j].store, VERSION_KEY), ValueOf(states[i].store, VERSION_KEY))
  {
    if i < j {
      VersionNeverDecreases(states, actions, i, j - 1);
      RunInv(states, actions, j - 1);
      assert StepAt(states, actions, j - 1);
      StepNotOlder(states[j - 1], actions[j - 1]);
      var first, mid, last := ValueOf(states[i].store, VERSION_KEY), ValueOf(states[j - 1].store, VERSION_KEY),
                              ValueOf(states[j].store, VERSION_KEY);
      if first.Some? && first != mid && mid != last {
        Transitive(last.value, mid.value, first.value);
      }
    }
  }

  /** Over every run, a node that has read the version gets an error from its next step if and only
      if it read none and there is one by now. */
  lemma FirstWriteFailsIff(states: seq<Cluster>, actions: seq<Action>, i: nat)
    requires IsRun(states, actions) && i < |actions| && actions[i].Go?
    requires var n := actions[i].n; n in states[i].nodes && states[i].nodes[n].pc.Got?
    ensures var n := actions[i].n;
            && n in states[i + 1].nodes
            && (states[i + 1].nodes[n].pc == Finished(false, true) <==>
                states[i].nodes[n].pc.version.None? && VERSION_KEY in states[i].store.entries)
  {
    RunInv(states, actions, i);
    assert StepAt(states, actions, i);
    assert NodeOk(states[i].store, states[i].nodes[actions[i].n]);
  }

  /** What a node read was there, and a version that was there at the start always is. */
  ghost predicate ReadSome(s: Cluster) {
    && VERSION_KEY in s.store.entries
    && forall n | n in s.nodes && s.nodes[n].pc.Got? :: s.nodes[n].pc.version.Some?
  }

  lemma {:induction false} RunReadsSome(states: seq<Cluster>, actions: seq<Action>, i: nat)
    requires IsRun(states, actions) && i < |states| && VERSION_KEY in states[0].store.entries
    ensures ReadSome(states[i])
  {
    VersionNeverDecreases(states, actions, 0, i);
    if i > 0 {
      RunReadsSome(states, actions, i - 1);
      assert StepAt(states, actions, i - 1);
    }
  }

  /** Where a version is stored before the first node comes, no write of a version ends in an error. */
  lemma NoErrorOnceStored(states: seq<Cluster>, actions: seq<Action>, i: nat)
    requires IsRun(states, actions) && i < |actions| && actions[i].Go?
    requires var n := actions[i].n; n in states[i].nodes && states[i].nodes[n].pc.Got?
    requires VERSION_KEY in states[0].store.entries
    ensures var n := actions[i].n; n in states[i + 1].nodes && states[i + 1].nodes[n].pc != Finished(false, true)
  {
    FirstWriteFailsIff(states, actions, i);
    RunReadsSome(states, actions, i);
  }

  /** Two nodes racing to store the first version: the second Set finds the key and is no CAS
      mismatch, so its CheckVersion fails where the protocol means to retry. */
  lemma RacingFirstInit() returns (states: seq<Cluster>, actions: seq<Action>)
    ensures IsRun(states, actions) && |actions| == 6
    ensures actions[0] == Enter(1, "5.7.0") && actions[1] == Enter(2, "5.7.0")
    ensures ValueOf(states[6].store, VERSION_KEY) == Some("5.7.0")
    ensures 2 in states[6].nodes && states[6].nodes[2].pc == Finished(false, true)
  {
    actions := [Enter(1, "5.7.0"), Enter(2, "5.7.0"), Go(1, true), Go(2, true), Go(1, true), Go(2, true)];
    var s0 := Cluster(Store(1, map[]), map[]);
    var s1 := Next(s0, actions[0]);
    var s2 := Next(s1, actions[1]);
    var s3 := Next(s2, actions[2]);
    var s4 := Next(s3, actions[3]);
    var s5 := Next(s4, actions[4]);
    states := [s0, s1, s2, s3, s4, s5, Next(s5, actions[5])];
  }
}
