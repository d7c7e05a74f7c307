/** The booting flags of a Manager (manager.go) and the workers that open pindexes under them:
    those of LoadDataDir and those of the janitor's pindexesStart. */
module Booting {
  import opened Common

  /** `pindexes` maps each registered name to the identity of its pindex object. */
  datatype Mgr = Mgr(pindexes: map<string, nat>, booting: set<string>)

  /** The empty name is never flagged, and its updates always succeed. */
  predicate StatusUpdates(m: Mgr, name: string, status: bool) {
    name == "" || !status || (name !in m.pindexes && name !in m.booting)
  }

  function WithStatus(m: Mgr, name: string, status: bool): (m': Mgr) {
    if name == "" || !StatusUpdates(m, name, status) then m
    else if status then m.(booting := m.booting + {name})
    else m.(booting := m.booting - {name})
  }

  function WithPIndex(m: Mgr, name: string, id: nat): (m': Mgr) {
    if name in m.pindexes then m else m.(pindexes := m.pindexes[name := id])
  }

  predicate Unregisters(m: Mgr, name: string, toMatch: Option<nat>) {
    name in m.pindexes && (toMatch.None? || toMatch.value == m.pindexes[name])
  }

  function WithoutPIndex(m: Mgr, name: string, toMatch: Option<nat>): (m': Mgr) {
    if Unregisters(m, name, toMatch) then m.(pindexes := m.pindexes - {name}) else m
  }

  class Manager {
    var pindexes: map<string, nat>
    var bootingPIndexes: set<string>

    ghost function State(): (m: Mgr)
      reads this
    {
      Mgr(pindexes, bootingPIndexes)
    }

    constructor ()
      ensures State() == Mgr(map[], {})
    {
      pindexes, bootingPIndexes := map[], {};
    }

    method UpdateBootingStatus(name: string, status: bool) returns (ok: bool)
      modifies this
      ensures ok == StatusUpdates(old(State()), name, status)
      ensures State() == WithStatus(old(State()), name, status)
    {
      if name != "" {
        if !status {
          bootingPIndexes := bootingPIndexes - {name};
          return true;
        }
        if name in pindexes {
          return false;
        }
        if name in bootingPIndexes {
          return false;
        }
        bootingPIndexes := bootingPIndexes + {name};
      }
      return true;
    }

    method RegisterPIndex(name: string, id: nat) returns (ok: bool)
      modifies this
      ensures ok == (name !in old(pindexes)) && State() == WithPIndex(old(State()), name, id)
    {
      if name in pindexes {
        return false;
      }
      pindexes := pindexes[name := id];
      return true;
    }

    method UnregisterPIndex(name: string, toMatch: Option<nat>) returns (pindex: Option<nat>)
      modifies this
      ensures pindex == if Unregisters(old(State()), name, toMatch) then Some(old(pindexes)[name]) else None
      ensures State() == WithoutPIndex(old(State()), name, toMatch)
    {
      if name in pindexes {
        if toMatch.Some? && toMatch.value != pindexes[name] {
          return None;
        }
        pindex := Some(pindexes[name]);
        pindexes := pindexes - {name};
        return pindex;
      }
      return None;
    }
  }

  // ---------------------------------------------------------------- workers

  /** A worker is between requests, has acquired a name, or has tried to register what it opened
      under it. */
  datatype Worker = Waiting | Holding(name: string) | Tried(name: string, registered: bool)

  datatype State = State(mgr: Mgr, workers: map<nat, Worker>)

  /** `Give` is the worker's release of its name; a worker whose open failed gives without
      having registered. */
  datatype Action =
    | Acquire(w: nat, name: string)
    | Register(w: nat, id: nat)
    | Give(w: nat)
    | Unregister(name: string, toMatch: Option<nat>)

  function WorkerOf(s: State, w: nat): (k: Worker) {
    if w in s.workers then s.workers[w] else Waiting
  }

  function Next(s: State, a: Action): (s': State) {
    match a
    case Acquire(w, name) =>
      if !WorkerOf(s, w).Waiting? || !StatusUpdates(s.mgr, name, true) then s
      else State(WithStatus(s.mgr, name, true), s.workers[w := Holding(name)])
    case Register(w, id) =>
      if !WorkerOf(s, w).Holding? then s
      else var name := s.workers[w].name;
           State(WithPIndex(s.mgr, name, id), s.workers[w := Tried(name, name !in s.mgr.pindexes)])
    case Give(w) =>
      if WorkerOf(s, w).Waiting? then s
      else State(WithStatus(s.mgr, s.workers[w].name, false), s.workers[w := Waiting])
    case Unregister(name, toMatch) => s.(mgr := WithoutPIndex(s.mgr, name, toMatch))
  }

  /** The worker is between acquiring and releasing the name. */
  predicate Busy(s: State, w: nat, name: string) {
    !WorkerOf(s, w).Waiting? && s.workers[w].name == name
  }

  ghost predicate IsRun(states: seq<State>, actions: seq<Action>) {
    && |states| == |actions| + 1
    && states[0].mgr.booting == {} && states[0].workers == map[]
    && forall i | 0 <= i < |actions| :: StepAt(states, actions, i)
  }

  ghost predicate StepAt(states: seq<State>, actions: seq<Action>, i: nat)
    requires |states| == |actions| + 1 && i < |actions|
  {
    states[i + 1] == Next(states[i], actions[i])
  }

  /** At most one worker is on a name; the name is flagged exactly while one is; until that worker
      registers the name is unregistered, and its registration succeeds. */
  ghost predicate Exclusive(s: State, name: string) {
    && (forall v, w | Busy(s, v, name) && Busy(s, w, name) :: v == w)
    && (name in s.mgr.booting <==> IsHeld(s, name))
    && (forall w | Busy(s, w, name) && s.workers[w].Holding? :: name !in s.mgr.pindexes)
    && (forall w | Busy(s, w, name) && s.workers[w].Tried? :: s.workers[w].registered)
  }

  lemma OthersStay(s: State, a: Action, w: nat, name: string)
    requires a.Unregister? || a.w != w
    ensures WorkerOf(Next(s, a), w) == WorkerOf(s, w)
    ensures Busy(Next(s, a), w, name) <==> Busy(s, w, name)
  {
  }

  lemma SameWorkers(s: State, a: Action, name: string, s': State)
    requires s' == Next(s, a)
    ensures forall w | a.Unregister? || a.w != w ::
            WorkerOf(s', w) == WorkerOf(s, w) && (Busy(s', w, name) <==> Busy(s, w, name))
  {
    forall w | a.Unregister? || a.w != w
      ensures WorkerOf(s', w) == WorkerOf(s, w) && (Busy(s', w, name) <==> Busy(s, w, name))
    {
      OthersStay(s, a, w, name);
    }
  }

  ghost predicate IsHeld(s: State, name: string) {
    exists w :: Busy(s, w, name)
  }

  lemma SameHeld(s: State, s': State, name: string)
    requires forall w :: Busy(s', w, name) <==> Busy(s, w, name)
    ensures IsHeld(s', name) <==> IsHeld(s, name)
  {
    if w :| Busy(s, w, name) {
      assert Busy(s', w, name);
    }
    if w :| Busy(s', w, name) {
      assert Busy(s, w, name);
    }
  }

  lemma HeldStep(s: State, a: Action, name: string)
    requires name != "" && Exclusive(s, name)
    ensures var s' := Next(s, a); name in s'.mgr.booting <==> IsHeld(s', name)
  {
    var s' := Next(s, a);
    SameWorkers(s, a, name, s');
    if a.Acquire? && a.name == name && s' != s {
      assert Busy(s', a.w, name);
    } else if a.Give? && Busy(s, a.w, name) {
      assert !Busy(s', a.w, name);
      assert forall w | w != a.w :: !Busy(s, w, name) && !Busy(s', w, name);
    } else {
      assert a.Unregister? || (Busy(s', a.w, name) <==> Busy(s, a.w, name));
      assert forall w :: Busy(s', w, name) <==> Busy(s, w, name);
      SameHeld(s, s', name);
    }
  }

  lemma ExclusiveStep(s: State, a: Action, name: string)
    requires name != "" && Exclusive(s, name)
    ensures Exclusive(Next(s, a), name)
  {
    HeldStep(s, a, name);
    OneHolder(s, a, name);
    HolderStep(s, a, name);
  }

  lemma OneHolder(s: State, a: Action, name: string)
    requires name != "" && Exclusive(s, name)
    ensures var s' := Next(s, a); forall v, w | Busy(s', v, name) && Busy(s', w, name) :: v == w
  {
    var s' := Next(s, a);
    SameWorkers(s, a, name, s');
    if a.Acquire? && a.name == name && s' != s {
      assert !IsHeld(s, name);
      assert forall w :: !Busy(s, w, name);
    } else {
      assert a.Unregister? || (Busy(s', a.w, name) ==> Busy(s, a.w, name));
    }
  }

  /** What the holder has found does not change under it. */
  lemma HolderStep(s: State, a: Action, name: string)
    requires name != "" && Exclusive(s, name)
    ensures var s' := Next(s, a);
            forall w | Busy(s', w, name) ::
              (s'.workers[w].Holding? ==> name !in s'.mgr.pindexes)
                && (s'.workers[w].Tried? ==> s'.workers[w].registered)
  {
    var s' := Next(s, a);
    SameWorkers(s, a, name, s');
    forall w | Busy(s', w, name)
      ensures (s'.workers[w].Holding? ==> name !in s'.mgr.pindexes)
              && (s'.workers[w].Tried? ==> s'.workers[w].registered)
    {
      if a.Unregister? || a.w != w {
        assert Busy(s, w, name) && s'.workers[w] == s.workers[w];
        assert a.Register? && WorkerOf(s, a.w).Holding? ==> !Busy(s, a.w, name);
      } else if a.Register? {
        assert Busy(s, w, name);
      }
    }
  }

  /** Over every run of LoadDataDir and janitor workers, for every name but the empty one. */
  lemma {:induction false} BootingExclusion(states: seq<State>, actions: seq<Action>, i: nat, name: string)
    requires IsRun(states, actions) && i < |states| && name != ""
    ensures Exclusive(states[i], name)
  {
    if i > 0 {
      BootingExclusion(states, actions, i - 1, name);
      assert StepAt(states, actions, i - 1);
      ExclusiveStep(states[i - 1], actions[i - 1], name);
    }
  }

  /** No flag outlives its worker: when all workers wait, every unregistered name can be acquired. */
  lemma NothingLeftBooting(states: seq<State>, actions: seq<Action>, i: nat, name: string)
    requires IsRun(states, actions) && i < |states|
    requires forall w | w in states[i].workers :: states[i].workers[w].Waiting?
    ensures StatusUpdates(states[i].mgr, name, true) <==> name == "" || name !in states[i].mgr.pindexes
  {
    if name != "" {
      BootingExclusion(states, actions, i, name);
    }
  }

  /** The empty name is not exclusive: two workers can be on it at once. */
  lemma EmptyNameShared() returns (states: seq<State>, actions: seq<Action>)
    ensures IsRun(states, actions) && |actions| == 2
    ensures Busy(states[2], 0, "") && Busy(states[2], 1, "")
  {
    actions := [Acquire(0, ""), Acquire(1, "")];
    var s0 := State(Mgr(map[], {}), map[]);
    var s1 := Next(s0, actions[0]);
    states := [s0, s1, Next(s1, actions[1])];
  }
}
