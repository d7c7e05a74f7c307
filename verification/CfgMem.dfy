/** The in-memory Cfg (cfg_mem.go): a key-value store with compare-and-swap numbers, the retry
    helper of misc.go, and read-modify-write clients racing over the store. */
module CfgMem {
  import opened Common

  /** math.MaxUint64: a Set with this number is unconditional. */
  const CAS_FORCE: nat := 0xffff_ffff_ffff_ffff

  type Bytes = string

  datatype Entry = Entry(cas: nat, val: Bytes)

  datatype Store = Store(casNext: nat, entries: map<string, Entry>)

  datatype GetResult = Found(val: Option<Bytes>, cas: nat) | GetCASError

  datatype SetResult = Stored(cas: nat) | AlreadyExists | SetCASError

  function ValueOf(st: Store, key: string): (v: Option<Bytes>) {
    if key in st.entries then Some(st.entries[key].val) else None
  }

  /** A missing key reads as nothing with number 0, whatever number is asked for. */
  function GetOf(st: Store, key: string, cas: nat): (r: GetResult) {
    if key !in st.entries then Found(None, 0)
    else if cas != 0 && cas != st.entries[key].cas then GetCASError
    else Found(Some(st.entries[key].val), st.entries[key].cas)
  }

  /** Number 0 only creates, CAS_FORCE always writes, any other number must be the entry's. */
  function SetCheck(st: Store, key: string, cas: nat): (r: SetResult) {
    if cas == 0 then
      if key in st.entries then AlreadyExists else Stored(st.casNext)
    else if cas == CAS_FORCE then
      Stored(st.casNext)
    else if key !in st.entries || cas != st.entries[key].cas then
      SetCASError
    else
      Stored(st.casNext)
  }

  function SetOf(st: Store, key: string, val: Bytes, cas: nat): (st': Store) {
    if SetCheck(st, key, cas).Stored?
    then Store((st.casNext + 1) % (CAS_FORCE + 1), st.entries[key := Entry(st.casNext, val)])
    else st
  }

  /** A Del with number 0 is unconditional. */
  predicate DelCheck(st: Store, key: string, cas: nat) {
    cas == 0 || (key in st.entries && cas == st.entries[key].cas)
  }

  function DelOf(st: Store, key: string, cas: nat): (st': Store) {
    if DelCheck(st, key, cas) then st.(entries := st.entries - {key}) else st
  }

  class CfgMem {
    var casNext: nat
    var entries: map<string, Entry>

    ghost function State(): (st: Store)
      reads this
    {
      Store(casNext, entries)
    }

    constructor ()
      ensures State() == Store(1, map[])
    {
      casNext, entries := 1, map[];
    }

    method Get(key: string, cas: nat) returns (r: GetResult)
      ensures r == GetOf(State(), key, cas)
    {
      if key !in entries {
        return Found(None, 0);
      }
      var entry := entries[key];
      if cas != 0 && cas != entry.cas {
        return GetCASError;
      }
      r := Found(Some(entry.val), entry.cas);
    }

    method Set(key: string, val: Bytes, cas: nat) returns (r: SetResult)
      modifies this
      ensures r == SetCheck(old(State()), key, cas)
      ensures State() == SetOf(old(State()), key, val, cas)
    {
      var present := key in entries;
      if cas == 0 {
        if present {
          return AlreadyExists;
        }
      } else if cas != CAS_FORCE {
        if !present || cas != entries[key].cas {
          return SetCASError;
        }
      }
      r := Stored(casNext);
      entries := entries[key := Entry(casNext, val)];
      casNext := (casNext + 1) % (CAS_FORCE + 1);
    }

    method Del(key: string, cas: nat) returns (ok: bool)
      modifies this
      ensures ok == DelCheck(old(State()), key, cas)
      ensures State() == DelOf(old(State()), key, cas)
    {
      if cas != 0 {
        if key !in entries || cas != entries[key].cas {
          return false;
        }
      }
      entries := entries - {key};
      ok := true;
    }
  }

  // ---------------------------------------------------------------- retrying

  datatype Outcome = Ok | CASMismatch | OtherError

  datatype RetryResult = Returned(outcome: Outcome) | TooManyTries | Unfinished

  /** RetryOnCASMismatch over the outcomes the task would have, in order. A limit of zero or below
      means no limit; Unfinished says the given outcomes ran out first. */
  method RetryOnCASMismatch(task: seq<Outcome>, limit: int) returns (r: RetryResult, tried: nat)
    ensures tried <= |task| && forall i | 0 <= i < tried - 1 :: task[i] == CASMismatch
    ensures r.Returned? ==> tried > 0 && task[tried - 1] == r.outcome && r.outcome != CASMismatch
    ensures r.TooManyTries? ==> limit > 0 && tried == limit && forall i | 0 <= i < tried :: task[i] == CASMismatch
    ensures r.Unfinished? ==> tried == |task| && forall i | 0 <= i < tried :: task[i] == CASMismatch
    ensures limit > 0 ==> tried <= limit
  {
    var tries := 0;
    tried := 0;
    while true
      invariant tries == tried <= |task|
      invariant limit > 0 ==> tried <= limit
      invariant forall i | 0 <= i < tried :: task[i] == CASMismatch
      decreases |task| - tried
    {
      tries := tries + 1;
      if limit > 0 && tries > limit {
        return TooManyTries, tried;
      }
      if tried == |task| {
        return Unfinished, tried;
      }
      var err := task[tried];
      tried := tried + 1;
      if err != CASMismatch {
        return Returned(err), tried;
      }
    }
  }

  // ---------------------------------------------------------------- racing clients

  /** What a client holds after a Get: the key, what it read, and the number it got. */
  datatype Held = Held(key: string, seen: Option<Bytes>, cas: nat)

  datatype Sys = Sys(store: Store, held: map<nat, Held>)

  /** A client reads, writes a function of what it read, or deletes what it read, always with the
      number its read returned. */
  datatype Action =
    | Read(c: nat, key: string)
    | Write(c: nat, update: Option<Bytes> -> Bytes)
    | Remove(c: nat)

  predicate Succeeds(s: Sys, a: Action) {
    && a.c in s.held
    && var h := s.held[a.c];
       match a
       case Read(_, _) => false
       case Write(_, _) => SetCheck(s.store, h.key, h.cas).Stored?
       case Remove(_) => DelCheck(s.store, h.key, h.cas)
  }

  function Next(s: Sys, a: Action): (s': Sys) {
    match a
    case Read(c, key) =>
      var r := GetOf(s.store, key, 0);
      if r.Found? then s.(held := s.held[c := Held(key, r.val, r.cas)]) else s
    case Write(c, update) =>
      if c !in s.held then s
      else
        var h := s.held[c];
        Sys(SetOf(s.store, h.key, update(h.seen), h.cas), s.held - {c})
    case Remove(c) =>
      if c !in s.held then s
      else
        var h := s.held[c];
        Sys(DelOf(s.store, h.key, h.cas), s.held - {c})
  }

  predicate StoreOk(st: Store) {
    && 1 <= st.casNext
    && forall k | k in st.entries :: 1 <= st.entries[k].cas < st.casNext
  }

  /** A held number names at most the entry that was read: numbers are never given out twice. */
  predicate HeldOk(st: Store, h: Held) {
    && h.cas < st.casNext
    && (h.cas == 0 <==> h.seen == None)
    && (h.key in st.entries && st.entries[h.key].cas == h.cas ==> ValueOf(st, h.key) == h.seen)
  }

  ghost predicate Inv(s: Sys) {
    StoreOk(s.store) && forall c | c in s.held :: HeldOk(s.store, s.held[c])
  }

  lemma InvStep(s: Sys, a: Action)
    requires Inv(s) && s.store.casNext < CAS_FORCE
    ensures Inv(Next(s, a))
  {
    var s' := Next(s, a);
    forall c | c in s'.held
      ensures HeldOk(s'.store, s'.held[c])
    {
      if !(a.Read? && a.c == c) {
        assert HeldOk(s.store, s.held[c]);
      }
    }
  }

  ghost predicate IsRun(states: seq<Sys>, actions: seq<Action>) {
    && |states| == |actions| + 1
    && StoreOk(states[0].store) && states[0].held == map[]
    && (forall i | 0 <= i < |states| :: states[i].store.casNext < CAS_FORCE)
    && forall i | 0 <= i < |actions| :: states[i + 1] == Next(states[i], actions[i])
  }

  lemma {:induction false} RunInv(states: seq<Sys>, actions: seq<Action>, i: nat)
    requires IsRun(states, actions) && i < |states|
    ensures Inv(states[i])
  {
    if i > 0 {
      RunInv(states, actions, i - 1);
      InvStep(states[i - 1], actions[i - 1]);
    }
  }

  /** In every interleaving a Set succeeds only where the entry is still what the client read, even
      if it was deleted and created again in between. */
  lemma SetOnlyIfUnchanged(states: seq<Sys>, actions: seq<Action>, i: nat)
    requires IsRun(states, actions) && i < |actions|
    requires actions[i].Write? && Succeeds(states[i], actions[i])
    ensures var h := states[i].held[actions[i].c]; ValueOf(states[i].store, h.key) == h.seen
  {
    RunInv(states, actions, i);
    assert HeldOk(states[i].store, states[i].held[actions[i].c]);
  }

  /** The same for a Del, except that a Del by a client that read a missing key is unconditional:
      it removes what another client has created since exactly when there is such an entry. */
  lemma DelOnlyIfUnchanged(states: seq<Sys>, actions: seq<Action>, i: nat)
    requires IsRun(states, actions) && i < |actions|
    requires actions[i].Remove? && Succeeds(states[i], actions[i])
    ensures var h := states[i].held[actions[i].c];
            ValueOf(states[i].store, h.key) == h.seen <==> h.cas != 0 || h.key !in states[i].store.entries
  {
    RunInv(states, actions, i);
    assert HeldOk(states[i].store, states[i].held[actions[i].c]);
  }

  /** The value of the key if the successful operations up to step i were applied one after another. */
  ghost function Composed(states: seq<Sys>, actions: seq<Action>, key: string, i: nat): (v: Option<Bytes>)
    requires |states| == |actions| + 1 && i < |states|
  {
    if i == 0 then
      ValueOf(states[0].store, key)
    else
      var s, a := states[i - 1], actions[i - 1];
      var prev := Composed(states, actions, key, i - 1);
      if !Succeeds(s, a) || s.held[a.c].key != key then prev
      else match a
           case Write(_, update) => Some(update(prev))
           case _ => None
  }

  /** No lost update: the stored value is the in-order composition of the successful operations. */
  lemma {:induction false} NoLostUpdates(states: seq<Sys>, actions: seq<Action>, key: string, i: nat)
    requires IsRun(states, actions) && i < |states|
    ensures ValueOf(states[i].store, key) == Composed(states, actions, key, i)
  {
    if i > 0 {
      NoLostUpdates(states, actions, key, i - 1);
      var s, a := states[i - 1], actions[i - 1];
      if a.Write? && Succeeds(s, a) {
        SetOnlyIfUnchanged(states, actions, i - 1);
      }
    }
  }

  /** A delete that loses an update: client 1 reads a missing key, client 2 creates it, client 1 deletes it. */
  lemma DelLosesCreate() returns (states: seq<Sys>, actions: seq<Action>)
    ensures IsRun(states, actions) && |actions| == 4
    ensures actions[0] == Read(1, "k") && actions[1] == Read(2, "k") && actions[2].Write? && actions[3] == Remove(1)
    ensures ValueOf(states[1].store, "k") == None && ValueOf(states[3].store, "k") == Some("v")
    ensures Succeeds(states[3], actions[3]) && ValueOf(states[4].store, "k") == None
  {
    actions := [Read(1, "k"), Read(2, "k"), Write(2, (v: Option<Bytes>) => "v"), Remove(1)];
    var s0 := Sys(Store(1, map[]), map[]);
    var s1 := Next(s0, actions[0]);
    var s2 := Next(s1, actions[1]);
    var s3 := Next(s2, actions[2]);
    states := [s0, s1, s2, s3, Next(s3, actions[3])];
  }
}
