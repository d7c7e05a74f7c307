/** The life of a DCP feed (feed_dcp_gocbcore.go and its observer): streams that open and end, a
    close that ends them all, and marks after which a partition gets no more data. */
module DcpFeed {
  import opened Common

  /** The vbuckets a feed covers, and the marks of one-time indexing if it has any. */
  datatype Config = Config(vbs: seq<nat>, stopAfter: Option<map<string, nat>>)

  datatype Feed = Feed(closed: bool, active: set<nat>, remaining: int, reached: set<string>)

  function VBuckets(c: Config): (r: set<nat>) {
    set v | v in c.vbs
  }

  // ---------------------------------------------------------------- operations

  function OpenOf(f: Feed, vb: nat, isNew: bool): (f': Feed) {
    if f.closed || !isNew || vb in f.active then f
    else f.(active := f.active + {vb}, remaining := f.remaining + 1)
  }

  function CompleteOf(f: Feed, vb: nat): (f': Feed) {
    if vb in f.active then f.(active := f.active - {vb}, remaining := f.remaining - 1) else f
  }

  /** Only the streams of the feed's own vbuckets are closed. */
  function CloseOf(c: Config, f: Feed): (f': Feed) {
    if f.closed then f
    else var left := f.active - VBuckets(c);
         f.(closed := true, active := left, remaining := f.remaining - (|f.active| - |left|))
  }

  predicate IsMarked(c: Config, p: string) {
    c.stopAfter.Some? && p in c.stopAfter.value
  }

  /** The partition gets to its mark with this sequence number. */
  predicate GetsThere(c: Config, p: string, seqNo: nat) {
    IsMarked(c, p) && seqNo >= c.stopAfter.value[p]
  }

  function ReachOf(c: Config, f: Feed, p: string, seqNo: nat): (f': Feed) {
    if GetsThere(c, p, seqNo) then f.(reached := f.reached + {p}) else f
  }

  predicate AllDone(c: Config, f: Feed, p: string, seqNo: nat) {
    GetsThere(c, p, seqNo) && |ReachOf(c, f, p, seqNo).reached| >= |c.stopAfter.value|
  }

  class GocbcoreDCPFeed {
    const config: Config
    var closed: bool
    var active: set<nat>
    var remaining: int
    var stopAfterReached: set<string>

    ghost function State(): (f: Feed)
      reads this
    {
      Feed(closed, active, remaining, stopAfterReached)
    }

    constructor (config: Config)
      ensures this.config == config && State() == Feed(false, {}, 0, {})
    {
      this.config := config;
      closed, active, remaining, stopAfterReached := false, {}, 0, {};
    }

    /** The entry of a stream request; `proceed` tells whether the request goes out. */
    method InitiateStreamEx(vb: nat, isNewStream: bool) returns (proceed: bool)
      modifies this
      ensures State() == OpenOf(old(State()), vb, isNewStream) && proceed == !old(closed)
    {
      if closed {
        return false;
      }
      if isNewStream {
        if vb !in active {
          remaining := remaining + 1;
          active := active + {vb};
        }
      }
      return true;
    }

    method Complete(vb: nat)
      modifies this
      ensures State() == CompleteOf(old(State()), vb)
    {
      if vb in active {
        active := active - {vb};
        remaining := remaining - 1;
      }
    }

    method Close() returns (first: bool)
      modifies this
      ensures State() == CloseOf(config, old(State())) && first == !old(closed)
    {
      if closed {
        return false;
      }
      closed := true;
      CloseAllStreams();
      return true;
    }

    method CloseAllStreams()
      modifies this`active, this`remaining
      ensures active == old(active) - VBuckets(config)
      ensures remaining == old(remaining) - (|old(active)| - |active|)
    {
      for i := 0 to |config.vbs|
        invariant forall v :: v in active <==> v in old(active) && v !in config.vbs[..i]
        invariant remaining == old(remaining) - (|old(active)| - |active|)
      {
        var vb := config.vbs[i];
        if vb in active {
          active := active - {vb};
          remaining := remaining - 1;
        }
      }
    }

    method CheckStopAfter(p: string) returns (reached: bool)
      ensures reached == (p in stopAfterReached)
    {
      reached := p in stopAfterReached;
    }

    /** The part of updateStopAfter under the lock; when it answers `allDone` the caller closes. */
    method MarkReached(p: string, seqNo: nat) returns (allDone: bool)
      modifies this`stopAfterReached
      ensures State() == ReachOf(config, old(State()), p, seqNo)
      ensures allDone == AllDone(config, old(State()), p, seqNo)
    {
      if config.stopAfter.None? {
        return false;
      }
      if p !in config.stopAfter.value {
        return false;
      }
      if seqNo >= config.stopAfter.value[p] {
        stopAfterReached := stopAfterReached + {p};
        return |stopAfterReached| >= |config.stopAfter.value|;
      }
      return false;
    }

    method UpdateStopAfter(p: string, seqNo: nat)
      modifies this
      ensures var f := old(State());
              State() == if AllDone(config, f, p, seqNo) then CloseOf(config, ReachOf(config, f, p, seqNo))
                         else ReachOf(config, f, p, seqNo)
    {
      var allDone := MarkReached(p, seqNo);
      if allDone {
        var _ := Close();
      }
    }

    /** A data callback that no other interrupts, with the Dest's answer: it is the four steps of the
        run model below, and calls the Dest exactly when the partition has not reached its mark. */
    method Mutation(p: string, seqNo: nat, destOk: bool) returns (call: Option<Call>)
      modifies this
      ensures State() == Callback(config, old(State()), p, seqNo, destOk).feed
      ensures call == CallbackCall(config, old(State()), p, seqNo, destOk)
      ensures call.Some? <==> p !in old(stopAfterReached)
    {
      var reached := CheckStopAfter(p);
      if reached {
        return None;
      }
      call := Some(Call(p, true, seqNo));
      if destOk {
        UpdateStopAfter(p, seqNo);
      }
    }
  }

  // ---------------------------------------------------------------- runs

  /** What a partition's callback is about to do. Callbacks of one partition come one after the
      other; those of different partitions interleave. */
  datatype Pc =
    | Idle
    | Checked(data: bool, seqNo: nat)
    | Delivered(seqNo: nat)
    | Closing

  /** A call on a partition's Dest: data, or a snapshot that ends at this sequence number. */
  datatype Call = Call(partition: string, data: bool, seqNo: nat)

  datatype State = State(feed: Feed, pcs: map<string, Pc>, selfClosed: bool)

  /** `Check` begins a callback, `Deliver` is its call on the Dest, `Update` and `CloseSelf` the two
      halves of updateStopAfter. `Close` is any other close of the feed. */
  datatype Action =
    | Open(vb: nat, isNew: bool)
    | End(vb: nat)
    | Close
    | Check(p: string, data: bool, seqNo: nat)
    | Deliver(p: string, ok: bool)
    | Update(p: string)
    | CloseSelf(p: string)

  function PcOf(s: State, p: string): (pc: Pc) {
    if p in s.pcs then s.pcs[p] else Idle
  }

  function At(s: State, p: string, pc: Pc): (s': State) {
    s.(pcs := s.pcs[p := pc])
  }

  function Next(c: Config, s: State, a: Action): (s': State) {
    match a
    case Open(vb, isNew) => if vb in c.vbs then s.(feed := OpenOf(s.feed, vb, isNew)) else s
    case End(vb) => s.(feed := CompleteOf(s.feed, vb))
    case Close => s.(feed := CloseOf(c, s.feed))
    case Check(p, data, seqNo) =>
      if !PcOf(s, p).Idle? || p in s.feed.reached then s else At(s, p, Checked(data, seqNo))
    case Deliver(p, ok) =>
      if !PcOf(s, p).Checked? then s
      else At(s, p, if ok && s.pcs[p].data then Delivered(s.pcs[p].seqNo) else Idle)
    case Update(p) =>
      if !PcOf(s, p).Delivered? then s
      else var seqNo := s.pcs[p].seqNo;
           At(s.(feed := ReachOf(c, s.feed, p, seqNo)), p, if AllDone(c, s.feed, p, seqNo) then Closing else Idle)
    case CloseSelf(p) =>
      if !PcOf(s, p).Closing? then s
      else At(s.(feed := CloseOf(c, s.feed), selfClosed := true), p, Idle)
  }

  /** The call that a step makes, if any; a snapshot is cut off at the partition's mark. */
  function CallOf(c: Config, s: State, a: Action): (r: Option<Call>) {
    if !a.Deliver? || !PcOf(s, a.p).Checked? then None
    else
      var pc := s.pcs[a.p];
      Some(Call(a.p, pc.data,
                if !pc.data && IsMarked(c, a.p) && pc.seqNo > c.stopAfter.value[a.p]
                then c.stopAfter.value[a.p]
                else pc.seqNo))
  }

  /** A data callback with nothing in between, up to the call on the Dest and up to its end. */
  function CheckedAlone(c: Config, f: Feed, p: string, seqNo: nat): (s: State) {
    Next(c, State(f, map[], false), Check(p, true, seqNo))
  }

  function Callback(c: Config, f: Feed, p: string, seqNo: nat, ok: bool): (s: State) {
    Next(c, Next(c, Next(c, CheckedAlone(c, f, p, seqNo), Deliver(p, ok)), Update(p)), CloseSelf(p))
  }

  function CallbackCall(c: Config, f: Feed, p: string, seqNo: nat, ok: bool): (r: Option<Call>) {
    CallOf(c, CheckedAlone(c, f, p, seqNo), Deliver(p, ok))
  }

  ghost predicate IsRun(c: Config, states: seq<State>, actions: seq<Action>) {
    && |states| == |actions| + 1
    && states[0] == State(Feed(false, {}, 0, {}), map[], false)
    && forall i | 0 <= i < |actions| :: StepAt(c, states, actions, i)
  }

  ghost predicate StepAt(c: Config, states: seq<State>, actions: seq<Action>, i: nat)
    requires |states| == |actions| + 1 && i < |actions|
  {
    states[i + 1] == Next(c, states[i], actions[i])
  }

  // ---------------------------------------------------------------- the wait counter

  ghost predicate CountInv(c: Config, f: Feed) {
    && f.remaining == |f.active|
    && (forall v | v in f.active :: v in c.vbs)
    && (f.closed ==> f.active == {})
  }

  lemma CloseCounts(c: Config, f: Feed)
    requires CountInv(c, f)
    ensures CountInv(c, CloseOf(c, f))
  {
    assert f.active - VBuckets(c) == {};
  }

  lemma OpenCounts(c: Config, f: Feed, vb: nat, isNew: bool)
    requires CountInv(c, f) && vb in c.vbs
    ensures CountInv(c, OpenOf(f, vb, isNew))
  {
  }

  lemma CompleteCounts(c: Config, f: Feed, vb: nat)
    requires CountInv(c, f)
    ensures CountInv(c, CompleteOf(f, vb))
  {
  }

  lemma CountStep(c: Config, s: State, a: Action)
    requires CountInv(c, s.feed)
    ensures CountInv(c, Next(c, s, a).feed)
  {
    match a
    case Open(vb, isNew) => if vb in c.vbs { OpenCounts(c, s.feed, vb, isNew); }
    case End(vb) => CompleteCounts(c, s.feed, vb);
    case Close => CloseCounts(c, s.feed);
    case CloseSelf(_) => CloseCounts(c, s.feed);
    case _ =>
  }

  /** The wait counter is the number of active vbuckets, and stays zero after the feed has closed. */
  lemma {:induction false} CounterIsActive(c: Config, states: seq<State>, actions: seq<Action>, i: nat)
    requires IsRun(c, states, actions) && i < |states|
    ensures CountInv(c, states[i].feed)
  {
    if i > 0 {
      CounterIsActive(c, states, actions, i - 1);
      assert StepAt(c, states, actions, i - 1);
      CountStep(c, states[i - 1], actions[i - 1]);
    }
  }

  lemma {:induction false} StaysClosed(c: Config, states: seq<State>, actions: seq<Action>, i: nat, j: nat)
    requires IsRun(c, states, actions) && i <= j < |states| && states[i].feed.closed
    ensures states[j].feed.closed && states[j].feed.remaining == 0
  {
    CounterIsActive(c, states, actions, j);
    if i < j {
      StaysClosed(c, states, actions, i, j - 1);
      assert StepAt(c, states, actions, j - 1);
    }
  }

  // ---------------------------------------------------------------- marks

  ghost predicate AllReached(c: Config, f: Feed) {
    c.stopAfter.Some? && f.reached == c.stopAfter.value.Keys && f.reached != {}
  }

  ghost predicate MarkInv(c: Config, s: State) {
    && (forall p | p in s.feed.reached :: IsMarked(c, p))
    && (forall p | p in s.pcs && (s.pcs[p].Checked? || s.pcs[p].Delivered?) :: p !in s.feed.reached)
    && (AllReached(c, s.feed) <==> s.selfClosed || IsClosing(s))
    && (s.selfClosed ==> s.feed.closed)
  }

  ghost predicate IsClosing(s: State) {
    exists p :: p in s.pcs && s.pcs[p].Closing?
  }

  /** All are done exactly when this mark was the last. */
  lemma AllDoneIff(c: Config, f: Feed, p: string, seqNo: nat)
    requires forall q | q in f.reached :: IsMarked(c, q)
    ensures AllDone(c, f, p, seqNo) <==> GetsThere(c, p, seqNo) && AllReached(c, ReachOf(c, f, p, seqNo))
  {
    if GetsThere(c, p, seqNo) {
      SubsetSize(ReachOf(c, f, p, seqNo).reached, c.stopAfter.value.Keys);
    }
  }

  lemma UpdateKeepsMarks(c: Config, s: State, p: string)
    requires MarkInv(c, s) && PcOf(s, p).Delivered?
    ensures MarkInv(c, Next(c, s, Update(p)))
  {
    var s', seqNo := Next(c, s, Update(p)), s.pcs[p].seqNo;
    AllDoneIff(c, s.feed, p, seqNo);
    assert forall q | q != p && q in s.pcs :: s'.pcs[q] == s.pcs[q];
    if IsClosing(s) {
      var q :| q in s.pcs && s.pcs[q].Closing?;
      assert s'.pcs[q].Closing?;
    }
    assert AllDone(c, s.feed, p, seqNo) ==> s'.pcs[p].Closing?;
  }

  lemma CloseSelfKeepsMarks(c: Config, s: State, p: string)
    requires MarkInv(c, s) && PcOf(s, p).Closing?
    ensures MarkInv(c, Next(c, s, CloseSelf(p)))
  {
    assert IsClosing(s);
  }

  lemma MarkStep(c: Config, s: State, a: Action)
    requires MarkInv(c, s)
    ensures MarkInv(c, Next(c, s, a))
  {
    var s' := Next(c, s, a);
    match a
    case Update(p) => if PcOf(s, p).Delivered? { UpdateKeepsMarks(c, s, p); }
    case CloseSelf(p) => if PcOf(s, p).Closing? { CloseSelfKeepsMarks(c, s, p); }
    case Check(p, _, _) => if !PcOf(s, p).Closing? { SameClosing(s, s', p); }
    case Deliver(p, _) => if !PcOf(s, p).Closing? { SameClosing(s, s', p); }
    case _ => assert s'.pcs == s.pcs && s'.feed.reached == s.feed.reached;
  }

  lemma SameClosing(s: State, s': State, p: string)
    requires !PcOf(s, p).Closing? && !PcOf(s', p).Closing?
    requires forall q | q != p :: PcOf(s', q) == PcOf(s, q)
    ensures IsClosing(s) <==> IsClosing(s')
  {
    if IsClosing(s) {
      var q :| q in s.pcs && s.pcs[q].Closing?;
      assert PcOf(s', q) == PcOf(s, q);
    }
    if IsClosing(s') {
      var q :| q in s'.pcs && s'.pcs[q].Closing?;
      assert PcOf(s', q) == PcOf(s, q);
    }
  }

  /** Over every run: the feed goes to close itself exactly when there are marks and every marked
      partition has reached its own. */
  lemma {:induction false} ClosesItselfWhenAllReached(c: Config, states: seq<State>, actions: seq<Action>, i: nat)
    requires IsRun(c, states, actions) && i < |states|
    ensures MarkInv(c, states[i])
  {
    if i > 0 {
      ClosesItselfWhenAllReached(c, states, actions, i - 1);
      assert StepAt(c, states, actions, i - 1);
      MarkStep(c, states[i - 1], actions[i - 1]);
    }
  }

  lemma {:induction false} ReachedStays(c: Config, states: seq<State>, actions: seq<Action>, i: nat, j: nat, p: string)
    requires IsRun(c, states, actions) && i <= j < |states| && p in states[i].feed.reached
    ensures p in states[j].feed.reached
  {
    if i < j {
      ReachedStays(c, states, actions, i, j - 1, p);
      assert StepAt(c, states, actions, j - 1);
    }
  }

  /** No call reaches a partition's Dest once the partition has reached its mark, and no snapshot is
      announced past it. */
  lemma NoCallAfterMark(c: Config, states: seq<State>, actions: seq<Action>, i: nat, j: nat, p: string)
    requires IsRun(c, states, actions) && i <= j < |actions|
    ensures var call := CallOf(c, states[j], actions[j]);
            && (p in states[i].feed.reached && call.Some? ==> call.value.partition != p)
            && (call.Some? && !call.value.data && IsMarked(c, call.value.partition)
                ==> call.value.seqNo <= c.stopAfter.value[call.value.partition])
  {
    ClosesItselfWhenAllReached(c, states, actions, j);
    if p in states[i].feed.reached {
      ReachedStays(c, states, actions, i, j, p);
    }
  }

  /** The step is a data call that the Dest accepts, at or past the partition's mark. */
  predicate Crosses(c: Config, s: State, a: Action, p: string) {
    && a.Deliver? && a.ok && a.p == p
    && var call := CallOf(c, s, a);
       call.Some? && call.value.data && GetsThere(c, p, call.value.seqNo)
  }

  /** The partition is past its mark: that is recorded, or is what its callback does next. */
  predicate IsPast(c: Config, s: State, p: string) {
    p in s.feed.reached || (PcOf(s, p).Delivered? && GetsThere(c, p, PcOf(s, p).seqNo))
  }

  lemma {:induction false} PastStays(c: Config, states: seq<State>, actions: seq<Action>, i: nat, j: nat, p: string)
    requires IsRun(c, states, actions) && i < j < |states| && Crosses(c, states[i], actions[i], p)
    ensures IsPast(c, states[j], p)
  {
    assert StepAt(c, states, actions, j - 1);
    if i + 1 < j {
      PastStays(c, states, actions, i, j - 1, p);
      PastStep(c, states[j - 1], actions[j - 1], p);
    }
  }

  lemma PastStep(c: Config, s: State, a: Action, p: string)
    requires IsPast(c, s, p)
    ensures IsPast(c, Next(c, s, a), p)
  {
    match a
    case Check(_, _, _) =>
    case Deliver(_, _) =>
    case Update(_) =>
    case CloseSelf(_) =>
    case _ =>
  }

  /** In every run a partition gets at most one data call at or past its mark that succeeds: the one
      that reaches it. */
  lemma CrossesOnce(c: Config, states: seq<State>, actions: seq<Action>, i: nat, j: nat, p: string)
    requires IsRun(c, states, actions) && i < |actions| && j < |actions|
    requires Crosses(c, states[i], actions[i], p) && Crosses(c, states[j], actions[j], p)
    ensures i == j
  {
    var first, second := if i < j then i else j, if i < j then j else i;
    ClosesItselfWhenAllReached(c, states, actions, second);
    if first < second {
      PastStays(c, states, actions, first, second, p);
    }
  }
}
