/** The service manager's task list (ctl/manager.go): tasks that are prepared, started, reported on
    and cancelled, and the revision numbers that tell lists apart. */
module CtlMgr {
  import opened Common

  datatype TaskType = Prepared | Rebalance | BucketPause | BucketResume

  datatype TaskStatus = Running | Failed | CannotResume

  datatype Task = Task(rev: nat, id: string, kind: TaskType, status: TaskStatus, cancelable: bool, progress: real,
                       message: string)

  datatype Result = Ok | ErrConflict | ErrNotFound | ErrNotSupported | ErrFailed

  /** `issued` are all revision numbers handed out so far. */
  datatype Mgr = Mgr(revNumNext: nat, revNum: nat, tasks: seq<Task>, issued: seq<nat>)

  const INITIAL := Mgr(1, 0, [], [])

  const TOPOLOGY := {Prepared, Rebalance}
  const HIBERNATION := {BucketPause, BucketResume}
  const UNDERWAY := {Rebalance, BucketPause, BucketResume}
  const ALL := {Prepared, Rebalance, BucketPause, BucketResume}

  // ---------------------------------------------------------------- operations

  function RevAfter(m: Mgr, prev: nat): (rev: nat) {
    if prev + 1 < m.revNumNext then m.revNumNext else prev + 1
  }

  function Alloc(m: Mgr, prev: nat): (m': Mgr) {
    m.(revNumNext := RevAfter(m, prev) + 1, issued := m.issued + [RevAfter(m, prev)])
  }

  function WithTasks(m: Mgr, tasks: seq<Task>): (m': Mgr) {
    Alloc(m, m.revNum).(tasks := tasks, revNum := RevAfter(m, m.revNum))
  }

  predicate Conflicts(tasks: seq<Task>, kinds: set<TaskType>) {
    exists i | 0 <= i < |tasks| :: tasks[i].kind in kinds
  }

  function Without(tasks: seq<Task>, id: string): (r: seq<Task>) {
    if tasks == [] then []
    else Without(tasks[..|tasks| - 1], id) + if tasks[|tasks| - 1].id == id then [] else [tasks[|tasks| - 1]]
  }

  /** The answer to a cancellation: the first task of that id that cannot be cancelled decides. */
  function CancelResult(tasks: seq<Task>, id: string, rev: Option<nat>): (r: Result) {
    if tasks == [] then ErrNotFound else
    var before, last := CancelResult(tasks[..|tasks| - 1], id, rev), tasks[|tasks| - 1];
    if before == ErrConflict || before == ErrNotSupported || last.id != id then before
    else if rev.Some? && rev.value != last.rev then ErrConflict
    else if !last.cancelable then ErrNotSupported
    else Ok
  }

  function CancelOf(m: Mgr, id: string, rev: Option<nat>): (m': Mgr) {
    if CancelResult(m.tasks, id, rev) == Ok then WithTasks(m, Without(m.tasks, id)) else m
  }

  /** A progress report: whether there is still progress to tell, how far, and the errors. */
  datatype Report = Report(id: string, progressExists: bool, progress: real, errors: seq<string>)

  function Lines(errors: seq<string>): (message: string) {
    if errors == [] then ""
    else
      var before := Lines(errors[..|errors| - 1]);
      (if |before| > 0 then before + "\n" else before) + errors[|errors| - 1]
  }

  function Reported(t: Task, report: Report, rev: nat): (t': Task) {
    t.(rev := rev, progress := report.progress, message := Lines(report.errors),
       status := if |report.errors| > 0 then Failed else t.status)
  }

  /** A scan over tasks: the manager so far and the tasks of the next list. */
  datatype Scan = Scan(m: Mgr, tasks: seq<Task>, touched: bool, result: Result)

  function ReportScan(m: Mgr, tasks: seq<Task>, report: Report): (scan: Scan) {
    if tasks == [] then Scan(m, [], false, Ok) else
    var scan, last := ReportScan(m, tasks[..|tasks| - 1], report), tasks[|tasks| - 1];
    if last.id != report.id then scan.(tasks := scan.tasks + [last])
    else if report.progressExists || |report.errors| > 0 then
      scan.(m := Alloc(scan.m, 0), tasks := scan.tasks + [Reported(last, report, RevAfter(scan.m, 0))], touched := true)
    else scan.(touched := true)
  }

  function ReportOf(m: Mgr, report: Report): (m': Mgr) {
    var scan := ReportScan(m, m.tasks, report);
    if scan.touched then WithTasks(scan.m, scan.tasks) else m
  }

  /** A new task as its operation starts it. */
  function NewTask(rev: nat, id: string, kind: TaskType): (t: Task) {
    Task(rev, id, kind, Running, true, if kind == Prepared then 100.0 else 0.0, "")
  }

  /** `revOk` says whether the caller's topology revision is the current one, or not given. */
  function PrepareTopologyOf(m: Mgr, id: string, revOk: bool): (m': Mgr) {
    if !revOk || Conflicts(m.tasks, TOPOLOGY) then m
    else WithTasks(Alloc(m, 0), m.tasks + [NewTask(RevAfter(m, 0), "prepare:" + id, Prepared)])
  }

  /** Prepared tasks become the rebalance; `started` is what starting it answers. */
  function StartScan(m: Mgr, tasks: seq<Task>, id: string, started: Result): (scan: Scan) {
    if tasks == [] then Scan(m, [], false, Ok) else
    var scan, last := StartScan(m, tasks[..|tasks| - 1], id, started), tasks[|tasks| - 1];
    if scan.result != Ok then scan
    else if last.kind == Rebalance then scan.(result := ErrConflict)
    else if last.kind != Prepared then scan.(tasks := scan.tasks + [last])
    else if started != Ok then scan.(result := started)
    else
      var rev := RevAfter(scan.m, scan.m.revNum);
      scan.(m := Alloc(scan.m, scan.m.revNum), touched := true,
            tasks := scan.tasks + [NewTask(rev, "rebalance:" + id, Rebalance)])
  }

  function StartTopologyOf(m: Mgr, id: string, revOk: bool, started: Result): (m': Mgr) {
    if !revOk then m else
    var scan := StartScan(m, m.tasks, id, started);
    if scan.result != Ok || !scan.touched then m.(revNumNext := scan.m.revNumNext, issued := scan.m.issued)
    else WithTasks(scan.m, scan.tasks)
  }

  /** `prepared` says whether the node's own preparation succeeds. */
  function PreparePauseOf(m: Mgr, id: string, prepared: bool): (m': Mgr) {
    if Conflicts(m.tasks, ALL) || !prepared then m
    else WithTasks(Alloc(m, 0), m.tasks + [NewTask(RevAfter(m, 0), "prepare:" + id, Prepared)])
  }

  /** Here a number is allocated before the preparation can fail. `pathOk` is false for a dry run
      on an invalid remote path. */
  function PrepareResumeOf(m: Mgr, id: string, prepared: bool, pathOk: bool): (m': Mgr) {
    if Conflicts(m.tasks, ALL) then m
    else if !prepared then Alloc(m, 0)
    else
      var t := NewTask(RevAfter(m, 0), "prepare:" + id, Prepared);
      WithTasks(Alloc(m, 0),
                m.tasks + [if pathOk then t else t.(status := CannotResume, message := "invalid remote path")])
  }

  /** The list becomes the pause alone. */
  function PauseOf(m: Mgr, id: string, started: bool): (m': Mgr) {
    if Conflicts(m.tasks, UNDERWAY) || !started then m
    else WithTasks(Alloc(m, m.revNum), [NewTask(RevAfter(m, m.revNum), "pause:" + id, BucketPause)])
  }

  function ResumeOf(m: Mgr, id: string, started: bool): (m': Mgr) {
    if Conflicts(m.tasks, UNDERWAY) then m
    else if !started then Alloc(m, m.revNum)
    else WithTasks(Alloc(m, m.revNum), [NewTask(RevAfter(m, m.revNum), "resume:" + id, BucketResume)])
  }

  // ---------------------------------------------------------------- the manager

  class CtlMgr {
    var revNumNext: nat
    var revNum: nat
    var taskHandles: seq<Task>
    ghost var issued: seq<nat>

    ghost function State(): (m: Mgr)
      reads this
    {
      Mgr(revNumNext, revNum, taskHandles, issued)
    }

    constructor ()
      ensures State() == INITIAL
    {
      revNumNext, revNum, taskHandles, issued := 1, 0, [], [];
    }

    method AllocRevNum(prev: nat) returns (rv: nat)
      modifies this`revNumNext, this`issued
      ensures rv == RevAfter(old(State()), prev) && State() == Alloc(old(State()), prev)
    {
      rv := prev + 1;
      if rv < revNumNext {
        rv := revNumNext;
      }
      revNumNext := rv + 1;
      issued := issued + [rv];
    }

    method UpdateTasks(next: seq<Task>)
      modifies this
      ensures State() == WithTasks(old(State()), next)
    {
      taskHandles := next;
      revNum := AllocRevNum(revNum);
    }

    method FindConflict(kinds: set<TaskType>) returns (conflict: bool)
      ensures conflict == Conflicts(taskHandles, kinds)
    {
      for i := 0 to |taskHandles|
        invariant !Conflicts(taskHandles[..i], kinds)
      {
        if taskHandles[i].kind in kinds {
          return true;
        }
      }
      return false;
    }

    method CancelTask(id: string, rev: Option<nat>) returns (r: Result)
      modifies this
      ensures r == CancelResult(old(taskHandles), id, rev) && State() == CancelOf(old(State()), id, rev)
    {
      var next;
      r, next := ScanCancel(taskHandles, id, rev);
      if r == Ok {
        UpdateTasks(next);
      }
    }

    method HandleTaskProgress(report: Report)
      modifies this
      ensures State() == ReportOf(old(State()), report)
    {
      var updated, next := false, [];
      ghost var before, tasks := State(), taskHandles;
      for i := 0 to |taskHandles|
        invariant taskHandles == tasks
        invariant Scan(State(), next, updated, Ok) == ReportScan(before, tasks[..i], report)
      {
        var task := taskHandles[i];
        assert tasks[..i + 1][..i] == tasks[..i];
        if task.id == report.id {
          if report.progressExists || |report.errors| > 0 {
            var rev := AllocRevNum(0);
            var message := JoinErrors(report.errors);
            next := next + [task.(rev := rev, progress := report.progress, message := message,
                                  status := if |report.errors| > 0 then Failed else task.status)];
          }
          updated := true;
        } else {
          next := next + [task];
        }
      }
      assert tasks[..|tasks|] == tasks;
      if updated {
        UpdateTasks(next);
      } else {
        UntouchedReport(before, tasks, report);
      }
    }

    method PrepareTopologyChange(id: string, revOk: bool) returns (r: Result)
      modifies this
      ensures State() == PrepareTopologyOf(old(State()), id, revOk)
      ensures r == if !revOk || Conflicts(old(taskHandles), TOPOLOGY) then ErrConflict else Ok
    {
      if !revOk {
        return ErrConflict;
      }
      var conflict := FindConflict({Prepared, Rebalance});
      if conflict {
        return ErrConflict;
      }
      var rev := AllocRevNum(0);
      UpdateTasks(taskHandles + [NewTask(rev, "prepare:" + id, Prepared)]);
      return Ok;
    }

    method StartTopologyChange(id: string, revOk: bool, started: Result) returns (r: Result)
      modifies this
      ensures State() == StartTopologyOf(old(State()), id, revOk, started)
      ensures r == if !revOk then ErrConflict else
                   var scan := StartScan(old(State()), old(taskHandles), id, started);
                   if scan.result != Ok then scan.result else if scan.touched then Ok else ErrNotFound
    {
      if !revOk {
        return ErrConflict;
      }
      var began, next := false, [];
      ghost var before, tasks := State(), taskHandles;
      for i := 0 to |taskHandles|
        invariant taskHandles == tasks && revNum == old(revNum)
        invariant Scan(State(), next, began, Ok) == StartScan(before, tasks[..i], id, started)
      {
        var th := taskHandles[i];
        assert tasks[..i + 1][..i] == tasks[..i];
        if th.kind == Rebalance {
          StartDecided(before, tasks, i + 1, id, started);
          return ErrConflict;
        }
        if th.kind == Prepared {
          if started != Ok {
            StartDecided(before, tasks, i + 1, id, started);
            return started;
          }
          var rev := AllocRevNum(revNum);
          th := NewTask(rev, "rebalance:" + id, Rebalance);
          began := true;
        }
        next := next + [th];
      }
      assert tasks[..|tasks|] == tasks;
      if !began {
        return ErrNotFound;
      }
      UpdateTasks(next);
      return Ok;
    }

    method PreparePause(id: string, prepared: bool) returns (r: Result)
      modifies this
      ensures State() == PreparePauseOf(old(State()), id, prepared)
      ensures r == if Conflicts(old(taskHandles), ALL) then ErrConflict else if prepared then Ok else ErrFailed
    {
      var conflict := FindConflict({Prepared, BucketPause, BucketResume, Rebalance});
      if conflict {
        return ErrConflict;
      }
      if !prepared {
        return ErrFailed;
      }
      var rev := AllocRevNum(0);
      UpdateTasks(taskHandles + [NewTask(rev, "prepare:" + id, Prepared)]);
      return Ok;
    }

    method PrepareResume(id: string, prepared: bool, pathOk: bool) returns (r: Result)
      modifies this
      ensures State() == PrepareResumeOf(old(State()), id, prepared, pathOk)
      ensures r == if Conflicts(old(taskHandles), ALL) then ErrConflict else if prepared then Ok else ErrFailed
    {
      var conflict := FindConflict({Prepared, BucketPause, BucketResume, Rebalance});
      if conflict {
        return ErrConflict;
      }
      var rev := AllocRevNum(0);
      var task := NewTask(rev, "prepare:" + id, Prepared);
      if !prepared {
        return ErrFailed;
      }
      if !pathOk {
        task := task.(status := CannotResume, message := "invalid remote path");
      }
      UpdateTasks(taskHandles + [task]);
      return Ok;
    }

    method Pause(id: string, started: bool) returns (r: Result)
      modifies this
      ensures State() == PauseOf(old(State()), id, started)
      ensures r == if Conflicts(old(taskHandles), UNDERWAY) then ErrConflict else if started then Ok else ErrFailed
    {
      var conflict := FindConflict({Rebalance, BucketPause, BucketResume});
      if conflict {
        return ErrConflict;
      }
      if !started {
        return ErrFailed;
      }
      var rev := AllocRevNum(revNum);
      UpdateTasks([NewTask(rev, "pause:" + id, BucketPause)]);
      return Ok;
    }

    method Resume(id: string, started: bool) returns (r: Result)
      modifies this
      ensures State() == ResumeOf(old(State()), id, started)
      ensures r == if Conflicts(old(taskHandles), UNDERWAY) then ErrConflict else if started then Ok else ErrFailed
    {
      var conflict := FindConflict({Rebalance, BucketPause, BucketResume});
      if conflict {
        return ErrConflict;
      }
      var rev := AllocRevNum(revNum);
      if !started {
        return ErrFailed;
      }
      UpdateTasks([NewTask(rev, "resume:" + id, BucketResume)]);
      return Ok;
    }
  }

  /** The loop of CancelTask: its answer, and on success the tasks that stay. */
  method ScanCancel(tasks: seq<Task>, id: string, rev: Option<nat>) returns (r: Result, next: seq<Task>)
    ensures r == CancelResult(tasks, id, rev) && (r == Ok ==> next == Without(tasks, id))
  {
    var canceled := false;
    next := [];
    for i := 0 to |tasks|
      invariant next == Without(tasks[..i], id)
      invariant CancelResult(tasks[..i], id, rev) == if canceled then Ok else ErrNotFound
    {
      var task := tasks[i];
      CancelNext(tasks, i, id, rev);
      if task.id == id {
        if rev.Some? && rev.value != task.rev {
          CancelDecided(tasks, i + 1, id, rev);
          return ErrConflict, [];
        }
        if !task.cancelable {
          CancelDecided(tasks, i + 1, id, rev);
          return ErrNotSupported, [];
        }
        canceled := true;
      } else {
        next := next + [task];
      }
    }
    assert tasks[..|tasks|] == tasks;
    r := if canceled then Ok else ErrNotFound;
  }

  /** One more task, after tasks that did not decide against the cancellation. */
  lemma {:induction false} CancelNext(tasks: seq<Task>, i: nat, id: string, rev: Option<nat>)
    requires i < |tasks|
    requires CancelResult(tasks[..i], id, rev) == Ok || CancelResult(tasks[..i], id, rev) == ErrNotFound
    ensures Without(tasks[..i + 1], id) ==
            if tasks[i].id == id then Without(tasks[..i], id) else Without(tasks[..i], id) + [tasks[i]]
    ensures CancelResult(tasks[..i + 1], id, rev) ==
            if tasks[i].id != id then CancelResult(tasks[..i], id, rev)
            else if rev.Some? && rev.value != tasks[i].rev then ErrConflict
            else if !tasks[i].cancelable then ErrNotSupported
            else Ok
  {
    assert tasks[..i + 1][..i] == tasks[..i] && tasks[..i + 1][i] == tasks[i];
  }

  /** An error stands, whatever tasks follow. */
  lemma {:induction false} CancelDecided(tasks: seq<Task>, i: nat, id: string, rev: Option<nat>)
    requires i <= |tasks|
    requires CancelResult(tasks[..i], id, rev) == ErrConflict || CancelResult(tasks[..i], id, rev) == ErrNotSupported
    ensures CancelResult(tasks, id, rev) == CancelResult(tasks[..i], id, rev)
    decreases |tasks|
  {
    if i < |tasks| {
      var init := tasks[..|tasks| - 1];
      assert init[..i] == tasks[..i];
      CancelDecided(init, i, id, rev);
    } else {
      assert tasks[..i] == tasks;
    }
  }

  method JoinErrors(errors: seq<string>) returns (message: string)
    ensures message == Lines(errors)
  {
    message := "";
    for i := 0 to |errors|
      invariant message == Lines(errors[..i])
    {
      assert errors[..i + 1][..i] == errors[..i];
      if |message| > 0 {
        message := message + "\n";
      }
      message := message + errors[i];
    }
    assert errors[..|errors|] == errors;
  }

  lemma {:induction false} UntouchedReport(m: Mgr, tasks: seq<Task>, report: Report)
    requires !ReportScan(m, tasks, report).touched
    ensures ReportScan(m, tasks, report).m == m
  {
    if tasks != [] {
      UntouchedReport(m, tasks[..|tasks| - 1], report);
    }
  }

  lemma {:induction false} StartDecided(m: Mgr, tasks: seq<Task>, i: nat, id: string, started: Result)
    requires i <= |tasks| && StartScan(m, tasks[..i], id, started).result != Ok
    ensures StartScan(m, tasks, id, started) == StartScan(m, tasks[..i], id, started)
    decreases |tasks|
  {
    if i < |tasks| {
      var init := tasks[..|tasks| - 1];
      assert init[..i] == tasks[..i];
      StartDecided(m, init, i, id, started);
    } else {
      assert tasks[..i] == tasks;
    }
  }

  // ---------------------------------------------------------------- runs

  datatype Action =
    | Cancel(id: string, rev: Option<nat>)
    | Progress(report: Report)
    | PrepareTopology(id: string, revOk: bool)
    | StartTopology(id: string, revOk: bool, began: Result)
    | PreparePause(id: string, prepared: bool)
    | PrepareResume(id: string, prepared: bool, pathOk: bool)
    | Pause(id: string, started: bool)
    | Resume(id: string, started: bool)

  function Next(m: Mgr, a: Action): (m': Mgr) {
    match a
    case Cancel(id, rev) => CancelOf(m, id, rev)
    case Progress(report) => ReportOf(m, report)
    case PrepareTopology(id, revOk) => PrepareTopologyOf(m, id, revOk)
    case StartTopology(id, revOk, began) => StartTopologyOf(m, id, revOk, began)
    case PreparePause(id, prepared) => PreparePauseOf(m, id, prepared)
    case PrepareResume(id, prepared, pathOk) => PrepareResumeOf(m, id, prepared, pathOk)
    case Pause(id, started) => PauseOf(m, id, started)
    case Resume(id, started) => ResumeOf(m, id, started)
  }

  ghost predicate IsRun(states: seq<Mgr>, actions: seq<Action>) {
    && |states| == |actions| + 1
    && states[0] == INITIAL
    && forall i | 0 <= i < |actions| :: StepAt(states, actions, i)
  }

  ghost predicate StepAt(states: seq<Mgr>, actions: seq<Action>, i: nat)
    requires |states| == |actions| + 1 && i < |actions|
  {
    states[i + 1] == Next(states[i], actions[i])
  }

  // ---------------------------------------------------------------- revision numbers

  /** The numbers handed out increase, and all are below the next one. */
  ghost predicate RevInv(m: Mgr) {
    && (forall i, j | 0 <= i < j < |m.issued| :: m.issued[i] < m.issued[j])
    && (forall i | 0 <= i < |m.issued| :: m.issued[i] < m.revNumNext)
    && m.revNum < m.revNumNext
  }

  /** `m'` came from `m` by allocations alone. */
  ghost predicate Allocates(m: Mgr, m': Mgr) {
    RevInv(m') && m.issued <= m'.issued && m'.revNum == m.revNum && m'.tasks == m.tasks && m.revNumNext <= m'.revNumNext
  }

  lemma AllocKeeps(m: Mgr, prev: nat)
    requires RevInv(m)
    ensures Allocates(m, Alloc(m, prev))
  {
  }

  lemma {:induction false} AllocatesTrans(a: Mgr, b: Mgr, c: Mgr)
    requires Allocates(a, b) && Allocates(b, c)
    ensures Allocates(a, c)
  {
  }

  lemma {:induction false} ReportAllocates(m: Mgr, tasks: seq<Task>, report: Report)
    requires RevInv(m)
    ensures Allocates(m, ReportScan(m, tasks, report).m)
  {
    if tasks != [] {
      var scan := ReportScan(m, tasks[..|tasks| - 1], report);
      ReportAllocates(m, tasks[..|tasks| - 1], report);
      AllocKeeps(scan.m, 0);
      AllocatesTrans(m, scan.m, Alloc(scan.m, 0));
    }
  }

  lemma {:induction false} StartAllocates(m: Mgr, tasks: seq<Task>, id: string, started: Result)
    requires RevInv(m)
    ensures Allocates(m, StartScan(m, tasks, id, started).m)
  {
    if tasks != [] {
      var scan := StartScan(m, tasks[..|tasks| - 1], id, started);
      StartAllocates(m, tasks[..|tasks| - 1], id, started);
      AllocKeeps(scan.m, scan.m.revNum);
      AllocatesTrans(m, scan.m, Alloc(scan.m, scan.m.revNum));
    }
  }

  /** A step keeps the numbers, and the list, or gives the list a new number. */
  ghost predicate Renumbers(m: Mgr, m': Mgr) {
    && RevInv(m') && m.issued <= m'.issued
    && (m'.revNum > m.revNum || (m'.revNum == m.revNum && m'.tasks == m.tasks))
  }

  lemma WithTasksRenumbers(m: Mgr, m1: Mgr, tasks: seq<Task>)
    requires RevInv(m) && Allocates(m, m1)
    ensures Renumbers(m, WithTasks(m1, tasks))
  {
    AllocKeeps(m1, m1.revNum);
  }

  lemma StepRenumbers(m: Mgr, a: Action)
    requires RevInv(m)
    ensures Renumbers(m, Next(m, a))
  {
    AllocKeeps(m, 0);
    AllocKeeps(m, m.revNum);
    assert Allocates(m, m);
    match a
    case Cancel(id, _) => WithTasksRenumbers(m, m, Without(m.tasks, id));
    case Progress(report) =>
      var scan := ReportScan(m, m.tasks, report);
      ReportAllocates(m, m.tasks, report);
      WithTasksRenumbers(m, scan.m, scan.tasks);
    case StartTopology(id, _, began) =>
      var scan := StartScan(m, m.tasks, id, began);
      StartAllocates(m, m.tasks, id, began);
      WithTasksRenumbers(m, scan.m, scan.tasks);
    case PrepareTopology(id, _) =>
      WithTasksRenumbers(m, Alloc(m, 0), m.tasks + [NewTask(RevAfter(m, 0), "prepare:" + id, Prepared)]);
    case PreparePause(id, _) =>
      WithTasksRenumbers(m, Alloc(m, 0), m.tasks + [NewTask(RevAfter(m, 0), "prepare:" + id, Prepared)]);
    case PrepareResume(_, _, _) =>
      WithTasksRenumbers(m, Alloc(m, 0), Next(m, a).tasks);
    case Pause(id, _) =>
      WithTasksRenumbers(m, Alloc(m, m.revNum), [NewTask(RevAfter(m, m.revNum), "pause:" + id, BucketPause)]);
    case Resume(id, _) =>
      WithTasksRenumbers(m, Alloc(m, m.revNum), [NewTask(RevAfter(m, m.revNum), "resume:" + id, BucketResume)]);
  }

  /** Every revision number handed out in a run exceeds all earlier ones. */
  lemma {:induction false} RevsIncrease(states: seq<Mgr>, actions: seq<Action>, i: nat)
    requires IsRun(states, actions) && i < |states|
    ensures RevInv(states[i])
  {
    if i > 0 {
      RevsIncrease(states, actions, i - 1);
      assert StepAt(states, actions, i - 1);
      StepRenumbers(states[i - 1], actions[i - 1]);
    }
  }

  /** Numbers are only added, and two lists of a run that have the same number are the same. */
  lemma {:induction false} SameRevSameList(states: seq<Mgr>, actions: seq<Action>, i: nat, j: nat)
    requires IsRun(states, actions) && i <= j < |states|
    ensures states[i].issued <= states[j].issued && states[i].revNum <= states[j].revNum
    ensures states[i].revNum == states[j].revNum ==> states[i].tasks == states[j].tasks
  {
    if i < j {
      SameRevSameList(states, actions, i, j - 1);
      RevsIncrease(states, actions, j - 1);
      assert StepAt(states, actions, j - 1);
      StepRenumbers(states[j - 1], actions[j - 1]);
    }
  }

  // ---------------------------------------------------------------- what the list may hold

  function Count(tasks: seq<Task>, kinds: set<TaskType>): (n: nat) {
    if tasks == [] then 0
    else Count(tasks[..|tasks| - 1], kinds) + if tasks[|tasks| - 1].kind in kinds then 1 else 0
  }

  lemma {:induction false} CountAppend(tasks: seq<Task>, t: Task, kinds: set<TaskType>)
    ensures Count(tasks + [t], kinds) == Count(tasks, kinds) + if t.kind in kinds then 1 else 0
  {
    assert (tasks + [t])[..|tasks|] == tasks;
  }

  lemma {:induction false} NoConflictNoCount(tasks: seq<Task>, kinds: set<TaskType>, within: set<TaskType>)
    requires !Conflicts(tasks, kinds) && within <= kinds
    ensures Count(tasks, within) == 0
  {
    if tasks != [] {
      var n := |tasks| - 1;
      assert tasks[n].kind !in kinds;
      assert forall i | 0 <= i < n :: tasks[..n][i] == tasks[i];
      NoConflictNoCount(tasks[..n], kinds, within);
    }
  }

  lemma {:induction false} CountWithout(tasks: seq<Task>, id: string, kinds: set<TaskType>)
    ensures Count(Without(tasks, id), kinds) <= Count(tasks, kinds)
  {
    if tasks != [] {
      var n := |tasks| - 1;
      CountWithout(tasks[..n], id, kinds);
      CountAppend(Without(tasks[..n], id), tasks[n], kinds);
      assert Without(tasks[..n], id) + [] == Without(tasks[..n], id);
    }
  }

  lemma {:induction false} CountReported(m: Mgr, tasks: seq<Task>, report: Report, kinds: set<TaskType>)
    ensures Count(ReportScan(m, tasks, report).tasks, kinds) <= Count(tasks, kinds)
  {
    if tasks != [] {
      var n := |tasks| - 1;
      CountReported(m, tasks[..n], report, kinds);
      var scan := ReportScan(m, tasks[..n], report);
      CountAppend(scan.tasks, tasks[n], kinds);
      CountAppend(scan.tasks, Reported(tasks[n], report, RevAfter(scan.m, 0)), kinds);
    }
  }

  lemma {:induction false} CountStarted(m: Mgr, tasks: seq<Task>, id: string, started: Result, kinds: set<TaskType>)
    requires Prepared in kinds <==> Rebalance in kinds
    ensures Count(StartScan(m, tasks, id, started).tasks, kinds) <= Count(tasks, kinds)
  {
    if tasks != [] {
      var n := |tasks| - 1;
      CountStarted(m, tasks[..n], id, started, kinds);
      var scan := StartScan(m, tasks[..n], id, started);
      if scan.result == Ok && tasks[n].kind != Rebalance {
        if tasks[n].kind != Prepared {
          CountAppend(scan.tasks, tasks[n], kinds);
        } else if started == Ok {
          CountAppend(scan.tasks, NewTask(RevAfter(scan.m, scan.m.revNum), "rebalance:" + id, Rebalance), kinds);
        }
      }
    }
  }

  /** At most one task is prepared or rebalancing, and at most one pauses or resumes. */
  ghost predicate ListInv(tasks: seq<Task>) {
    Count(tasks, TOPOLOGY) <= 1 && Count(tasks, HIBERNATION) <= 1
  }

  lemma PreparedKeepsList(tasks: seq<Task>, t: Task, kinds: set<TaskType>)
    requires ListInv(tasks) && t.kind == Prepared && !Conflicts(tasks, kinds) && TOPOLOGY <= kinds
    ensures ListInv(tasks + [t])
  {
    NoConflictNoCount(tasks, kinds, TOPOLOGY);
    CountAppend(tasks, t, TOPOLOGY);
    CountAppend(tasks, t, HIBERNATION);
  }

  lemma SingleTask(t: Task)
    ensures ListInv([t])
  {
    CountAppend([], t, TOPOLOGY);
    CountAppend([], t, HIBERNATION);
    assert [] + [t] == [t];
  }

  lemma CancelKeepsList(m: Mgr, id: string, rev: Option<nat>)
    requires ListInv(m.tasks)
    ensures ListInv(CancelOf(m, id, rev).tasks)
  {
    CountWithout(m.tasks, id, TOPOLOGY);
    CountWithout(m.tasks, id, HIBERNATION);
  }

  lemma ReportKeepsList(m: Mgr, report: Report)
    requires ListInv(m.tasks)
    ensures ListInv(ReportOf(m, report).tasks)
  {
    CountReported(m, m.tasks, report, TOPOLOGY);
    CountReported(m, m.tasks, report, HIBERNATION);
  }

  lemma StartKeepsList(m: Mgr, id: string, revOk: bool, began: Result)
    requires ListInv(m.tasks)
    ensures ListInv(StartTopologyOf(m, id, revOk, began).tasks)
  {
    CountStarted(m, m.tasks, id, began, TOPOLOGY);
    CountStarted(m, m.tasks, id, began, HIBERNATION);
  }

  lemma PrepareKeepsList(m: Mgr, id: string, revOk: bool, pathOk: bool)
    requires ListInv(m.tasks)
    ensures ListInv(PrepareTopologyOf(m, id, revOk).tasks)
    ensures ListInv(PreparePauseOf(m, id, revOk).tasks)
    ensures ListInv(PrepareResumeOf(m, id, revOk, pathOk).tasks)
  {
    var t := NewTask(RevAfter(m, 0), "prepare:" + id, Prepared);
    if !Conflicts(m.tasks, TOPOLOGY) {
      PreparedKeepsList(m.tasks, t, TOPOLOGY);
    }
    if !Conflicts(m.tasks, ALL) {
      PreparedKeepsList(m.tasks, t, ALL);
      PreparedKeepsList(m.tasks, t.(status := CannotResume, message := "invalid remote path"), ALL);
    }
  }

  lemma ListStep(m: Mgr, a: Action)
    requires ListInv(m.tasks)
    ensures ListInv(Next(m, a).tasks)
  {
    match a
    case Cancel(id, rev) => CancelKeepsList(m, id, rev);
    case Progress(report) => ReportKeepsList(m, report);
    case StartTopology(id, revOk, began) => StartKeepsList(m, id, revOk, began);
    case PrepareTopology(id, revOk) => PrepareKeepsList(m, id, revOk, true);
    case PreparePause(id, prepared) => PrepareKeepsList(m, id, prepared, true);
    case PrepareResume(id, prepared, pathOk) => PrepareKeepsList(m, id, prepared, pathOk);
    case Pause(id, _) => SingleTask(NewTask(RevAfter(m, m.revNum), "pause:" + id, BucketPause));
    case Resume(id, _) => SingleTask(NewTask(RevAfter(m, m.revNum), "resume:" + id, BucketResume));
  }

  lemma {:induction false} AtMostOneOfEach(states: seq<Mgr>, actions: seq<Action>, i: nat)
    requires IsRun(states, actions) && i < |states|
    ensures ListInv(states[i].tasks)
  {
    if i > 0 {
      AtMostOneOfEach(states, actions, i - 1);
      assert StepAt(states, actions, i - 1);
      ListStep(states[i - 1], actions[i - 1]);
    }
  }

  // ---------------------------------------------------------------- a rebalance beside a pause

  /** A topology change and a pause or resume are in the list together. */
  predicate IsMixed(m: Mgr) {
    Conflicts(m.tasks, TOPOLOGY) && Conflicts(m.tasks, HIBERNATION)
  }

  /** A topology change is prepared although a bucket pauses or resumes. */
  predicate Mixes(m: Mgr, a: Action) {
    a.PrepareTopology? && a.revOk && Conflicts(m.tasks, HIBERNATION) && !Conflicts(m.tasks, TOPOLOGY)
  }

  lemma {:induction false} CountIffConflicts(tasks: seq<Task>, kinds: set<TaskType>)
    ensures Count(tasks, kinds) > 0 <==> Conflicts(tasks, kinds)
  {
    if tasks != [] {
      var n := |tasks| - 1;
      CountIffConflicts(tasks[..n], kinds);
      assert forall i | 0 <= i < n :: tasks[..n][i] == tasks[i];
    }
  }

  /** A list with no more tasks of either sort is not mixed if the old one is not. */
  lemma FewerNotMixed(m: Mgr, tasks: seq<Task>)
    requires !IsMixed(m)
    requires Count(tasks, TOPOLOGY) <= Count(m.tasks, TOPOLOGY)
             && Count(tasks, HIBERNATION) <= Count(m.tasks, HIBERNATION)
    ensures !(Conflicts(tasks, TOPOLOGY) && Conflicts(tasks, HIBERNATION))
  {
    CountIffConflicts(m.tasks, TOPOLOGY);
    CountIffConflicts(m.tasks, HIBERNATION);
    CountIffConflicts(tasks, TOPOLOGY);
    CountIffConflicts(tasks, HIBERNATION);
  }

  lemma {:induction false} ConflictsAppend(tasks: seq<Task>, t: Task, kinds: set<TaskType>)
    ensures Conflicts(tasks + [t], kinds) <==> Conflicts(tasks, kinds) || t.kind in kinds
  {
    var next := tasks + [t];
    assert next[|tasks|] == t;
    if i :| 0 <= i < |tasks| && tasks[i].kind in kinds {
      assert next[i] == tasks[i];
    }
  }

  lemma ConflictsWithin(tasks: seq<Task>, kinds: set<TaskType>, all: set<TaskType>)
    requires kinds <= all && Conflicts(tasks, kinds)
    ensures Conflicts(tasks, all)
  {
  }

  lemma MixStep(m: Mgr, a: Action)
    requires !IsMixed(m)
    ensures IsMixed(Next(m, a)) <==> Mixes(m, a)
  {
    var tasks := Next(m, a).tasks;
    match a
    case Cancel(id, _) =>
      CountWithout(m.tasks, id, TOPOLOGY);
      CountWithout(m.tasks, id, HIBERNATION);
      FewerNotMixed(m, Without(m.tasks, id));
    case Progress(report) =>
      CountReported(m, m.tasks, report, TOPOLOGY);
      CountReported(m, m.tasks, report, HIBERNATION);
      FewerNotMixed(m, ReportScan(m, m.tasks, report).tasks);
    case StartTopology(id, _, began) =>
      CountStarted(m, m.tasks, id, began, TOPOLOGY);
      CountStarted(m, m.tasks, id, began, HIBERNATION);
      FewerNotMixed(m, StartScan(m, m.tasks, id, began).tasks);
    case PrepareTopology(id, _) =>
      var t := NewTask(RevAfter(m, 0), "prepare:" + id, Prepared);
      ConflictsAppend(m.tasks, t, TOPOLOGY);
      ConflictsAppend(m.tasks, t, HIBERNATION);
    case PreparePause(_, _) => PreparedNotMixed(m, tasks);
    case PrepareResume(_, _, _) => PreparedNotMixed(m, tasks);
    case Pause(_, _) =>
    case Resume(_, _) =>
  }

  lemma PreparedNotMixed(m: Mgr, tasks: seq<Task>)
    requires !IsMixed(m)
    requires tasks == m.tasks
             || (!Conflicts(m.tasks, ALL) && exists t :: tasks == m.tasks + [t] && t.kind == Prepared)
    ensures !(Conflicts(tasks, TOPOLOGY) && Conflicts(tasks, HIBERNATION))
  {
    if tasks != m.tasks {
      var t :| tasks == m.tasks + [t] && t.kind == Prepared;
      ConflictsAppend(m.tasks, t, HIBERNATION);
      if Conflicts(m.tasks, HIBERNATION) {
        ConflictsWithin(m.tasks, HIBERNATION, ALL);
      }
    }
  }

  /** In a run a topology change and a pause or resume are in the list together at some point, if and
      only if at some point a topology change is prepared while a bucket pauses or resumes. The other
      operations refuse to run beside each other; this one does not look. */
  lemma {:induction false} MixedIff(states: seq<Mgr>, actions: seq<Action>)
    requires IsRun(states, actions)
    ensures (exists i :: 0 <= i < |states| && IsMixed(states[i])) <==>
            exists i :: 0 <= i < |actions| && Mixes(states[i], actions[i])
  {
    if i :| 0 <= i < |actions| && Mixes(states[i], actions[i]) {
      assert StepAt(states, actions, i);
      MixStep(states[i], actions[i]);
      assert IsMixed(states[i + 1]);
    }
    if i :| 0 <= i < |states| && IsMixed(states[i]) {
      var k := FirstMix(states, actions, i);
    }
  }

  lemma {:induction false} FirstMix(states: seq<Mgr>, actions: seq<Action>, i: nat) returns (k: nat)
    requires IsRun(states, actions) && i < |states| && IsMixed(states[i])
    ensures k < |actions| && Mixes(states[k], actions[k])
  {
    assert StepAt(states, actions, i - 1);
    if IsMixed(states[i - 1]) {
      k := FirstMix(states, actions, i - 1);
    } else {
      MixStep(states[i - 1], actions[i - 1]);
      k := i - 1;
    }
  }

  lemma StartBeside(m: Mgr, id: string)
    requires |m.tasks| == 2 && m.tasks[0].kind == BucketPause && m.tasks[1].kind == Prepared
    ensures var tasks := StartTopologyOf(m, id, true, Ok).tasks;
            |tasks| == 2 && tasks[0] == m.tasks[0] && tasks[1].kind == Rebalance
  {
    var one := m.tasks[..1];
    assert one[..0] == [];
    assert StartScan(m, one, id, Ok) == Scan(m, one, false, Ok);
  }

  lemma PrepareBeside(m: Mgr, id: string)
    requires |m.tasks| == 1 && m.tasks[0].kind == BucketPause
    ensures var tasks := PrepareTopologyOf(m, id, true).tasks;
            |tasks| == 2 && tasks[0] == m.tasks[0] && tasks[1].kind == Prepared
  {
  }

  /** A rebalance is started beside a pause. */
  lemma RebalanceBesidePause() returns (states: seq<Mgr>, actions: seq<Action>)
    ensures IsRun(states, actions)
    ensures actions == [Pause("b", true), PrepareTopology("c", true), StartTopology("c", true, Ok)]
    ensures |states[3].tasks| == 2 && states[3].tasks[0].kind == BucketPause && states[3].tasks[1].kind == Rebalance
  {
    actions := [Pause("b", true), PrepareTopology("c", true), StartTopology("c", true, Ok)];
    var s1 := Next(INITIAL, actions[0]);
    PrepareBeside(s1, "c");
    var s2 := Next(s1, actions[1]);
    StartBeside(s2, "c");
    states := [INITIAL, s1, s2, Next(s2, actions[2])];
  }
}
