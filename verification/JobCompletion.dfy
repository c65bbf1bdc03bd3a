/** Exactly which jobs can still complete, whatever crashed and whoever else is waiting, and
    what that says of cancels that come late and of paths that were lost. */
module JobCompletion {
  import opened Wrappers
  import opened Jobs
  import opened JobSystem
  import opened JobTheorems
  import JobManager

  /** Some run without a retry of this job ends with it completed. */
  ghost predicate CanComplete(c: Config, s: State, j: JobId) {
    exists actions: seq<Action>, t: State :: CompletesBy(c, s, j, actions, t)
  }

  ghost predicate CompletesBy(c: Config, s: State, j: JobId, actions: seq<Action>, t: State) {
    Runs(c, s, actions, t) && NoRetry(actions, j) && j in t.rows && t.rows[j].status == Completed
  }

  /** There is nothing to import, or the path to import from is on record, or the organize
      step that finds it out is still to come. */
  predicate ImportCanWork(row: Row) {
    row.media == Other || row.hasPath || row.done < IMPORT
  }

  /** The run itself can still complete: no cancel that it will look at, and not about to
      commit the organize step without the path that its import needs. */
  predicate RunCanComplete(row: Row, task: Task, cancel: bool) {
    if task.pc.Ending? then task.pc.status == Completed
    else
      && (cancel ==> PastLastCheck(task.pc))
      && (row.media == Other || task.hasPath || (row.done < IMPORT && task.pc != Saving(ORGANIZE, NoFields)))
  }

  /** A crash now would let recovery queue the job again, for a run that can complete. */
  predicate RestartCanComplete(c: Config, row: Row) {
    c.autoResume && !row.cancelRequested && ImportCanWork(row)
  }

  predicate Hopeful(c: Config, v: View) {
    match v.row.status
    case Completed => true
    case Failed => false
    case Cancelled => false
    case Queued => ImportCanWork(v.row)
    case _ =>
      || (v.task.Some? && v.cancel.Some? && RunCanComplete(v.row, v.task.value, v.cancel.value))
      || RestartCanComplete(c, v.row)
  }

  // ----------------------------------------------------------------- hope lost stays lost

  lemma StepsKeepHopeless(c: Config, v: View, a: JobAction)
    requires JobInv(v, true) && !Hopeful(c, v) && Local(v, a).Some?
    requires a.Check? || a.LoopEnd? || a.Acquire? || a.CheckHeld? || a.Announce?
    ensures !Hopeful(c, Local(v, a).value)
  {
  }

  lemma DecisionsKeepHopeless(c: Config, v: View, a: JobAction)
    requires JobInv(v, true) && !Hopeful(c, v) && Local(v, a).Some? && a.Decide?
    ensures !Hopeful(c, Local(v, a).value)
  {
  }

  lemma WorkKeepsHopeless(c: Config, v: View, a: JobAction)
    requires JobInv(v, true) && !Hopeful(c, v) && Local(v, a).Some?
    requires a.SpawnPost? || a.WritePost? || a.WorkDone? || a.WorkCancelled? || a.LockApp? || a.UnlockApp? || a.ImportDone?
    ensures !Hopeful(c, Local(v, a).value)
  {
  }

  lemma WritesKeepHopeless(c: Config, v: View, a: JobAction)
    requires JobInv(v, true) && !Hopeful(c, v) && Local(v, a).Some?
    requires a.Fail? || a.Save? || a.Terminate? || a.Claim? || a.Cancel?
    ensures !Hopeful(c, Local(v, a).value)
  {
  }

  lemma LocalKeepsHopeless(c: Config, v: View, a: JobAction)
    requires JobInv(v, true) && !Hopeful(c, v) && Local(v, a).Some? && a != Retry && a != RetryImport
    ensures !Hopeful(c, Local(v, a).value)
  {
    hide JobInv, Hopeful, Local;
    match a
    case SpawnPost => WorkKeepsHopeless(c, v, a);
    case WritePost => WorkKeepsHopeless(c, v, a);
    case WorkDone => WorkKeepsHopeless(c, v, a);
    case WorkCancelled => WorkKeepsHopeless(c, v, a);
    case LockApp => WorkKeepsHopeless(c, v, a);
    case UnlockApp => WorkKeepsHopeless(c, v, a);
    case ImportDone(_) => WorkKeepsHopeless(c, v, a);
    case Fail => WritesKeepHopeless(c, v, a);
    case Save => WritesKeepHopeless(c, v, a);
    case Terminate => WritesKeepHopeless(c, v, a);
    case Claim => WritesKeepHopeless(c, v, a);
    case Cancel => WritesKeepHopeless(c, v, a);
    case Decide(_) => DecisionsKeepHopeless(c, v, a);
    case _ => StepsKeepHopeless(c, v, a);
  }

  lemma CrashKeepsHopeless(c: Config, v: View)
    requires !Hopeful(c, v)
    ensures !Hopeful(c, Crashed(v))
  {
  }

  lemma RecoverKeepsHopeless(c: Config, v: View)
    requires !Hopeful(c, v)
    ensures !Hopeful(c, View(Recovered(v.row, c.autoResume), None, None))
  {
  }

  lemma ActionKeepsHopeless(c: Config, s: State, a: Action, j: JobId)
    requires Inv(c, s) && Apply(c, s, a).Some? && j in s.rows && !Hopeful(c, ViewOf(s, j))
    requires a != On(j, Retry) && a != On(j, RetryImport)
    ensures var t := Apply(c, s, a).value; j in t.rows && !Hopeful(c, ViewOf(t, j))
  {
    ActionOnRow(c, s, a, j);
    ViewInvariant(c, s, j);
    var v := ViewOf(s, j);
    ClaimIsLocal(v);
    hide Apply, Inv, Local, JobInv, Hopeful, Claimed, Recovered;
    match a
    case On(i, step) => if i == j { LocalKeepsHopeless(c, v, step); }
    case ClaimNext(i) => if i == j { LocalKeepsHopeless(c, v, Claim); }
    case Crash => CrashKeepsHopeless(c, v);
    case Recover => RecoverKeepsHopeless(c, v);
    case _ =>
  }

  lemma ClaimIsLocal(v: View)
    ensures v.row.status == Queued ==> Local(v, Claim) == Some(Claimed(v))
  {
  }

  lemma {:induction false} HopelessNeverCompletes(c: Config, s: State, actions: seq<Action>, t: State, j: JobId)
    requires Inv(c, s) && Runs(c, s, actions, t) && NoRetry(actions, j) && j in s.rows && !Hopeful(c, ViewOf(s, j))
    ensures j in t.rows && t.rows[j].status != Completed
    decreases |actions|
  {
    hide Apply;
    if actions != [] {
      hide Inv, Hopeful, Runs;
      RunsUnfold(c, s, actions, t);
      assert actions[0] != On(j, Retry) && actions[0] != On(j, RetryImport);
      ActionKeepsHopeless(c, s, actions[0], j);
      ActionKeepsInvariant(c, s, actions[0]);
      assert NoRetry(actions[1..], j);
      HopelessNeverCompletes(c, Apply(c, s, actions[0]).value, actions[1..], t, j);
    }
  }

  lemma HopelessCannotComplete(c: Config, s: State, j: JobId)
    requires Inv(c, s) && j in s.rows && !Hopeful(c, ViewOf(s, j))
    ensures !CanComplete(c, s, j)
  {
    hide Inv, Hopeful, Runs;
    forall actions: seq<Action>, end: State | CompletesBy(c, s, j, actions, end) ensures false {
      HopelessNeverCompletes(c, s, actions, end, j);
    }
  }

  // ----------------------------------------------------------------- a running job goes on

  ghost predicate RunningOn(v: View) {
    v.task.Some? && v.cancel.Some? && RunCanComplete(v.row, v.task.value, v.cancel.value)
  }

  /** How far a place in the loop is from the end of its step. */
  function Rank(pc: Pc): nat {
    match pc
    case Boundary(_) => 9
    case Entered(_) => 8
    case Waiting(_) => 7
    case Acquired(_) => 6
    case Announcing(_) => 5
    case Locked => 4
    case Working(_) => 3
    case Saving(_, _) => 2
    case Ending(_) => 0
  }

  /** How many steps the rest of a run takes at most. */
  function Distance(v: View): nat {
    if v.task.None? || v.row.done > STEPS then 0
    else (STEPS - v.row.done) * 9 + Rank(v.task.value.pc) + (if v.task.value.latePost then 1 else 0)
  }

  /** The next step on the way to completion, doing what work there is. */
  function Forward(row: Row, task: Task): JobAction {
    if task.latePost then WritePost
    else match task.pc
      case Boundary(step) => if step == STEPS then LoopEnd else Check
      case Entered(step) => Decide((step == TRANSCODE && !row.transcode) || (step == IMPORT && row.media == Other))
      case Waiting(_) => Acquire
      case Acquired(_) => CheckHeld
      case Announcing(_) => Announce
      case Locked => UnlockApp
      case Working(step) => if step == IMPORT then ImportDone(Imported) else WorkDone
      case Saving(_, _) => Save
      case Ending(_) => Terminate
  }

  /** From `v` to `w`, closer to completion. */
  ghost predicate Closer(v: View, w: View) {
    || w.row.status == Completed
    || (RunningOn(w) && w.row.done >= v.row.done && Distance(w) < Distance(v))
  }

  lemma LateWriteGoesForward(v: View)
    requires JobInv(v, true) && RunningOn(v) && v.task.value.latePost
    ensures Local(v, WritePost).Some? && Closer(v, Local(v, WritePost).value)
  {
  }

  lemma LoopGoesForward(v: View)
    requires JobInv(v, true) && RunningOn(v) && !v.task.value.latePost
    requires v.task.value.pc.Boundary? || v.task.value.pc.Entered?
    ensures var a := Forward(v.row, v.task.value); Local(v, a).Some? && Closer(v, Local(v, a).value)
  {
  }

  lemma SlotGoesForward(v: View)
    requires JobInv(v, true) && RunningOn(v) && !v.task.value.latePost
    requires v.task.value.pc.Waiting? || v.task.value.pc.Acquired? || v.task.value.pc.Announcing?
    ensures var a := Forward(v.row, v.task.value); Local(v, a).Some? && Closer(v, Local(v, a).value)
  {
  }

  lemma WorkGoesForward(v: View)
    requires JobInv(v, true) && RunningOn(v) && !v.task.value.latePost
    requires v.task.value.pc.Locked? || v.task.value.pc.Working?
    ensures var a := Forward(v.row, v.task.value); Local(v, a).Some? && Closer(v, Local(v, a).value)
  {
  }

  lemma WriteGoesForward(v: View)
    requires JobInv(v, true) && RunningOn(v) && !v.task.value.latePost
    requires v.task.value.pc.Saving? || v.task.value.pc.Ending?
    ensures var a := Forward(v.row, v.task.value); Local(v, a).Some? && Closer(v, Local(v, a).value)
  {
  }

  lemma RunGoesForward(v: View)
    requires JobInv(v, true) && RunningOn(v)
    ensures var a := Forward(v.row, v.task.value); Local(v, a).Some? && Closer(v, Local(v, a).value)
  {
    if v.task.value.latePost {
      LateWriteGoesForward(v);
    } else {
      hide Local, JobInv, Closer, RunCanComplete;
      match v.task.value.pc
      case Boundary(_) => LoopGoesForward(v);
      case Entered(_) => LoopGoesForward(v);
      case Waiting(_) => SlotGoesForward(v);
      case Acquired(_) => SlotGoesForward(v);
      case Announcing(_) => SlotGoesForward(v);
      case Locked => WorkGoesForward(v);
      case Working(_) => WorkGoesForward(v);
      case Saving(_, _) => WriteGoesForward(v);
      case Ending(_) => WriteGoesForward(v);
    }
  }

  // ----------------------------------------------------------------- among the other jobs

  /** A step that still needs a slot finds that there are slots. */
  predicate SlotsFor(c: Config, row: Row) {
    row.done <= TRANSCODE ==> c.downloads > 0 && c.transcodes > 0
  }

  lemma Prepend(c: Config, s: State, j: JobId, a: Action, next: State)
    requires Apply(c, s, a) == Some(next) && a != On(j, Retry) && a != On(j, RetryImport)
    requires CanComplete(c, next, j)
    ensures CanComplete(c, s, j)
  {
    hide Apply;
    var rest: seq<Action>, t: State :| CompletesBy(c, next, j, rest, t);
    var actions := [a] + rest;
    assert actions[0] == a && actions[1..] == rest;
    forall i | 0 <= i < |actions| ensures actions[i] != On(j, Retry) && actions[i] != On(j, RetryImport) {
      if i > 0 { assert actions[i] == rest[i - 1]; }
    }
    assert Runs(c, s, actions, t);
    assert CompletesBy(c, s, j, actions, t);
  }

  lemma CompletedCanComplete(c: Config, s: State, j: JobId)
    requires j in s.rows && s.rows[j].status == Completed
    ensures CanComplete(c, s, j)
  {
    assert Runs(c, s, [], s);
    assert CompletesBy(c, s, j, [], s);
  }

  /** Whatever a step needs of the pool is there, but perhaps a free slot. */
  lemma RoomForStep(s: State, j: JobId)
    requires s.up && j in s.rows && RunningOn(ViewOf(s, j))
    requires Local(ViewOf(s, j), Forward(ViewOf(s, j).row, ViewOf(s, j).task.value)).Some?
    requires s.tasks[j].pc.Waiting? ==> s.pool.Free(s.tasks[j].pc.step) > 0
    ensures Step(s, j, Forward(ViewOf(s, j).row, ViewOf(s, j).task.value)).Some?
  {
    hide Local, RunCanComplete;
  }

  lemma ForwardIsNoRetry(row: Row, task: Task)
    ensures Forward(row, task) != Retry && Forward(row, task) != RetryImport
  {
  }

  lemma HasRoom(c: Config, s: State, j: JobId) returns (a: JobAction, next: State)
    requires Inv(c, s) && s.up && j in s.rows && RunningOn(ViewOf(s, j))
    requires s.tasks[j].pc.Waiting? ==> s.pool.Free(s.tasks[j].pc.step) > 0
    ensures Apply(c, s, On(j, a)) == Some(next) && a != Retry && a != RetryImport
    ensures Inv(c, next) && next.up && j in next.rows && Closer(ViewOf(s, j), ViewOf(next, j))
  {
    var v := ViewOf(s, j);
    hide Inv, Local, JobInv, RunCanComplete, Closer, Step, Forward;
    ViewInvariant(c, s, j);
    RunGoesForward(v);
    a := Forward(v.row, v.task.value);
    ForwardIsNoRetry(v.row, v.task.value);
    RoomForStep(s, j);
    next := Step(s, j, a).value;
    ActionKeepsInvariant(c, s, On(j, a));
    ActionOnRow(c, s, On(j, a), j);
  }

  /** When no slot is free, somebody else holds one, and may fail. */
  lemma SlotComesFree(c: Config, s: State, j: JobId) returns (i: JobId, next: State)
    requires Inv(c, s) && s.up && j in s.rows && RunningOn(ViewOf(s, j)) && SlotsFor(c, s.rows[j])
    requires s.tasks[j].pc.Waiting? && s.pool.Free(s.tasks[j].pc.step) == 0
    ensures i != j && Apply(c, s, On(i, Fail)) == Some(next) && Inv(c, next) && next.up
    ensures j in next.rows && ViewOf(next, j) == ViewOf(s, j) && next.pool.Free(s.tasks[j].pc.step) > 0
  {
    var step := s.tasks[j].pc.step;
    WaitingFacts(c, s, j);
    SomeoneHolds(c, s, step);
    i :| i in Holders(s, step);
    hide Inv, JobInv, RunCanComplete, Holders;
    next := HolderFails(c, s, i, step);
    ActionKeepsInvariant(c, s, On(i, Fail));
    ActionOnRow(c, s, On(i, Fail), j);
  }

  lemma WaitingFacts(c: Config, s: State, j: JobId)
    requires Inv(c, s) && s.up && j in s.rows && j in s.tasks && s.tasks[j].pc.Waiting? && SlotsFor(c, s.rows[j])
    ensures s.tasks[j].pc.step <= TRANSCODE && j !in Holders(s, s.tasks[j].pc.step) && c.downloads > 0 && c.transcodes > 0
  {
    assert JobInv(ViewOf(s, j), true);
  }

  lemma SomeoneHolds(c: Config, s: State, step: nat)
    requires Inv(c, s) && s.up && step <= TRANSCODE && s.pool.Free(step) == 0 && c.downloads > 0 && c.transcodes > 0
    ensures exists i :: i in Holders(s, step)
  {
    hide Holders;
    assert |Holders(s, step)| > 0;
    if Holders(s, step) == {} { assert false; }
    var i :| i in Holders(s, step);
  }

  lemma HolderFails(c: Config, s: State, i: JobId, step: nat) returns (next: State)
    requires Inv(c, s) && s.up && i in s.tasks && Holds(s.tasks[i].pc, step)
    ensures Apply(c, s, On(i, Fail)) == Some(next) && next.pool.Free(step) > 0
  {
    TaskIsWhole(c, s, i);
    FailReleases(s.pool, i, ViewOf(s, i), step);
    hide Inv, JobsOk, Local, PoolAfter, Holds, Put;
    next := Step(s, i, Fail).value;
  }

  lemma TaskIsWhole(c: Config, s: State, i: JobId)
    requires Inv(c, s) && s.up && i in s.tasks
    ensures i in s.rows && i in s.cancels
  {
    hide SlotsOk, LocksOk, WakeOk, RowOk, TaskOk;
    assert JobInv(ViewOf(s, i), true);
  }

  lemma FailReleases(pool: Pool, i: JobId, v: View, step: nat)
    requires v.task.Some? && v.cancel.Some? && Holds(v.task.value.pc, step)
    ensures Local(v, Fail).Some? && PoolAfter(pool, i, v, Fail) == Some(pool.WithFree(step, pool.Free(step) + 1))
  {
  }

  /** A running job that can complete does so, step by step; where it waits for a slot, the
      job that holds it may fail first. */
  lemma {:induction false} RunningCompletes(c: Config, s: State, j: JobId)
    requires Inv(c, s) && s.up && j in s.rows && RunningOn(ViewOf(s, j)) && SlotsFor(c, s.rows[j])
    ensures CanComplete(c, s, j)
    decreases Distance(ViewOf(s, j))
  {
    hide Inv, Apply, Distance, RunCanComplete, CanComplete, Put;
    var blocked := s.tasks[j].pc.Waiting? && s.pool.Free(s.tasks[j].pc.step) == 0;
    var i, at := j, s;
    if blocked {
      i, at := SlotComesFree(c, s, j);
      assert ViewOf(at, j).task == ViewOf(s, j).task;
    }
    var a, next := HasRoom(c, at, j);
    if next.rows[j].status == Completed {
      CompletedCanComplete(c, next, j);
    } else {
      assert ViewOf(s, j).row == s.rows[j] && ViewOf(next, j).row == next.rows[j];
      RunningCompletes(c, next, j);
    }
    Prepend(c, at, j, On(j, a), next);
    if blocked { Prepend(c, s, j, On(i, Fail), at); }
  }

  // ----------------------------------------------------------------- from the queue

  /** Of any queued jobs one comes first. */
  lemma {:induction false} FirstOf(s: State, jobs: set<JobId>) returns (first: JobId)
    requires jobs != {} && forall i :: i in jobs ==> i in s.rows
    ensures first in jobs && forall i :: i in jobs && i != first ==> Before(s, first, i)
    decreases |jobs|
  {
    hide Before;
    var i :| i in jobs;
    var rest := jobs - {i};
    if rest == {} {
      first := i;
      assert jobs == {i};
    } else {
      var other := FirstOf(s, rest);
      JobManager.BeforeTotal(s, i, other);
      first := if Before(s, i, other) then i else other;
      forall k | k in jobs && k != first ensures Before(s, first, k) {
        assert k == i || k in rest;
        if first == i && k != other { JobManager.BeforeTransitive(s, i, other, k); }
      }
    }
  }

  lemma ClaimedRuns(v: View)
    requires v.row.status == Queued && ImportCanWork(v.row)
    ensures RunningOn(Claimed(v)) && Claimed(v).row.done == v.row.done
  {
  }

  lemma ClaimFirst(c: Config, s: State, j: JobId) returns (first: JobId, next: State)
    requires Inv(c, s) && s.up && s.loop == Draining && IsQueued(s, j)
    ensures Apply(c, s, ClaimNext(first)) == Some(next) && Inv(c, next) && next.up && next.loop == Draining
    ensures |JobManager.Queue(next)| < |JobManager.Queue(s)|
    ensures j in next.rows && ViewOf(next, j) == if first == j then Claimed(ViewOf(s, j)) else ViewOf(s, j)
  {
    hide Inv, Before;
    assert j in JobManager.Queue(s);
    first := FirstOf(s, JobManager.Queue(s));
    assert IsFirst(s, first);
    next := Put(s, first, Claimed(ViewOf(s, first)));
    assert Apply(c, s, ClaimNext(first)) == Some(next);
    hide Apply, IsFirst, Claimed, Put, JobManager.Queue;
    ActionKeepsInvariant(c, s, ClaimNext(first));
    ActionOnRow(c, s, ClaimNext(first), j);
    JobManager.ClaimShortensQueue(c, s, first, next);
  }

  /** A queued job is claimed once those before it are, and goes on from its checkpoint. */
  lemma {:induction false} QueuedCompletes(c: Config, s: State, j: JobId)
    requires Inv(c, s) && s.up && s.loop == Draining && IsQueued(s, j)
    requires ImportCanWork(s.rows[j]) && SlotsFor(c, s.rows[j])
    ensures CanComplete(c, s, j)
    decreases |JobManager.Queue(s)|
  {
    hide Inv, CanComplete, Apply, Claimed, JobManager.Queue, RunningOn, ImportCanWork;
    var first, next := ClaimFirst(c, s, j);
    ClaimedRuns(ViewOf(s, j));
    assert next.rows[j] == ViewOf(next, j).row && s.rows[j] == ViewOf(s, j).row;
    if first == j {
      RunningCompletes(c, next, j);
    } else {
      QueuedCompletes(c, next, j);
    }
    Prepend(c, s, j, ClaimNext(first), next);
  }

  /** The loop is woken first where it waits; the wake-up is set or still owed. */
  lemma WakesAndCompletes(c: Config, s: State, j: JobId)
    requires Inv(c, s) && s.up && IsQueued(s, j) && ImportCanWork(s.rows[j]) && SlotsFor(c, s.rows[j])
    ensures CanComplete(c, s, j)
  {
    hide CanComplete, JobsOk, SlotsOk, LocksOk, ImportCanWork;
    if s.loop == Draining {
      QueuedCompletes(c, s, j);
    } else {
      assert s.wake || j in s.owed;
      var rung := if s.wake then s else s.(owed := s.owed - multiset{j}, wake := true);
      if !s.wake {
        assert Apply(c, s, CallWake(j)) == Some(rung);
        ActionKeepsInvariant(c, s, CallWake(j));
      }
      var awake := rung.(loop := Draining, wake := false);
      assert Apply(c, rung, LoopWake) == Some(awake);
      ActionKeepsInvariant(c, rung, LoopWake);
      QueuedCompletes(c, awake, j);
      Prepend(c, rung, j, LoopWake, awake);
      if !s.wake { Prepend(c, s, j, CallWake(j), rung); }
    }
  }

  // ----------------------------------------------------------------- through a restart

  lemma DownCompletes(c: Config, s: State, j: JobId)
    requires Inv(c, s) && !s.up && j in s.rows && SlotsFor(c, s.rows[j]) && ImportCanWork(s.rows[j])
    requires s.rows[j].status == Queued || (Active(s.rows[j].status) && c.autoResume && !s.rows[j].cancelRequested)
    ensures CanComplete(c, s, j)
  {
    hide Inv, CanComplete;
    var up := Restarted(c, s);
    assert Apply(c, s, Recover) == Some(up);
    ActionKeepsInvariant(c, s, Recover);
    WakesAndCompletes(c, up, j);
    Prepend(c, s, j, Recover, up);
  }

  lemma RestartCompletes(c: Config, s: State, j: JobId)
    requires Inv(c, s) && j in s.rows && SlotsFor(c, s.rows[j])
    requires Active(s.rows[j].status) && RestartCanComplete(c, s.rows[j])
    ensures CanComplete(c, s, j)
  {
    hide Inv, CanComplete;
    if s.up {
      var down := Down(s);
      assert Apply(c, s, Crash) == Some(down);
      ActionKeepsInvariant(c, s, Crash);
      DownCompletes(c, down, j);
      Prepend(c, s, j, Crash, down);
    } else {
      DownCompletes(c, s, j);
    }
  }

  lemma HopefulCompletes(c: Config, s: State, j: JobId)
    requires Inv(c, s) && j in s.rows && SlotsFor(c, s.rows[j]) && Hopeful(c, ViewOf(s, j))
    ensures CanComplete(c, s, j)
  {
    ViewInvariant(c, s, j);
    var v := ViewOf(s, j);
    TasksAreActive(v, s.up);
    hide Inv, CanComplete, JobInv, RunCanComplete, ImportCanWork;
    match s.rows[j].status
    case Completed => CompletedCanComplete(c, s, j);
    case Failed =>
    case Cancelled =>
    case Queued => if s.up { WakesAndCompletes(c, s, j); } else { DownCompletes(c, s, j); }
    case _ => if RestartCanComplete(c, v.row) { RestartCompletes(c, s, j); } else { RunningCompletes(c, s, j); }
  }

  lemma TasksAreActive(v: View, up: bool)
    requires JobInv(v, up)
    ensures v.task.Some? ==> up && Active(v.row.status)
  {
  }

  /** Which jobs can still complete without being retried. A completed job has; a failed or
      cancelled one cannot. A queued one can unless its import has no path. An active one can
      in two ways only: its run goes on, which takes that no cancel is waiting to be seen and
      that the import will have its path; or the process restarts and resumes it, which takes
      that no cancel is on record and, again, the path. */
  lemma CompletionIsExact(c: Config, s: State, j: JobId)
    requires Inv(c, s) && j in s.rows && SlotsFor(c, s.rows[j])
    ensures CanComplete(c, s, j) <==> Hopeful(c, ViewOf(s, j))
  {
    HopeDecides(c, s, j);
  }

  // ----------------------------------------------------------------- two consequences

  lemma HopeDecides(c: Config, s: State, j: JobId)
    requires Inv(c, s) && j in s.rows && (Hopeful(c, ViewOf(s, j)) ==> SlotsFor(c, s.rows[j]))
    ensures CanComplete(c, s, j) <==> Hopeful(c, ViewOf(s, j))
  {
    hide Inv, CanComplete, Hopeful;
    if Hopeful(c, ViewOf(s, j)) { HopefulCompletes(c, s, j); } else { HopelessCannotComplete(c, s, j); }
  }

  lemma CancelDecides(c: Config, v: View)
    requires JobInv(v, true) && v.task.Some? && Local(v, Cancel).Some?
    ensures var w := Local(v, Cancel).value;
      && (Hopeful(c, w) <==> PastLastCheck(v.task.value.pc) && (v.row.media == Other || v.task.value.hasPath))
      && (Hopeful(c, w) ==> SlotsFor(c, w.row))
  {
  }

  /** A cancel the service accepts for a running job can be overtaken by completion exactly
      when the run was already past its last check of the event, with an import that is not
      bound to fail. */
  lemma AcceptedCancelIsSeenUnlessPastLastCheck(c: Config, s: State, j: JobId, t: State)
    requires Inv(c, s) && j in s.tasks && Apply(c, s, On(j, Cancel)) == Some(t)
    ensures j in s.rows && (CanComplete(c, t, j) <==>
      PastLastCheck(s.tasks[j].pc) && (s.rows[j].media == Other || s.tasks[j].hasPath))
  {
    ActionOnRow(c, s, On(j, Cancel), j);
    ActionKeepsInvariant(c, s, On(j, Cancel));
    ViewInvariant(c, s, j);
    hide Inv, Apply, Local, JobInv, CanComplete, ViewOf;
    CancelDecides(c, ViewOf(s, j));
    assert ViewOf(t, j).row == t.rows[j] by { ViewParts(t, j); }
    ViewParts(s, j);
    HopeDecides(c, t, j);
  }

  lemma ViewParts(s: State, j: JobId)
    requires j in s.rows
    ensures ViewOf(s, j).row == s.rows[j]
    ensures j in s.tasks ==> ViewOf(s, j).task == Some(s.tasks[j])
    ensures j in s.cancels ==> ViewOf(s, j).cancel == Some(s.cancels[j])
  {
  }

  /** Once the organize checkpoint is in, a job that is not retried can still complete exactly
      when no cancel is pending and, for a movie or episode, the checkpoint or an earlier one
      recorded the path; a run that resumes after the last move records none. */
  lemma OrganizeCheckpointDecides(c: Config, s: State, j: JobId, t: State)
    requires Inv(c, s) && j in s.tasks && j in s.cancels && j in s.rows
    requires s.tasks[j].pc.Saving? && s.tasks[j].pc.step == ORGANIZE
    requires Apply(c, s, On(j, Save)) == Some(t)
    ensures CanComplete(c, t, j) <==>
      !s.cancels[j] && (s.rows[j].media == Other || s.tasks[j].pc.fields == PathRecorded || s.rows[j].hasPath)
  {
    ActionOnRow(c, s, On(j, Save), j);
    ActionKeepsInvariant(c, s, On(j, Save));
    ViewInvariant(c, s, j);
    hide Inv, Apply, Local, JobInv, CanComplete, ViewOf;
    ViewParts(s, j);
    ViewParts(t, j);
    SavedOrganizeDecides(c, ViewOf(s, j));
    HopeDecides(c, t, j);
  }

  lemma SavedOrganizeDecides(c: Config, v: View)
    requires JobInv(v, true) && v.task.Some? && v.cancel.Some? && Local(v, Save).Some?
    requires v.task.value.pc.Saving? && v.task.value.pc.step == ORGANIZE
    ensures var w := Local(v, Save).value;
      && SlotsFor(c, w.row)
      && (Hopeful(c, w) <==>
          !v.cancel.value && (v.row.media == Other || v.task.value.pc.fields == PathRecorded || v.row.hasPath))
  {
  }
}
