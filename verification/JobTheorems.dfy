/** What holds over every run of the job system. */
module JobTheorems {
  import opened Wrappers
  import opened Jobs
  import opened JobSystem

  /** `t` can be reached from an empty database. */
  ghost predicate Reachable(c: Config, t: State) {
    exists actions: seq<Action> :: Runs(c, Fresh, actions, t)
  }

  lemma ReachableInvariant(c: Config, t: State)
    requires Reachable(c, t)
    ensures Inv(c, t)
  {
    var actions :| Runs(c, Fresh, actions, t);
    FreshInvariant(c);
    RunsKeepInvariant(c, Fresh, actions, t);
  }

  // ------------------------------------------------------------------- safety at every moment

  /** Two jobs between sending the import command and verifying it, with the same app. */
  ghost predicate BothImporting(s: State, i: JobId, j: JobId) {
    && i in s.tasks && i in s.rows && s.tasks[i].pc == Locked
    && j in s.tasks && j in s.rows && s.tasks[j].pc == Locked
    && (s.rows[i].media == Movie <==> s.rows[j].media == Movie)
  }

  /** Each job the manager owns has exactly one task and one cancel event, and no other job
      has either; no task holds two slots; free slots and holders add up to the limits; each
      app has at most one job between sending its import command and verifying it. */
  lemma TasksSlotsAndLocks(c: Config, s: State)
    requires Reachable(c, s) && s.up
    ensures forall j :: j in s.rows ==> (Active(s.rows[j].status) <==> j in s.tasks)
    ensures s.tasks.Keys == s.cancels.Keys && s.tasks.Keys <= s.rows.Keys
    ensures Holders(s, DOWNLOAD) !! Holders(s, TRANSCODE)
    ensures s.pool.freeDownloads + |Holders(s, DOWNLOAD)| == c.downloads
    ensures s.pool.freeTranscodes + |Holders(s, TRANSCODE)| == c.transcodes
    ensures forall i, j :: BothImporting(s, i, j) ==> i == j
  {
    ReachableInvariant(c, s);
    hide SlotsOk, LocksOk, WakeOk, Holders;
    forall j | j in s.rows ensures (Active(s.rows[j].status) <==> j in s.tasks) && (j in s.tasks <==> j in s.cancels) {
      assert JobInv(ViewOf(s, j), true);
    }
    OneInEachLock(c, s);
    TwoSlots(s);
    SlotsAddUp(c, s);
  }

  lemma OneInEachLock(c: Config, s: State)
    requires Inv(c, s) && s.up
    ensures forall i, j :: BothImporting(s, i, j) ==> i == j
  {
    hide JobInv;
    forall i, j | BothImporting(s, i, j) ensures i == j {
      var radarr := s.rows[i].media == Movie;
      assert InLock(s, i, radarr) && InLock(s, j, radarr);
    }
  }

  lemma TwoSlots(s: State)
    ensures Holders(s, DOWNLOAD) !! Holders(s, TRANSCODE)
  {
  }

  lemma SlotsAddUp(c: Config, s: State)
    requires Inv(c, s) && s.up
    ensures s.pool.freeDownloads + |Holders(s, DOWNLOAD)| == c.downloads
    ensures s.pool.freeTranscodes + |Holders(s, TRANSCODE)| == c.transcodes
  {
    hide Holders;
  }

  /** An import verdict is written with the import checkpoint and only a finished organize
      step with a recorded path leads to it; a completed job has every checkpoint, and a
      completed movie or episode a verdict. */
  lemma VerdictsAndCompletion(c: Config, s: State, j: JobId)
    requires Reachable(c, s) && j in s.rows
    ensures var row := s.rows[j];
      && (Verdict(row.importStatus) ==> row.done == STEPS && row.hasPath && row.media != Other)
      && (row.status == Completed ==> row.done == STEPS && (row.media == Other || Verdict(row.importStatus)))
      && (row.importStatus == NotApplicable <==> row.media == Other)
  {
    ReachableInvariant(c, s);
    hide SlotsOk, LocksOk, WakeOk;
    assert JobInv(ViewOf(s, j), s.up);
  }

  /** No wake-up is lost: when the claim loop is blocked on an unset event, every queued
      job's enqueuer has committed but not yet called `wake`. */
  lemma NoLostWakeup(c: Config, s: State, j: JobId)
    requires Reachable(c, s) && s.up && s.loop == Idle && !s.wake && IsQueued(s, j)
    ensures j in s.owed && Apply(c, s, CallWake(j)).Some? && Apply(c, s, CallWake(j)).value.wake
  {
    ReachableInvariant(c, s);
    hide JobsOk, SlotsOk, LocksOk;
  }

  // ------------------------------------------------------------------------- checkpoints

  /** What one action does to one job's checkpoint. */
  predicate CheckpointMoves(before: Row, after: Row, retryImport: bool) {
    if retryImport then before.done == STEPS && after.done == IMPORT
    else before.done <= after.done <= before.done + 1
  }

  lemma LocalCheckpoint(v: View, a: JobAction)
    requires JobInv(v, true) && Local(v, a).Some?
    ensures CheckpointMoves(v.row, Local(v, a).value.row, a == RetryImport)
  {
  }

  /** Rows are never lost, and an action on another job leaves the row alone. */
  lemma ActionOnRow(c: Config, s: State, a: Action, j: JobId)
    requires Inv(c, s) && Apply(c, s, a).Some? && j in s.rows
    ensures var t := Apply(c, s, a).value;
      && j in t.rows
      && (match a
          case On(i, step) =>
            && i in s.rows && s.up && t.up && Local(ViewOf(s, i), step).Some?
            && ViewOf(t, j) == if i == j then Local(ViewOf(s, j), step).value else ViewOf(s, j)
          case ClaimNext(i) =>
            && i in s.rows && s.up && t.up && s.rows[i].status == Queued
            && ViewOf(t, j) == if i == j then Claimed(ViewOf(s, j)) else ViewOf(s, j)
          case Crash => s.up && !t.up && ViewOf(t, j) == Crashed(ViewOf(s, j))
          case Recover => !s.up && t.up && ViewOf(t, j) == View(Recovered(s.rows[j], c.autoResume), None, None)
          case _ => s.up && t.up && ViewOf(t, j) == ViewOf(s, j))
  {
    match a
    case On(i, step) =>
      hide Local, JobInv, Step, Put;
      StepFrame(s, i, step, Apply(c, s, a).value);
      assert i != j ==> ViewOf(Apply(c, s, a).value, j) == ViewOf(s, j);
    case ClaimNext(i) =>
      hide JobInv, Put, Claimed;
      ClaimFrame(s, i);
      assert i != j ==> ViewOf(Apply(c, s, a).value, j) == ViewOf(s, j);
    case Create(_, _, _, _) =>
    case Crash =>
    case Recover =>
    case _ =>
  }

  ghost predicate NoImportRetry(actions: seq<Action>, j: JobId) {
    forall i :: 0 <= i < |actions| ==> actions[i] != On(j, RetryImport)
  }

  lemma ActionCheckpoint(c: Config, s: State, a: Action, j: JobId)
    requires Inv(c, s) && Apply(c, s, a).Some? && j in s.rows
    ensures j in Apply(c, s, a).value.rows
    ensures CheckpointMoves(s.rows[j], Apply(c, s, a).value.rows[j], a == On(j, RetryImport))
  {
    ActionOnRow(c, s, a, j);
    hide Apply, Inv;
    var t := Apply(c, s, a).value;
    assert t.rows[j] == ViewOf(t, j).row && s.rows[j] == ViewOf(s, j).row;
    if a.On? && a.job == j {
      ViewInvariant(c, s, j);
      LocalCheckpoint(ViewOf(s, j), a.step);
    }
  }

  lemma ViewInvariant(c: Config, s: State, j: JobId)
    requires Inv(c, s) && j in s.rows
    ensures JobInv(ViewOf(s, j), s.up)
  {
  }

  /** A checkpoint only moves forward, through claims, crashes, recoveries, cancels and
      retries, with one exception: `retry_import` takes it from the import step to the organize
      step, and never further back. */
  lemma {:induction false} CheckpointsOnlyAdvance(c: Config, s: State, actions: seq<Action>, t: State, j: JobId)
    requires Inv(c, s) && Runs(c, s, actions, t) && j in s.rows
    ensures j in t.rows
    ensures s.rows[j].done <= t.rows[j].done || (s.rows[j].done == STEPS && t.rows[j].done == IMPORT)
    ensures NoImportRetry(actions, j) ==> s.rows[j].done <= t.rows[j].done
    decreases |actions|
  {
    hide Inv, Apply;
    if actions != [] {
      var next := Apply(c, s, actions[0]).value;
      ActionCheckpoint(c, s, actions[0], j);
      ActionKeepsInvariant(c, s, actions[0]);
      CheckpointsOnlyAdvance(c, next, actions[1..], t, j);
      if NoImportRetry(actions, j) {
        assert actions[0] != On(j, RetryImport) && NoImportRetry(actions[1..], j);
      }
      RowsAreOk(c, next, actions[1..], t, j);
    }
  }

  lemma RowsAreOk(c: Config, s: State, actions: seq<Action>, t: State, j: JobId)
    requires Inv(c, s) && Runs(c, s, actions, t) && j in s.rows && j in t.rows
    ensures s.rows[j].done <= STEPS && t.rows[j].done <= STEPS
  {
    RunsKeepInvariant(c, s, actions, t);
    hide Runs, Inv, TaskOk;
    ViewInvariant(c, s, j);
    ViewInvariant(c, t, j);
  }

  /** The step whose work a task is doing, if it is doing any. */
  function WorkingOn(pc: Pc): Option<nat> {
    match pc
    case Announcing(step) => Some(step)
    case Working(step) => Some(step)
    case Locked => Some(IMPORT)
    case _ => None
  }

  /** Over every run, a step whose checkpoint is committed is never run again, whatever happens
      in between: only the import step is, and only after a `retry_import`. */
  lemma CommittedStepNeverRunsAgain(c: Config, s: State, actions: seq<Action>, t: State, j: JobId, step: nat)
    requires Inv(c, s) && Runs(c, s, actions, t) && j in s.rows && step < s.rows[j].done
    ensures j in t.rows
    ensures j in t.tasks && WorkingOn(t.tasks[j].pc) == Some(step) ==> step == IMPORT && !NoImportRetry(actions, j)
  {
    CheckpointsOnlyAdvance(c, s, actions, t, j);
    RunsKeepInvariant(c, s, actions, t);
    RowsAreOk(c, s, actions, t, j);
    hide Runs, Inv;
    ViewInvariant(c, t, j);
    if j in t.tasks { TaskIsAtItsStep(ViewOf(t, j), t.up); }
  }

  lemma TaskIsAtItsStep(v: View, up: bool)
    requires JobInv(v, up) && v.task.Some?
    ensures WorkingOn(v.task.value.pc).Some? ==> WorkingOn(v.task.value.pc).value == v.row.done
  {
  }

  // ----------------------------------------------------------------------------- cancel

  /** The job can no longer complete before somebody retries it: its cancel is yet to be
      looked at, or is in the row for `recover` to find, or has already taken effect. */
  predicate Doomed(v: View, up: bool) {
    || v.row.status == Cancelled || v.row.status == Failed
    || (up && v.task.Some? && v.cancel == Some(true) && !PastLastCheck(v.task.value.pc))
    || (!up && Active(v.row.status) && v.row.cancelRequested)
  }

  lemma LocalKeepsDoomed(v: View, a: JobAction)
    requires JobInv(v, true) && Doomed(v, true) && Local(v, a).Some?
    requires a != Retry && a != RetryImport
    ensures Doomed(Local(v, a).value, true)
  {
    hide RowOk;
    if v.task.Some? && v.cancel.Some? { assert PcOk(v.row, v.task.value.pc); }
    hide TaskOk;
    if v.task.None? { DoomedWaitsForRetry(v, a); }
  }

  /** Once its run has ended, only a retry does anything to such a job. */
  lemma DoomedWaitsForRetry(v: View, a: JobAction)
    requires JobInv(v, true) && Doomed(v, true) && Local(v, a).Some? && v.task.None?
    ensures a == Retry || a == RetryImport
  {
    hide RowOk, TaskOk, Run;
  }

  lemma CrashKeepsDoomed(v: View)
    requires JobInv(v, true) && Doomed(v, true)
    ensures Doomed(Crashed(v), false)
  {
    hide RowOk;
  }

  lemma RecoverKeepsDoomed(row: Row, autoResume: bool)
    requires Doomed(View(row, None, None), false)
    ensures Doomed(View(Recovered(row, autoResume), None, None), true)
  {
  }

  ghost predicate NoRetry(actions: seq<Action>, j: JobId) {
    forall i :: 0 <= i < |actions| ==> actions[i] != On(j, Retry) && actions[i] != On(j, RetryImport)
  }

  lemma ActionKeepsDoomed(c: Config, s: State, a: Action, j: JobId)
    requires Inv(c, s) && Apply(c, s, a).Some? && j in s.rows && Doomed(ViewOf(s, j), s.up)
    requires a != On(j, Retry) && a != On(j, RetryImport)
    ensures var t := Apply(c, s, a).value; j in t.rows && Doomed(ViewOf(t, j), t.up)
  {
    ActionOnRow(c, s, a, j);
    ViewInvariant(c, s, j);
    var t := Apply(c, s, a).value;
    var v := ViewOf(s, j);
    hide Apply, Inv, Local;
    match a
    case On(i, step) => if i == j { LocalKeepsDoomed(v, step); }
    case ClaimNext(i) => QueuedIsNotDoomed(v);
    case Crash => CrashKeepsDoomed(v);
    case Recover => RecoverKeepsDoomed(v.row, c.autoResume);
    case _ =>
  }

  lemma QueuedIsNotDoomed(v: View)
    requires JobInv(v, true) && Doomed(v, true)
    ensures v.row.status != Queued
  {
    hide RowOk, TaskOk;
  }

  /** A doomed job never completes, whatever the other jobs do and however often the process
      crashes and recovers, until it is retried. */
  lemma {:induction false} DoomedNeverCompletes(c: Config, s: State, actions: seq<Action>, t: State, j: JobId)
    requires Inv(c, s) && Runs(c, s, actions, t) && NoRetry(actions, j)
    requires j in s.rows && Doomed(ViewOf(s, j), s.up)
    ensures j in t.rows && Doomed(ViewOf(t, j), t.up) && t.rows[j].status != Completed
    decreases |actions|
  {
    hide Apply;
    if actions == [] {
      ViewInvariant(c, s, j);
      DoomedIsNotCompleted(ViewOf(s, j), s.up);
    } else {
      hide Inv, Doomed, Runs;
      RunsUnfold(c, s, actions, t);
      assert actions[0] != On(j, Retry) && actions[0] != On(j, RetryImport);
      ActionKeepsDoomed(c, s, actions[0], j);
      ActionKeepsInvariant(c, s, actions[0]);
      assert NoRetry(actions[1..], j);
      DoomedNeverCompletes(c, Apply(c, s, actions[0]).value, actions[1..], t, j);
    }
  }

  lemma RunsUnfold(c: Config, s: State, actions: seq<Action>, t: State)
    requires Runs(c, s, actions, t) && actions != []
    ensures Apply(c, s, actions[0]).Some? && Runs(c, Apply(c, s, actions[0]).value, actions[1..], t)
  {
    hide Apply;
  }

  lemma DoomedIsNotCompleted(v: View, up: bool)
    requires JobInv(v, up) && Doomed(v, up)
    ensures v.row.status != Completed
  {
    hide RowOk, TaskOk;
  }

  /** In a run that writes ORGANIZING, an accepted cancel is always seen: the run ends
      cancelled or failed, also when a crash and a recovery come in between. */
  lemma OrganizingRunSeesItsCancel(c: Config, s: State, actions: seq<Action>, t: State, j: JobId)
    requires Inv(c, s) && s.up && j in s.tasks && j in s.cancels && j in s.rows
    requires s.tasks[j].wroteOrganizing && s.cancels[j]
    requires Runs(c, s, actions, t) && NoRetry(actions, j)
    ensures j in t.rows && t.rows[j].status != Completed
  {
    ViewInvariant(c, s, j);
    assert Doomed(ViewOf(s, j), s.up) by { hide RowOk; }
    hide Inv, Runs, JobInv, Doomed;
    DoomedNeverCompletes(c, s, actions, t, j);
  }

  // ----------------------------------------------------------------- a lost path

  /** A movie or episode whose organize checkpoint is in but whose path was never recorded:
      the import step can only raise. */
  predicate Lost(v: View) {
    && v.row.media != Other && v.row.done == IMPORT && !v.row.hasPath
    && v.row.status != Completed
    && (v.task.Some? ==> !v.task.value.hasPath && v.task.value.pc != Ending(Completed))
  }

  lemma LocalKeepsLost(v: View, a: JobAction)
    requires JobInv(v, true) && Lost(v) && Local(v, a).Some?
    ensures Lost(Local(v, a).value)
  {
  }

  lemma ActionKeepsLost(c: Config, s: State, a: Action, j: JobId)
    requires Inv(c, s) && Apply(c, s, a).Some? && j in s.rows && Lost(ViewOf(s, j))
    ensures var t := Apply(c, s, a).value; j in t.rows && Lost(ViewOf(t, j))
  {
    ActionOnRow(c, s, a, j);
    ViewInvariant(c, s, j);
    var v := ViewOf(s, j);
    hide Apply, Inv, Local, JobInv;
    if a.On? && a.job == j { LocalKeepsLost(v, a.step); }
  }

  /** Such a job never completes and never gets an import verdict: not by a retry, not by a
      restart, not ever. */
  lemma {:induction false} LostNeverCompletes(c: Config, s: State, actions: seq<Action>, t: State, j: JobId)
    requires Inv(c, s) && Runs(c, s, actions, t) && j in s.rows && Lost(ViewOf(s, j))
    ensures j in t.rows && Lost(ViewOf(t, j)) && t.rows[j].status != Completed && t.rows[j].importStatus == Pending
    decreases |actions|
  {
    hide Apply;
    if actions == [] {
      ViewInvariant(c, s, j);
    } else {
      hide Inv, Lost, Runs, JobInv;
      RunsUnfold(c, s, actions, t);
      ActionKeepsLost(c, s, actions[0], j);
      ActionKeepsInvariant(c, s, actions[0]);
      LostNeverCompletes(c, Apply(c, s, actions[0]).value, actions[1..], t, j);
    }
  }
}
