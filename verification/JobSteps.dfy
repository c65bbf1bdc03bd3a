/** What the steps of one job come to, from claim to terminal status: each step followed
    through, with and without its work, and the places where a cancel or an error ends it
    (backend/app/jobs/pipeline.py, manager.py). */
module JobSteps {
  import opened Wrappers
  import opened Jobs
  import opened JobSystem

  /** One job after `actions`, or None when one of them cannot happen. */
  function Follow(v: View, actions: seq<JobAction>): Option<View>
    decreases |actions|
  {
    if actions == [] then Some(v)
    else
      var next := Local(v, actions[0]);
      if next.None? then None else Follow(next.value, actions[1..])
  }

  lemma FollowFirst(v: View, a: JobAction, rest: seq<JobAction>)
    requires Local(v, a).Some?
    ensures Follow(v, [a] + rest) == Follow(Local(v, a).value, rest)
  {
    hide Local;
    assert ([a] + rest)[1..] == rest;
  }

  lemma {:induction false} FollowConcat(v: View, a: seq<JobAction>, b: seq<JobAction>)
    requires Follow(v, a).Some?
    ensures Follow(v, a + b) == Follow(Follow(v, a).value, b)
    decreases |a|
  {
    hide Local;
    if a == [] {
      assert a + b == b;
    } else {
      assert (a + b)[1..] == a[1..] + b;
      FollowConcat(Local(v, a[0]).value, a[1..], b);
    }
  }

  // ------------------------------------------------------------- steps that do their work

  /** At the head of the loop, with no cancel asked for and no late write. */
  predicate Ready(v: View, step: nat) {
    v.task.Some? && v.task.value.pc == Boundary(step) && v.cancel == Some(false) && !v.task.value.latePost
  }

  lemma ReadyFacts(v: View, step: nat)
    requires Ready(v, step) && JobInv(v, true)
    ensures v.row.done == step
    ensures step <= IMPORT ==> v.task.value.importStatus == v.row.importStatus && !Verdict(v.row.importStatus)
    ensures v.row.media == Other ==> v.row.importStatus == NotApplicable
  {
  }

  /** The next boundary, and what else the step has changed. */
  function Next(v: View, row: Row): View
    requires v.task.Some?
  {
    View(row.(done := v.row.done + 1), Some(v.task.value.(pc := Boundary(v.row.done + 1))), v.cancel)
  }

  lemma {:induction false} FollowKeepsInv(v: View, actions: seq<JobAction>)
    requires JobInv(v, true) && Follow(v, actions).Some?
    ensures JobInv(Follow(v, actions).value, true)
    decreases |actions|
  {
    hide Local, JobInv;
    if actions != [] {
      LocalKeepsInv(v, actions[0]);
      FollowKeepsInv(Local(v, actions[0]).value, actions[1..]);
    }
  }

  lemma FollowOn(v: View, actions: seq<JobAction>, w: View, a: JobAction)
    requires Follow(v, actions) == Some(w) && Local(w, a).Some?
    ensures Follow(v, actions + [a]) == Local(w, a)
  {
    FollowConcat(v, actions, [a]);
    FollowFirst(w, a, []);
    assert [a] + [] == [a];
  }

  /** The task at work on a step: its status is in the row. */
  function AtWork(v: View, step: nat, status: Status): View
    requires v.task.Some?
  {
    At(v.(row := v.row.(status := status)), Working(step))
  }

  lemma Enters(v: View, step: nat, skip: bool)
    requires Ready(v, step) && step < STEPS && Local(At(v, Entered(step)), Decide(skip)).Some?
    ensures Follow(v, [Check, Decide(skip)]) == Local(At(v, Entered(step)), Decide(skip))
  {
    assert Local(v, Check) == Some(At(v, Entered(step)));
    hide Local;
    FollowFirst(v, Check, []);
    assert [Check] + [] == [Check];
    FollowOn(v, [Check], At(v, Entered(step)), Decide(skip));
    assert [Check] + [Decide(skip)] == [Check, Decide(skip)];
  }

  lemma SlotSteps(v: View, step: nat)
    requires v.task.Some? && v.cancel == Some(false) && !v.task.value.latePost && (step == DOWNLOAD || step == TRANSCODE)
    ensures Local(At(v, Waiting(step)), Acquire) == Some(At(v, Acquired(step)))
    ensures Local(At(v, Acquired(step)), CheckHeld) == Some(At(v, Announcing(step)))
    ensures Local(At(v, Announcing(step)), Announce)
            == Some(AtWork(v, step, if step == DOWNLOAD then Downloading else Transcoding))
  {
  }

  const ToSlottedWork: seq<JobAction> := [Check, Decide(false), Acquire, CheckHeld, Announce]

  lemma SlottedWorkStarts(v: View, step: nat)
    requires Ready(v, step) && (step == DOWNLOAD || (step == TRANSCODE && v.row.transcode))
    ensures Follow(v, ToSlottedWork) == Some(AtWork(v, step, if step == DOWNLOAD then Downloading else Transcoding))
  {
    assert Local(At(v, Entered(step)), Decide(false)) == Some(At(v, Waiting(step)));
    SlotSteps(v, step);
    Enters(v, step, false);
    hide Local, Follow, At, AtWork;
    var a := [Check, Decide(false)];
    FollowOn(v, a, At(v, Waiting(step)), Acquire);
    FollowOn(v, a + [Acquire], At(v, Acquired(step)), CheckHeld);
    FollowOn(v, a + [Acquire] + [CheckHeld], At(v, Announcing(step)), Announce);
    assert a + [Acquire] + [CheckHeld] + [Announce] == ToSlottedWork;
  }

  /** Work that is done commits its checkpoint: the task goes on with the next step, and
      nothing changes but the checkpoint and, from organizing, the path. */
  lemma WorkCommits(v: View, step: nat)
    requires JobInv(v, true) && v.task.Some? && v.task.value.pc == Working(step) && step <= ORGANIZE
    requires v.cancel == Some(false) && !v.task.value.latePost
    ensures var moved := step == ORGANIZE;
      Follow(v, [WorkDone, Save]) == Some(View(
        v.row.(done := step + 1, hasPath := v.row.hasPath || moved),
        Some(v.task.value.(pc := Boundary(step + 1), hasPath := v.task.value.hasPath || moved)),
        Some(false)))
  {
    WorkEnds(v, step);
    hide Local, JobInv;
    var w := Local(v, WorkDone).value;
    FollowFirst(v, WorkDone, [Save]);
    FollowFirst(w, Save, []);
    assert [WorkDone] + [Save] == [WorkDone, Save] && [Save] + [] == [Save];
  }

  lemma WorkEnds(v: View, step: nat)
    requires JobInv(v, true) && v.task.Some? && v.task.value.pc == Working(step) && step <= ORGANIZE
    requires v.cancel == Some(false) && !v.task.value.latePost
    ensures Local(v, WorkDone).Some?
    ensures var moved := step == ORGANIZE;
      Local(Local(v, WorkDone).value, Save) == Some(View(
        v.row.(done := step + 1, hasPath := v.row.hasPath || moved),
        Some(v.task.value.(pc := Boundary(step + 1), hasPath := v.task.value.hasPath || moved)),
        Some(false)))
  {
  }

  /** The work of a step that needs a slot, from the head of the loop to the next one. */
  lemma SlottedStepCommits(v: View, step: nat)
    requires Ready(v, step) && JobInv(v, true) && (step == DOWNLOAD || (step == TRANSCODE && v.row.transcode))
    ensures Follow(v, ToSlottedWork + [WorkDone, Save]) ==
      Some(Next(v, v.row.(status := if step == DOWNLOAD then Downloading else Transcoding)))
  {
    var w := AtWork(v, step, if step == DOWNLOAD then Downloading else Transcoding);
    hide Follow, JobInv, ToSlottedWork, Local;
    SlottedWorkStarts(v, step);
    ReadyFacts(v, step);
    FollowKeepsInv(v, ToSlottedWork);
    WorkCommits(w, step);
    FollowConcat(v, ToSlottedWork, [WorkDone, Save]);
  }

  /** A download that goes on to merge says so with a late write, which changes the status and
      nothing else, also when the step is already about to be committed. */
  lemma MergeShows(v: View)
    requires v.task.Some? && v.cancel == Some(false) && !v.task.value.latePost && v.task.value.pc == Working(DOWNLOAD)
    ensures Follow(v, [SpawnPost, WritePost]) == Some(v.(row := v.row.(status := Postprocessing)))
    ensures Local(v, SpawnPost).Some? && Local(Local(v, SpawnPost).value, WorkDone).Some?
    ensures Follow(Local(v, SpawnPost).value, [WorkDone, Save]) == None
    ensures Follow(Local(v, SpawnPost).value, [WorkDone, WritePost]) ==
      Some(At(v.(row := v.row.(status := Postprocessing)), Saving(DOWNLOAD, NoFields)))
  {
    var late := v.(task := Some(v.task.value.(latePost := true)));
    var saving := At(late, Saving(DOWNLOAD, NoFields));
    assert Local(v, SpawnPost) == Some(late) && Local(late, WorkDone) == Some(saving) && Local(saving, Save) == None;
    assert Local(late, WritePost) == Some(v.(row := v.row.(status := Postprocessing)));
    assert Local(saving, WritePost) == Some(At(v.(row := v.row.(status := Postprocessing)), Saving(DOWNLOAD, NoFields)));
    hide Local, At, Follow;
    FollowBoth(v, SpawnPost, late, WritePost);
    FollowBoth(late, WorkDone, saving, WritePost);
    FollowNowhere(late, WorkDone, saving, Save);
  }

  lemma FollowNowhere(v: View, a: JobAction, w: View, b: JobAction)
    requires Local(v, a) == Some(w) && Local(w, b) == None
    ensures Follow(v, [a, b]) == None
  {
    hide Local;
    assert [a, b][1..] == [b];
  }

  const ToWork: seq<JobAction> := [Check, Decide(false), Announce]

  lemma UnslottedWorkStarts(v: View, step: nat)
    requires Ready(v, step) && (step == ORGANIZE || step == IMPORT)
    requires step == IMPORT ==> v.row.media != Other && v.task.value.importStatus !in {Imported, NotImported}
    ensures var w := AtWork(v, step, if step == ORGANIZE then Organizing else Importing);
      Follow(v, ToWork) == Some(
        w.(task := Some(w.task.value.(wroteOrganizing := v.task.value.wroteOrganizing || step == ORGANIZE))))
  {
    var at := At(v, Announcing(step));
    assert Local(At(v, Entered(step)), Decide(false)) == Some(at);
    var w := AtWork(v, step, if step == ORGANIZE then Organizing else Importing);
    assert Local(at, Announce) == Some(
      w.(task := Some(w.task.value.(wroteOrganizing := v.task.value.wroteOrganizing || step == ORGANIZE))));
    Enters(v, step, false);
    hide Local, Follow;
    FollowOn(v, [Check, Decide(false)], at, Announce);
    assert [Check, Decide(false)] + [Announce] == ToWork;
  }

  const Organize: seq<JobAction> := ToWork + [WorkDone, Save]

  lemma OrganizeCommits(v: View)
    requires Ready(v, ORGANIZE) && JobInv(v, true)
    ensures var w := Next(v, v.row.(status := Organizing, hasPath := true));
      Follow(v, Organize) == Some(w.(task := Some(w.task.value.(hasPath := true, wroteOrganizing := true))))
  {
    var work := AtWork(v, ORGANIZE, Organizing);
    var w := work.(task := Some(work.task.value.(wroteOrganizing := true)));
    UnslottedWorkStarts(v, ORGANIZE);
    hide Follow, JobInv, Local;
    ReadyFacts(v, ORGANIZE);
    FollowKeepsInv(v, ToWork);
    WorkCommits(w, ORGANIZE);
    FollowConcat(v, ToWork, [WorkDone, Save]);
  }

  function Import(verdict: ImportStatus): seq<JobAction> {
    ToWork + [LockApp, UnlockApp, ImportDone(verdict), Save]
  }

  lemma ImportCommits(v: View, verdict: ImportStatus)
    requires Ready(v, IMPORT) && JobInv(v, true) && v.row.media != Other && v.task.value.hasPath && Verdict(verdict)
    ensures Follow(v, Import(verdict)) == Some(Next(v, v.row.(status := Importing, importStatus := verdict)))
  {
    var work := AtWork(v, IMPORT, Importing);
    ReadyFacts(v, IMPORT);
    UnslottedWorkStarts(v, IMPORT);
    hide Follow, JobInv, Local;
    ImportWork(work, verdict);
    hide ToWork;
    FollowConcat(v, ToWork, [LockApp, UnlockApp, ImportDone(verdict), Save]);
  }

  lemma ImportLocals(v: View, verdict: ImportStatus)
    requires v.task.Some? && v.cancel.Some? && v.task.value.pc == Working(IMPORT) && v.task.value.hasPath
    requires !v.task.value.latePost && Verdict(verdict)
    ensures Local(v, LockApp) == Some(At(v, Locked)) && Local(At(v, Locked), UnlockApp) == Some(v)
    ensures var saving := At(v, Saving(IMPORT, VerdictReached(verdict)));
      && Local(v, ImportDone(verdict)) == Some(saving)
      && Local(saving, Save) == Some(At(v.(row := v.row.(done := STEPS, importStatus := verdict)), Boundary(STEPS)))
  {
  }

  lemma ImportWork(v: View, verdict: ImportStatus)
    requires v.task.Some? && v.cancel.Some? && v.task.value.pc == Working(IMPORT) && v.task.value.hasPath
    requires !v.task.value.latePost && Verdict(verdict)
    ensures Follow(v, [LockApp, UnlockApp, ImportDone(verdict), Save]) ==
      Some(At(v.(row := v.row.(done := STEPS, importStatus := verdict)), Boundary(STEPS)))
  {
    var saving := At(v, Saving(IMPORT, VerdictReached(verdict)));
    ImportLocals(v, verdict);
    hide Local, At, Follow;
    FollowBoth(v, LockApp, At(v, Locked), UnlockApp);
    FollowBoth(v, ImportDone(verdict), saving, Save);
    FollowConcat(v, [LockApp, UnlockApp], [ImportDone(verdict), Save]);
    assert [LockApp, UnlockApp] + [ImportDone(verdict), Save] == [LockApp, UnlockApp, ImportDone(verdict), Save];
  }

  // ------------------------------------------------------------- steps already done

  /** What each step's done-check can say: a transcode that was not asked for counts as done,
      an import exactly when there is nothing to import or the verdict is final. */
  lemma DoneChecks(v: View, step: nat, skip: bool)
    requires v.task.Some? && v.task.value.pc == Entered(step) && v.cancel.Some?
    ensures Local(v, Decide(skip)).Some? <==>
      && step < STEPS
      && (step == TRANSCODE && !v.row.transcode ==> skip)
      && (step == IMPORT ==> skip == (v.row.media == Other || v.task.value.importStatus in {Imported, NotImported}))
  {
  }

  const Skip: seq<JobAction> := [Check, Decide(true), Save]

  /** A step that is done already is committed without its status or anything else. */
  lemma SkippedStepCommits(v: View, step: nat)
    requires Ready(v, step) && v.row.done == step && step < STEPS
    requires step == IMPORT ==> v.row.media == Other || v.task.value.importStatus in {Imported, NotImported}
    ensures Follow(v, Skip) == Some(Next(v, v.row))
  {
    var saving := At(v, Saving(step, NoFields));
    assert Local(At(v, Entered(step)), Decide(true)) == Some(saving) && Local(saving, Save) == Some(Next(v, v.row));
    Enters(v, step, true);
    hide Local;
    FollowOn(v, [Check, Decide(true)], saving, Save);
    assert [Check, Decide(true)] + [Save] == Skip;
  }

  // ------------------------------------------------------------- how a run ends

  lemma LoopCompletes(v: View)
    requires Ready(v, STEPS)
    ensures Follow(v, [LoopEnd, Terminate]) == Some(View(v.row.(status := Completed), None, None))
  {
    var ending := At(v, Ending(Completed));
    assert Local(v, LoopEnd) == Some(ending);
    assert Local(ending, Terminate) == Some(View(v.row.(status := Completed), None, None));
    hide Local;
    FollowBoth(v, LoopEnd, ending, Terminate);
  }

  lemma FollowBoth(v: View, a: JobAction, w: View, b: JobAction)
    requires Local(v, a) == Some(w) && Local(w, b).Some?
    ensures Follow(v, [a, b]) == Local(w, b)
  {
    hide Local;
    FollowFirst(v, a, [b]);
    FollowFirst(w, b, []);
    assert [a] + [b] == [a, b] && [b] + [] == [b];
  }

  /** Where a run sees its event: at the head of the loop, when it gets its slot, and in the
      work of a download or a transcode. It ends cancelled, and the flag is answered. */
  lemma EventEndsRun(v: View, a: JobAction)
    requires v.task.Some? && v.cancel == Some(true) && !v.task.value.latePost
    requires match v.task.value.pc
      case Boundary(step) => step < STEPS && a == Check
      case Acquired(step) => a == CheckHeld
      case Working(step) => step <= TRANSCODE && a == WorkCancelled
      case _ => false
    ensures Follow(v, [a, Terminate]) == Some(View(v.row.(status := Cancelled, cancelRequested := false), None, None))
  {
    var ending := At(v, Ending(Cancelled));
    assert Local(v, a) == Some(ending);
    assert Local(ending, Terminate) == Some(View(v.row.(status := Cancelled, cancelRequested := false), None, None));
    hide Local;
    FollowBoth(v, a, ending, Terminate);
  }

  /** Any other error ends the run as failed and leaves the flag. */
  lemma ErrorEndsRun(v: View)
    requires v.task.Some? && v.cancel.Some? && !v.task.value.pc.Ending? && !v.task.value.latePost
    ensures Follow(v, [Fail, Terminate]) == Some(View(v.row.(status := Failed), None, None))
  {
    var ending := At(v, Ending(Failed));
    assert Local(v, Fail) == Some(ending) && Local(ending, Terminate) == Some(View(v.row.(status := Failed), None, None));
    hide Local;
    FollowBoth(v, Fail, ending, Terminate);
  }

  /** A job becomes cancelled only by a cancel while it has no task, or by the run of a task
      whose event was set. */
  lemma CancelledOnlyIfAsked(v: View, a: JobAction)
    requires JobInv(v, true) && Local(v, a).Some?
    requires v.row.status != Cancelled && Local(v, a).value.row.status == Cancelled
    ensures (a == Cancel && v.row.status == Queued) || (a == Terminate && v.cancel == Some(true))
  {
    hide RowOk, PcOk;
  }

  // ------------------------------------------------------------- a whole run

  /** The steps of a run in which all the work there is gets done. */
  function Plan(row: Row, verdict: ImportStatus): seq<JobAction> {
    ToSlottedWork + [WorkDone, Save]
    + (if row.transcode then ToSlottedWork + [WorkDone, Save] else Skip)
    + Organize
    + (if row.media == Other then Skip else Import(verdict))
    + [LoopEnd, Terminate]
  }

  lemma DownloadOfRun(v: View) returns (w: View)
    requires JobInv(v, true) && Ready(v, DOWNLOAD)
    ensures JobInv(w, true) && Ready(w, TRANSCODE) && Follow(v, ToSlottedWork + [WorkDone, Save]) == Some(w)
    ensures w.row == v.row.(status := Downloading, done := 1)
  {
    hide JobInv, Follow, ToSlottedWork;
    ReadyFacts(v, DOWNLOAD);
    SlottedStepCommits(v, DOWNLOAD);
    w := Next(v, v.row.(status := Downloading));
    FollowKeepsInv(v, ToSlottedWork + [WorkDone, Save]);
  }

  lemma TranscodeOfRun(v: View) returns (w: View)
    requires JobInv(v, true) && Ready(v, TRANSCODE)
    ensures JobInv(w, true) && Ready(w, ORGANIZE)
    ensures Follow(v, if v.row.transcode then ToSlottedWork + [WorkDone, Save] else Skip) == Some(w)
    ensures w.row == v.row.(status := if v.row.transcode then Transcoding else v.row.status, done := 2)
  {
    hide JobInv, Follow, ToSlottedWork, Skip;
    ReadyFacts(v, TRANSCODE);
    if v.row.transcode {
      SlottedStepCommits(v, TRANSCODE);
      w := Next(v, v.row.(status := Transcoding));
    } else {
      SkippedStepCommits(v, TRANSCODE);
      w := Next(v, v.row);
    }
    FollowKeepsInv(v, if v.row.transcode then ToSlottedWork + [WorkDone, Save] else Skip);
  }

  lemma OrganizeOfRun(v: View) returns (w: View)
    requires JobInv(v, true) && Ready(v, ORGANIZE)
    ensures JobInv(w, true) && Ready(w, IMPORT) && Follow(v, Organize) == Some(w) && w.task.value.hasPath
    ensures w.row == v.row.(status := Organizing, done := 3, hasPath := true)
  {
    hide JobInv, Follow, Organize;
    ReadyFacts(v, ORGANIZE);
    OrganizeCommits(v);
    w := Follow(v, Organize).value;
    FollowKeepsInv(v, Organize);
  }

  lemma ImportOfRun(v: View, verdict: ImportStatus) returns (w: View)
    requires JobInv(v, true) && Ready(v, IMPORT) && v.task.value.hasPath && Verdict(verdict)
    ensures Ready(w, STEPS) && Follow(v, if v.row.media == Other then Skip else Import(verdict)) == Some(w)
    ensures v.row.media == Other ==> w.row == v.row.(done := STEPS) && v.row.importStatus == NotApplicable
    ensures v.row.media != Other ==> w.row == v.row.(status := Importing, done := STEPS, importStatus := verdict)
  {
    hide JobInv, Follow, Import, Skip;
    ReadyFacts(v, IMPORT);
    if v.row.media == Other { SkippedStepCommits(v, IMPORT); } else { ImportCommits(v, verdict); }
    w := Follow(v, if v.row.media == Other then Skip else Import(verdict)).value;
  }

  /** A new job that nobody cancels and whose work succeeds completes by its own steps, with
      its path recorded and the verdict of its import. */
  lemma WholeRun(v: View, verdict: ImportStatus)
    requires JobInv(v, true) && Ready(v, DOWNLOAD) && Verdict(verdict)
    ensures Follow(v, Plan(v.row, verdict)) == Some(View(
      v.row.(status := Completed, done := STEPS, hasPath := true,
             importStatus := if v.row.media == Other then NotApplicable else verdict),
      None, None))
  {
    var p, q := ToSlottedWork + [WorkDone, Save], if v.row.transcode then ToSlottedWork + [WorkDone, Save] else Skip;
    var r := if v.row.media == Other then Skip else Import(verdict);
    hide JobInv, Follow, Ready, Local, ToSlottedWork, Skip, Organize, Import, Verdict;
    var a := DownloadOfRun(v);
    var b := TranscodeOfRun(a);
    var d := OrganizeOfRun(b);
    var e := ImportOfRun(d, verdict);
    LoopCompletes(e);
    FollowConcat(v, p, q);
    FollowConcat(v, p + q, Organize);
    FollowConcat(v, p + q + Organize, r);
    FollowConcat(v, p + q + Organize + r, [LoopEnd, Terminate]);
  }

  /** From the row that creating a job writes to its last. */
  lemma NewJobCompletes(media: Media, transcode: bool, order: Key, verdict: ImportStatus)
    requires Verdict(verdict)
    ensures var row := NewRow(media, transcode, order);
      Follow(View(row, None, None), [Claim] + Plan(row, verdict)) == Some(View(
        Row(Completed, STEPS, false, if media == Other then NotApplicable else verdict, true, media, transcode, order),
        None, None))
  {
    var v := View(NewRow(media, transcode, order), None, None);
    NewRowOk(media, transcode, order);
    assert Local(v, Claim) == Some(Claimed(v)) && Ready(Claimed(v), DOWNLOAD) && Claimed(v).row == v.row.(status := Starting);
    hide Local, JobInv, Follow, Plan, Ready;
    LocalKeepsInv(v, Claim);
    WholeRun(Claimed(v), verdict);
    FollowFirst(v, Claim, Plan(v.row, verdict));
    assert Plan(Claimed(v).row, verdict) == Plan(v.row, verdict) by { SamePlan(v.row, Claimed(v).row, verdict); }
  }

  lemma SamePlan(a: Row, b: Row, verdict: ImportStatus)
    requires a.media == b.media && a.transcode == b.transcode
    ensures Plan(a, verdict) == Plan(b, verdict)
  {
  }
}
