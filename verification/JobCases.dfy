/** Runs from an empty database to the cases that the theorems speak of. */
module JobCases {
  import opened Wrappers
  import opened Jobs
  import opened JobSystem
  import opened JobTheorems
  import opened JobCompletion

  lemma {:induction false} RunsAppend(c: Config, s: State, actions: seq<Action>, t: State, a: Action, u: State)
    requires Runs(c, s, actions, t) && Apply(c, t, a) == Some(u)
    ensures Runs(c, s, actions + [a], u)
    decreases |actions|
  {
    hide Apply;
    if actions == [] {
      assert (actions + [a])[1..] == [];
      assert Runs(c, u, [], u);
    } else {
      assert (actions + [a])[1..] == actions[1..] + [a];
      RunsAppend(c, Apply(c, s, actions[0]).value, actions[1..], t, a, u);
    }
  }

  lemma ReachableStep(c: Config, s: State, a: Action, t: State)
    requires Reachable(c, s) && Apply(c, s, a) == Some(t)
    ensures Reachable(c, t)
  {
    hide Apply, Runs;
    var actions: seq<Action> :| Runs(c, Fresh, actions, s);
    RunsAppend(c, Fresh, actions, s, a, t);
  }

  /** One step of the only job there is. */
  lemma Go(c: Config, s: State, a: JobAction) returns (t: State)
    requires Reachable(c, s) && s.up && s.rows.Keys == {0}
    requires Local(ViewOf(s, 0), a).Some? && a != LockApp && a != Claim
    requires a == Acquire ==> PoolAfter(s.pool, 0, ViewOf(s, 0), a).Some?
    ensures Reachable(c, t) && t.up && t.rows.Keys == {0} && ViewOf(t, 0) == Local(ViewOf(s, 0), a).value
    ensures Some(t.pool) == PoolAfter(s.pool, 0, ViewOf(s, 0), a)
  {
    ReachableInvariant(c, s);
    GoWorks(s, a);
    t := Step(s, 0, a).value;
    hide Local, Step, PoolAfter, Reachable, SlotsOk, LocksOk, WakeOk;
    ReachableStep(c, s, On(0, a), t);
    StepFrame(s, 0, a, t);
  }

  lemma GoWorks(s: State, a: JobAction)
    requires s.up && s.rows.Keys == {0}
    requires Local(ViewOf(s, 0), a).Some? && a != LockApp && a != Claim
    requires a == Acquire ==> PoolAfter(s.pool, 0, ViewOf(s, 0), a).Some?
    ensures Step(s, 0, a).Some?
  {
    hide Local, ViewOf;
  }

  /** After a crash the process recovers and claims the only job again. */
  lemma CrashAndClaim(c: Config, s: State) returns (t: State)
    requires Reachable(c, s) && s.up && s.rows.Keys == {0} && c.autoResume
    requires Active(s.rows[0].status) && !s.rows[0].cancelRequested
    ensures Reachable(c, t) && t.up && t.rows.Keys == {0}
    ensures ViewOf(t, 0) == Claimed(View(s.rows[0].(status := Queued), None, None))
  {
    var down := Down(s);
    ReachableStep(c, s, Crash, down);
    t := ClaimOnly(c, down);
  }

  lemma ClaimOnly(c: Config, s: State) returns (t: State)
    requires Reachable(c, s) && !s.up && s.rows.Keys == {0} && c.autoResume
    requires Active(s.rows[0].status) && !s.rows[0].cancelRequested
    ensures Reachable(c, t) && t.up && t.rows.Keys == {0}
    ensures ViewOf(t, 0) == Claimed(View(s.rows[0].(status := Queued), None, None))
  {
    var up := Restarted(c, s);
    ReachableStep(c, s, Recover, up);
    var awake := up.(loop := Draining, wake := false);
    ReachableStep(c, up, LoopWake, awake);
    ReachableInvariant(c, awake);
    assert ViewOf(awake, 0) == View(s.rows[0].(status := Queued), None, None);
    assert IsFirst(awake, 0);
    t := Put(awake, 0, Claimed(ViewOf(awake, 0)));
    ReachableStep(c, awake, ClaimNext(0), t);
    ClaimFrame(awake, 0);
  }

  const StartKey := Key(0, 0, None, None, None)

  function StartRow(media: Media): Row {
    NewRow(media, false, StartKey)
  }

  /** The first job of a new database, claimed. */
  lemma FirstClaim(c: Config, media: Media) returns (t: State)
    ensures Reachable(c, t) && t.up && t.rows.Keys == {0} && t.pool == Pool(c.downloads, c.transcodes, None, None)
    ensures ViewOf(t, 0) == Claimed(View(StartRow(media), None, None))
  {
    assert Runs(c, Fresh, [], Fresh);
    var up := Restarted(c, Fresh);
    ReachableStep(c, Fresh, Recover, up);
    var made := up.(rows := up.rows[0 := StartRow(media)], owed := up.owed + multiset{0});
    ReachableStep(c, up, Create(0, media, false, StartKey), made);
    var awake := made.(loop := Draining, wake := false);
    ReachableStep(c, made, LoopWake, awake);
    assert IsFirst(awake, 0);
    t := Put(awake, 0, Claimed(ViewOf(awake, 0)));
    ReachableStep(c, awake, ClaimNext(0), t);
    assert ViewOf(awake, 0) == View(StartRow(media), None, None);
  }

  /** That job at a step, with no cancel asked for and no path recorded. */
  function Stage(media: Media, status: Status, done: nat, pc: Pc, wrote: bool): View {
    View(StartRow(media).(status := status, done := done),
         Some(Task(pc, false, StartRow(media).importStatus, wrote, false)), Some(false))
  }

  ghost predicate AtStage(c: Config, s: State, v: View) {
    Reachable(c, s) && s.up && s.rows.Keys == {0} && ViewOf(s, 0) == v
  }

  lemma GoTo(c: Config, s: State, a: JobAction, v: View, w: View) returns (t: State)
    requires AtStage(c, s, v) && Local(v, a) == Some(w) && a != Acquire && a != LockApp && a != Claim
    ensures AtStage(c, t, w) && Some(t.pool) == PoolAfter(s.pool, 0, v, a)
  {
    hide Local, PoolAfter, Reachable;
    t := Go(c, s, a);
  }

  /** Two steps in a row. */
  lemma GoTwice(c: Config, s: State, a: JobAction, b: JobAction, v: View, w: View) returns (t: State)
    requires AtStage(c, s, v) && Local(v, a).Some? && Local(Local(v, a).value, b) == Some(w)
    requires a != Acquire && a != LockApp && a != Claim && b != Acquire && b != LockApp && b != Claim
    ensures AtStage(c, t, w)
  {
    hide Local, PoolAfter, AtStage;
    t := GoTo(c, s, a, v, Local(v, a).value);
    t := GoTo(c, t, b, Local(v, a).value, w);
  }

  lemma DownloadSteps(media: Media)
    ensures Local(Stage(media, Starting, DOWNLOAD, Acquired(DOWNLOAD), false), CheckHeld)
            == Some(Stage(media, Starting, DOWNLOAD, Announcing(DOWNLOAD), false))
    ensures Local(Stage(media, Starting, DOWNLOAD, Announcing(DOWNLOAD), false), Announce)
            == Some(Stage(media, Downloading, DOWNLOAD, Working(DOWNLOAD), false))
  {
  }

  lemma DownloadSaves(media: Media)
    ensures Local(Stage(media, Downloading, DOWNLOAD, Working(DOWNLOAD), false), WorkDone)
            == Some(Stage(media, Downloading, DOWNLOAD, Saving(DOWNLOAD, NoFields), false))
    ensures Local(Stage(media, Downloading, DOWNLOAD, Saving(DOWNLOAD, NoFields), false), Save)
            == Some(Stage(media, Downloading, TRANSCODE, Boundary(TRANSCODE), false))
  {
  }

  lemma BoundarySteps(media: Media, status: Status, step: nat, skip: bool)
    requires step == TRANSCODE || step == ORGANIZE
    requires step == TRANSCODE ==> skip
    ensures Local(Stage(media, status, step, Boundary(step), false), Check)
            == Some(Stage(media, status, step, Entered(step), false))
    ensures Local(Stage(media, status, step, Entered(step), false), Decide(skip))
            == Some(Stage(media, status, step, if skip then Saving(step, NoFields) else Announcing(step), false))
  {
  }

  lemma SaveStep(media: Media, status: Status, step: nat)
    requires step == TRANSCODE || step == ORGANIZE
    ensures Local(Stage(media, status, step, Saving(step, NoFields), false), Save)
            == Some(Stage(media, status, step + 1, Boundary(step + 1), false))
  {
  }

  lemma OrganizeStarts(media: Media)
    ensures Local(Stage(media, Downloading, ORGANIZE, Announcing(ORGANIZE), false), Announce)
            == Some(Stage(media, Organizing, ORGANIZE, Working(ORGANIZE), true))
  {
  }

  lemma RunDownload(c: Config, media: Media) returns (t: State)
    requires c.downloads > 0
    ensures AtStage(c, t, Stage(media, Downloading, TRANSCODE, Boundary(TRANSCODE), false))
  {
    t := RunToSlot(c, media);
    DownloadSteps(media);
    DownloadSaves(media);
    hide AtStage, PoolAfter, Local, Stage;
    var working := Stage(media, Downloading, DOWNLOAD, Working(DOWNLOAD), false);
    t := GoTwice(c, t, CheckHeld, Announce, Stage(media, Starting, DOWNLOAD, Acquired(DOWNLOAD), false), working);
    t := GoTwice(c, t, WorkDone, Save, working, Stage(media, Downloading, TRANSCODE, Boundary(TRANSCODE), false));
  }

  lemma RunToSlot(c: Config, media: Media) returns (t: State)
    requires c.downloads > 0
    ensures AtStage(c, t, Stage(media, Starting, DOWNLOAD, Acquired(DOWNLOAD), false))
  {
    t := FirstClaim(c, media);
    var first := Stage(media, Starting, DOWNLOAD, Boundary(DOWNLOAD), false);
    assert AtStage(c, t, first);
    hide Reachable;
    t := GoTo(c, t, Check, first, Stage(media, Starting, DOWNLOAD, Entered(DOWNLOAD), false));
    t := GoTo(c, t, Decide(false), Stage(media, Starting, DOWNLOAD, Entered(DOWNLOAD), false),
              Stage(media, Starting, DOWNLOAD, Waiting(DOWNLOAD), false));
    t := Go(c, t, Acquire);
  }

  /** That job, downloaded and about to move its files. */
  lemma RunToOrganizing(c: Config, media: Media) returns (t: State)
    requires c.downloads > 0
    ensures AtStage(c, t, Stage(media, Organizing, ORGANIZE, Working(ORGANIZE), true))
  {
    t := RunDownload(c, media);
    BoundarySteps(media, Downloading, TRANSCODE, true);
    SaveStep(media, Downloading, TRANSCODE);
    BoundarySteps(media, Downloading, ORGANIZE, false);
    OrganizeStarts(media);
    hide AtStage, PoolAfter, Local, Stage;
    var saving := Stage(media, Downloading, TRANSCODE, Saving(TRANSCODE, NoFields), false);
    var next := Stage(media, Downloading, ORGANIZE, Boundary(ORGANIZE), false);
    var announcing := Stage(media, Downloading, ORGANIZE, Announcing(ORGANIZE), false);
    t := GoTwice(c, t, Check, Decide(true), Stage(media, Downloading, TRANSCODE, Boundary(TRANSCODE), false), saving);
    t := GoTo(c, t, Save, saving, next);
    t := GoTwice(c, t, Check, Decide(false), next, announcing);
    t := GoTo(c, t, Announce, announcing, Stage(media, Organizing, ORGANIZE, Working(ORGANIZE), true));
  }

  /** A crash after the last move and before the organize checkpoint leads to a lost job. */
  lemma LostIsReachable(c: Config, media: Media) returns (t: State)
    requires c.downloads > 0 && c.autoResume && media != Other
    ensures Reachable(c, t) && 0 in t.rows && Lost(ViewOf(t, 0))
  {
    t := RunToOrganizing(c, media);
    t := CrashAndClaim(c, t);
    var again := Stage(media, Starting, ORGANIZE, Boundary(ORGANIZE), false);
    assert AtStage(c, t, again);
    BoundarySteps(media, Starting, ORGANIZE, true);
    SaveStep(media, Starting, ORGANIZE);
    var saving := Stage(media, Starting, ORGANIZE, Saving(ORGANIZE, NoFields), false);
    hide PoolAfter, Reachable, Local;
    t := GoTwice(c, t, Check, Decide(true), again, saving);
    t := GoTo(c, t, Save, saving, Stage(media, Starting, IMPORT, Boundary(IMPORT), false));
  }

  lemma MovedSteps(media: Media) returns (saved: View)
    ensures var v := Stage(media, Organizing, ORGANIZE, Working(ORGANIZE), true);
      Local(v, WorkDone).Some? && Local(Local(v, WorkDone).value, Save) == Some(saved)
    ensures saved.row == StartRow(media).(status := Organizing, done := IMPORT, hasPath := true)
  {
    var moved := Local(Stage(media, Organizing, ORGANIZE, Working(ORGANIZE), true), WorkDone).value;
    saved := Local(moved, Save).value;
  }

  lemma RunPastLastCheck(c: Config, media: Media) returns (s: State)
    requires c.downloads > 0 && c.autoResume
    ensures Reachable(c, s) && s.up && s.rows.Keys == {0} && 0 in s.tasks && 0 in s.cancels
    ensures s.tasks[0].pc == Entered(IMPORT) && s.tasks[0].hasPath && s.rows[0].status == Starting
  {
    hide Reachable, PoolAfter;
    s := RunToOrganizing(c, media);
    var saved := MovedSteps(media);
    {
      hide Local, Stage;
      s := GoTwice(c, s, WorkDone, Save, Stage(media, Organizing, ORGANIZE, Working(ORGANIZE), true), saved);
    }
    assert s.rows[0] == saved.row;
    s := CrashAndClaim(c, s);
    var again := Claimed(View(saved.row.(status := Queued), None, None));
    s := GoTo(c, s, Check, again, At(again, Entered(IMPORT)));
    assert s.rows[0] == ViewOf(s, 0).row && ViewOf(s, 0).task.Some? && ViewOf(s, 0).cancel.Some?;
  }

  /** A crash after the organize checkpoint leads to a run in which an accepted cancel can be
      overtaken: the row still says STARTING, and the last check is behind it. */
  lemma LateCancelIsReachable(c: Config, media: Media) returns (s: State, t: State)
    requires c.downloads > 0 && c.autoResume
    ensures Reachable(c, s) && 0 in s.tasks && s.rows.Keys == {0} && s.rows[0].status == Starting
    ensures Apply(c, s, On(0, Cancel)) == Some(t) && CanComplete(c, t, 0)
  {
    s := RunPastLastCheck(c, media);
    ReachableInvariant(c, s);
    assert Local(ViewOf(s, 0), Cancel).Some?;
    GoWorks(s, Cancel);
    t := Step(s, 0, Cancel).value;
    hide Local, Step, Reachable, Inv, CanComplete;
    AcceptedCancelIsSeenUnlessPastLastCheck(c, s, 0, t);
  }
}
