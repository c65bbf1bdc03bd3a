/** Claims, enqueues and leftover cancel flags over every run of the job system
    (backend/app/jobs/manager.py, lines 229-303 and 586-606; service.py, lines 82-142). */
module JobRuns {
  import opened Wrappers
  import opened Jobs
  import opened JobSystem
  import opened JobTheorems
  import opened JobCases

  // ------------------------------------------------------------ each enqueue, one claim

  function Bit(b: bool): nat {
    if b then 1 else 0
  }

  /** How often the claim loop takes `j`. */
  function Claims(actions: seq<Action>, j: JobId): nat {
    if actions == [] then 0 else Bit(actions[0] == ClaimNext(j)) + Claims(actions[1..], j)
  }

  /** How often `j` comes into the queue. */
  function Enqueues(c: Config, s: State, actions: seq<Action>, j: JobId): nat
    decreases |actions|
  {
    if actions == [] || Apply(c, s, actions[0]).None? then 0
    else
      var next := Apply(c, s, actions[0]).value;
      Bit(!IsQueued(s, j) && IsQueued(next, j)) + Enqueues(c, next, actions[1..], j)
  }

  /** How often `j` is cancelled while it waits in the queue. */
  function Withdrawals(c: Config, s: State, actions: seq<Action>, j: JobId): nat
    decreases |actions|
  {
    if actions == [] || Apply(c, s, actions[0]).None? then 0
    else
      Bit(actions[0] == On(j, Cancel) && IsQueued(s, j))
      + Withdrawals(c, Apply(c, s, actions[0]).value, actions[1..], j)
  }

  /** What puts a job into the queue. */
  predicate Puts(a: Action, j: JobId) {
    || (a.Create? && a.job == j) || a == On(j, Retry) || a == On(j, RetryImport) || a == Recover
  }

  lemma LocalQueue(v: View, a: JobAction)
    requires JobInv(v, true) && Local(v, a).Some? && a != Claim
    ensures var w := Local(v, a).value;
      && (v.row.status == Queued ==> (w.row.status == Queued <==> a != Cancel))
      && (v.row.status != Queued && w.row.status == Queued ==> a == Retry || a == RetryImport)
  {
    if a == Terminate { TerminateEnds(v); }
    hide TaskOk, RowOk;
  }

  lemma TerminateEnds(v: View)
    requires JobInv(v, true) && Local(v, Terminate).Some?
    ensures Terminal(Local(v, Terminate).value.row.status)
  {
    hide RowOk;
  }

  /** A job leaves the queue by its claim or by a cancel, and by nothing else. */
  lemma QueueStep(c: Config, s: State, a: Action, j: JobId)
    requires Inv(c, s) && Apply(c, s, a).Some?
    ensures var t := Apply(c, s, a).value;
      && (a == ClaimNext(j) ==> IsQueued(s, j))
      && (IsQueued(s, j) ==> (IsQueued(t, j) <==> a != ClaimNext(j) && a != On(j, Cancel)))
      && (!IsQueued(s, j) && IsQueued(t, j) ==> Puts(a, j))
  {
    var t := Apply(c, s, a).value;
    if j in s.rows {
      ActionOnRow(c, s, a, j);
      ViewInvariant(c, s, j);
      if a.On? && a.job == j { QueueOfClaim(c, s, a, j); LocalQueue(ViewOf(s, j), a.step); }
      hide Apply, Inv, Local, JobInv;
      assert t.rows[j] == ViewOf(t, j).row && s.rows[j] == ViewOf(s, j).row;
    } else {
      NewRowsAreCreated(c, s, a, j);
    }
  }

  lemma QueueOfClaim(c: Config, s: State, a: Action, j: JobId)
    requires Apply(c, s, a).Some? && a.On? && a.job == j
    ensures a.step != Claim
  {
    hide Local, PoolAfter;
  }

  lemma NewRowsAreCreated(c: Config, s: State, a: Action, j: JobId)
    requires Inv(c, s) && Apply(c, s, a).Some? && j !in s.rows
    ensures j in Apply(c, s, a).value.rows ==> a.Create? && a.job == j
    ensures a != ClaimNext(j)
  {
    hide Local, PoolAfter, JobInv;
    if a.On? { StepFrame(s, a.job, a.step, Apply(c, s, a).value); }
  }

  /** Nothing is claimed twice and nothing is forgotten: over every run, the claims of a job and
      its withdrawals from the queue, and its place in the queue at the end, are its enqueues and
      its place in the queue at the start. */
  lemma {:induction false} ClaimsBalanceEnqueues(c: Config, s: State, actions: seq<Action>, t: State, j: JobId)
    requires Inv(c, s) && Runs(c, s, actions, t)
    ensures Claims(actions, j) + Withdrawals(c, s, actions, j) + Bit(IsQueued(t, j)) ==
            Enqueues(c, s, actions, j) + Bit(IsQueued(s, j))
    decreases |actions|
  {
    hide Apply, Inv, IsQueued;
    if actions != [] {
      var next := Apply(c, s, actions[0]).value;
      QueueStep(c, s, actions[0], j);
      ActionKeepsInvariant(c, s, actions[0]);
      ClaimsBalanceEnqueues(c, next, actions[1..], t, j);
    }
  }

  lemma {:induction false} ClaimsAt(actions: seq<Action>, j: JobId, i: nat)
    requires i < |actions| && actions[i] == ClaimNext(j)
    ensures Claims(actions, j) >= 1
  {
    if i > 0 { ClaimsAt(actions[1..], j, i - 1); }
  }

  /** Between two claims of a job something has put it into the queue again. */
  lemma {:induction false} EnqueuedBetween(c: Config, s: State, actions: seq<Action>, t: State, j: JobId)
    requires Inv(c, s) && Runs(c, s, actions, t) && !IsQueued(s, j) && Claims(actions, j) > 0
    ensures exists i :: 0 <= i < |actions| && Puts(actions[i], j)
    decreases |actions|
  {
    hide Apply, Inv, IsQueued;
    var next := Apply(c, s, actions[0]).value;
    QueueStep(c, s, actions[0], j);
    ActionKeepsInvariant(c, s, actions[0]);
    if !Puts(actions[0], j) {
      EnqueuedBetween(c, next, actions[1..], t, j);
      var i :| 0 <= i < |actions[1..]| && Puts(actions[1..][i], j);
      assert actions[i + 1] == actions[1..][i];
    }
  }

  // ------------------------------------------------------- a cancel flag from a run before

  /** The task of `j` goes on, and no cancel of it is accepted. */
  ghost predicate GoesOn(actions: seq<Action>, j: JobId) {
    forall i :: 0 <= i < |actions| ==>
      actions[i] != Crash && actions[i] != On(j, Terminate) && actions[i] != On(j, Cancel)
  }

  lemma LocalKeepsFlag(v: View, a: JobAction)
    requires JobInv(v, true) && v.task.Some? && Local(v, a).Some? && a != Terminate && a != Cancel
    ensures Local(v, a).value.task.Some? && Local(v, a).value.row.cancelRequested == v.row.cancelRequested
  {
    hide TaskOk, RowOk;
  }

  lemma ActionKeepsFlag(c: Config, s: State, a: Action, j: JobId)
    requires Inv(c, s) && Apply(c, s, a).Some? && s.up && j in s.rows && j in s.tasks
    requires a != Crash && a != On(j, Terminate) && a != On(j, Cancel)
    ensures var t := Apply(c, s, a).value;
      t.up && j in t.rows && j in t.tasks && t.rows[j].cancelRequested == s.rows[j].cancelRequested
  {
    ActionOnRow(c, s, a, j);
    ViewInvariant(c, s, j);
    if a.On? && a.job == j { LocalKeepsFlag(ViewOf(s, j), a.step); }
    TaskIsNotQueued(ViewOf(s, j));
    hide Apply, Inv, Local, JobInv;
    var t := Apply(c, s, a).value;
    assert t.rows[j] == ViewOf(t, j).row && s.rows[j] == ViewOf(s, j).row;
    assert ViewOf(t, j).task.Some? ==> j in t.tasks;
  }

  lemma TaskIsNotQueued(v: View)
    requires JobInv(v, true) && v.task.Some?
    ensures Active(v.row.status)
  {
  }

  lemma {:induction false} RunKeepsFlag(c: Config, s: State, actions: seq<Action>, t: State, j: JobId)
    requires Inv(c, s) && s.up && j in s.rows && j in s.tasks && Runs(c, s, actions, t) && GoesOn(actions, j)
    ensures t.up && j in t.rows && j in t.tasks && t.rows[j].cancelRequested == s.rows[j].cancelRequested
    ensures Inv(c, t)
    decreases |actions|
  {
    hide Apply, Inv;
    if actions != [] {
      assert actions[0] != Crash && actions[0] != On(j, Terminate) && actions[0] != On(j, Cancel);
      ActionKeepsFlag(c, s, actions[0], j);
      ActionKeepsInvariant(c, s, actions[0]);
      assert GoesOn(actions[1..], j);
      RunKeepsFlag(c, Apply(c, s, actions[0]).value, actions[1..], t, j);
    }
  }

  /** A job was claimed, its task went on with no cancel accepted, and the process crashed.
      Recovery then cancels it if and only if the row it was claimed with already asked for a
      cancel: a flag left from a run before, which `retry` keeps. */
  lemma CancelledWithoutACancel(c: Config, q: State, j: JobId, s: State, actions: seq<Action>, t: State)
    requires Inv(c, q) && Apply(c, q, ClaimNext(j)) == Some(s) && j in q.rows
    requires Runs(c, s, actions, t) && GoesOn(actions, j)
    ensures Apply(c, t, Crash).Some? && Apply(c, Apply(c, t, Crash).value, Recover).Some?
    ensures var u := Apply(c, Apply(c, t, Crash).value, Recover).value;
      j in u.rows && (u.rows[j].status == Cancelled <==> q.rows[j].cancelRequested)
  {
    hide Inv, Runs, Live, Restarted;
    ClaimKeepsFlag(c, q, j, s);
    RunKeepsFlag(c, s, actions, t, j);
    hide Apply, GoesOn;
    RecoveredByFlag(c, t, j);
  }

  lemma ClaimKeepsFlag(c: Config, q: State, j: JobId, s: State)
    requires Inv(c, q) && Apply(c, q, ClaimNext(j)) == Some(s) && j in q.rows
    ensures Inv(c, s) && s.up && j in s.rows && j in s.tasks && s.rows[j].cancelRequested == q.rows[j].cancelRequested
  {
    ActionOnRow(c, q, ClaimNext(j), j);
    ActionKeepsInvariant(c, q, ClaimNext(j));
    hide Inv, Live;
    assert s.rows[j] == ViewOf(s, j).row && q.rows[j] == ViewOf(q, j).row && ViewOf(s, j).task.Some?;
  }

  lemma RecoveredByFlag(c: Config, t: State, j: JobId)
    requires Inv(c, t) && t.up && j in t.rows && j in t.tasks
    ensures Apply(c, t, Crash).Some? && Apply(c, Apply(c, t, Crash).value, Recover).Some?
    ensures var u := Apply(c, Apply(c, t, Crash).value, Recover).value;
      j in u.rows && (u.rows[j].status == Cancelled <==> t.rows[j].cancelRequested)
  {
    ViewInvariant(c, t, j);
    TaskIsNotQueued(ViewOf(t, j));
    CrashThenRecover(c, t);
    hide Inv, JobInv, Apply;
    assert t.rows[j] == ViewOf(t, j).row;
    FlagDecides(t.rows[j], c.autoResume);
  }

  lemma FlagDecides(row: Row, autoResume: bool)
    requires Active(row.status)
    ensures Recovered(row, autoResume).status == Cancelled <==> row.cancelRequested
  {
  }

  lemma CrashThenRecover(c: Config, t: State)
    requires t.up
    ensures Apply(c, t, Crash) == Some(Down(t)) && Apply(c, Down(t), Recover) == Some(Restarted(c, Down(t)))
  {
    hide Live, Restarted;
  }

  /** A waiting job with such a flag, after a restart and a claim. */
  lemma RestartAndClaim(c: Config, s: State) returns (t: State)
    requires Reachable(c, s) && s.up && s.rows.Keys == {0} && s.rows[0].status == Queued
    ensures Reachable(c, t) && t.up && t.rows.Keys == {0}
    ensures ViewOf(t, 0) == Claimed(View(s.rows[0], None, None))
  {
    hide Reachable;
    var down := Down(s);
    ReachableStep(c, s, Crash, down);
    var up := Restarted(c, down);
    ReachableStep(c, down, Recover, up);
    var awake := up.(loop := Draining, wake := false);
    ReachableStep(c, up, LoopWake, awake);
    ReachableInvariant(c, awake);
    assert ViewOf(awake, 0) == View(s.rows[0], None, None);
    assert IsFirst(awake, 0);
    t := Put(awake, 0, Claimed(ViewOf(awake, 0)));
    ReachableStep(c, awake, ClaimNext(0), t);
    hide Inv;
    ClaimFrame(awake, 0);
  }

  function Row0(media: Media, status: Status, flag: bool): Row {
    StartRow(media).(status := status, cancelRequested := flag)
  }

  function Claimed0(media: Media, pc: Pc, flag: bool): View {
    View(Row0(media, Starting, flag), Some(Task(pc, false, StartRow(media).importStatus, false, false)), Some(flag))
  }

  lemma CancelStep0(media: Media)
    ensures Local(Claimed0(media, Boundary(0), false), Cancel) == Some(Claimed0(media, Boundary(0), true))
  {
  }

  lemma FailStep0(media: Media)
    ensures Local(Claimed0(media, Boundary(0), true), Fail) == Some(Claimed0(media, Ending(Failed), true))
  {
  }

  lemma TerminateStep0(media: Media)
    ensures Local(Claimed0(media, Ending(Failed), true), Terminate) == Some(View(Row0(media, Failed, true), None, None))
  {
  }

  lemma RetryStep0(media: Media)
    ensures Local(View(Row0(media, Failed, true), None, None), Retry) == Some(View(Row0(media, Queued, true), None, None))
  {
  }

  lemma ClaimStep0(media: Media)
    ensures Claimed(View(StartRow(media), None, None)) == Claimed0(media, Boundary(0), false)
  {
  }

  /** A job whose accepted cancel its run did not live to see, retried by the user. */
  lemma RetriedWithFlag(c: Config, media: Media) returns (s: State)
    ensures AtStage(c, s, View(Row0(media, Queued, true), None, None))
  {
    ClaimStep0(media);
    CancelStep0(media);
    FailStep0(media);
    TerminateStep0(media);
    RetryStep0(media);
    s := FirstClaim(c, media);
    hide Local, PoolAfter, Claimed, Reachable, Claimed0, Row0, StartRow;
    assert AtStage(c, s, Claimed0(media, Boundary(0), false));
    hide AtStage;
    s := GoTo(c, s, Cancel, Claimed0(media, Boundary(0), false), Claimed0(media, Boundary(0), true));
    s := GoTo(c, s, Fail, Claimed0(media, Boundary(0), true), Claimed0(media, Ending(Failed), true));
    s := GoTo(c, s, Terminate, Claimed0(media, Ending(Failed), true), View(Row0(media, Failed, true), None, None));
    s := GoTo(c, s, Retry, View(Row0(media, Failed, true), None, None), View(Row0(media, Queued, true), None, None));
  }

  /** This does come up: a cancel is accepted, the run fails before it looks, the user retries,
      and after a crash the job the user asked for is cancelled. */
  lemma RetriedJobIsCancelled(c: Config, media: Media) returns (retried: State, claimed: State)
    ensures Reachable(c, retried) && retried.up && retried.rows.Keys == {0}
    ensures retried.rows[0] == Row0(media, Queued, true)
    ensures Reachable(c, claimed) && claimed.up && claimed.rows.Keys == {0}
    ensures ViewOf(claimed, 0) == Claimed(View(retried.rows[0], None, None))
    ensures var u := Restarted(c, Down(claimed)); u.rows[0].status == Cancelled
  {
    retried := RetriedWithFlag(c, media);
    hide Reachable;
    assert retried.rows[0] == ViewOf(retried, 0).row;
    claimed := RestartAndClaim(c, retried);
    assert claimed.rows[0] == ViewOf(claimed, 0).row;
  }
}
