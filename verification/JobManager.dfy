/** The manager and the service as the objects they are: fields that the claim loop, recovery
    and the user's actions rewrite in place. Each method is one or more transitions of the
    job system (backend/app/jobs/manager.py, service.py). */
module JobManager {
  import opened Wrappers
  import opened Jobs
  import opened JobSystem

  // ------------------------------------------------------------- the claim order is total

  lemma {:induction false} LexLessTotal(a: seq<Option<int>>, b: seq<Option<int>>)
    ensures LexLess(a, b) || LexLess(b, a) || a == b
    ensures !(LexLess(a, b) && LexLess(b, a)) && !LexLess(a, a)
  {
    if a != [] && b != [] && a[0] == b[0] {
      LexLessTotal(a[1..], b[1..]);
      assert a == [a[0]] + a[1..] && b == [b[0]] + b[1..];
    }
    if a != [] { LexLessIrreflexive(a); }
  }

  lemma {:induction false} LexLessIrreflexive(a: seq<Option<int>>)
    ensures !LexLess(a, a)
  {
    if a != [] { LexLessIrreflexive(a[1..]); }
  }

  lemma {:induction false} LexLessTransitive(a: seq<Option<int>>, b: seq<Option<int>>, c: seq<Option<int>>)
    requires LexLess(a, b) && LexLess(b, c)
    ensures LexLess(a, c)
  {
    if a != [] && a[0] == b[0] && b[0] == c[0] {
      LexLessTransitive(a[1..], b[1..], c[1..]);
    }
  }

  /** The first column in which two keys differ decides, and the smaller comes first. */
  lemma {:induction false} FirstDifferenceDecides(a: seq<Option<int>>, b: seq<Option<int>>, k: nat)
    requires k < |a| && k < |b| && a[..k] == b[..k] && ColumnLess(a[k], b[k])
    ensures LexLess(a, b)
  {
    if k > 0 {
      assert a[..k][0] == b[..k][0] && a[..k][1..] == a[1..][..k - 1] && b[..k][1..] == b[1..][..k - 1];
      FirstDifferenceDecides(a[1..], b[1..], k - 1);
    }
  }

  /** A missing season, episode or air date comes first, as NULL does in SQLite. */
  predicate AtMost(a: Option<int>, b: Option<int>) {
    a.None? || (b.Some? && a.value <= b.value)
  }

  /** The documented order, for two jobs with these keys and ids: the oldest request first; in
      one request the oldest job; then by season, episode and air date; and the id decides. */
  predicate Documented(a: Key, i: JobId, b: Key, j: JobId) {
    if a.requestCreated != b.requestCreated then a.requestCreated < b.requestCreated
    else if a.jobCreated != b.jobCreated then a.jobCreated < b.jobCreated
    else if a.season != b.season then AtMost(a.season, b.season)
    else if a.episode != b.episode then AtMost(a.episode, b.episode)
    else if a.airDate != b.airDate then AtMost(a.airDate, b.airDate)
    else i <= j
  }

  /** Each job once, and of two the one the documented order puts first comes first. */
  predicate InDocumentedOrder(rows: map<JobId, Row>, claimed: seq<JobId>) {
    forall i, k :: 0 <= i < k < |claimed| ==> ComesFirst(rows, claimed[i], claimed[k])
  }

  predicate ComesFirst(rows: map<JobId, Row>, i: JobId, j: JobId) {
    i in rows && j in rows && i != j && Documented(rows[i].order, i, rows[j].order, j)
  }

  lemma BeforeIsDocumented(s: State, i: JobId, j: JobId)
    requires i in s.rows && j in s.rows && i != j
    ensures Before(s, i, j) <==> Documented(s.rows[i].order, i, s.rows[j].order, j)
  {
    var a, b := s.rows[i].order, s.rows[j].order;
    LexLessFive(Columns(a), Columns(b));
  }

  lemma LexLessFive(a: seq<Option<int>>, b: seq<Option<int>>)
    requires |a| == 5 && |b| == 5
    ensures LexLess(a, b) <==>
      || ColumnLess(a[0], b[0])
      || (a[0] == b[0] && ColumnLess(a[1], b[1]))
      || (a[0] == b[0] && a[1] == b[1] && ColumnLess(a[2], b[2]))
      || (a[0] == b[0] && a[1] == b[1] && a[2] == b[2] && ColumnLess(a[3], b[3]))
      || (a[0] == b[0] && a[1] == b[1] && a[2] == b[2] && a[3] == b[3] && ColumnLess(a[4], b[4]))
  {
    hide ColumnLess;
    LexLessNext(a, b);
    LexLessNext(a[1..], b[1..]);
    LexLessNext(a[2..], b[2..]);
    LexLessNext(a[3..], b[3..]);
    LexLessNext(a[4..], b[4..]);
    assert a[1..][1..] == a[2..] && a[2..][1..] == a[3..] && a[3..][1..] == a[4..] && a[4..][1..] == [];
    assert b[1..][1..] == b[2..] && b[2..][1..] == b[3..] && b[3..][1..] == b[4..] && b[4..][1..] == [];
  }

  lemma LexLessNext(a: seq<Option<int>>, b: seq<Option<int>>)
    requires a != [] && b != []
    ensures LexLess(a, b) <==> ColumnLess(a[0], b[0]) || (a[0] == b[0] && LexLess(a[1..], b[1..]))
  {
  }

  lemma BeforeTransitive(s: State, i: JobId, j: JobId, k: JobId)
    requires i in s.rows && j in s.rows && k in s.rows && Before(s, i, j) && Before(s, j, k)
    ensures Before(s, i, k)
  {
    var a, b, d := Columns(s.rows[i].order), Columns(s.rows[j].order), Columns(s.rows[k].order);
    hide Columns;
    if LexLess(a, b) && LexLess(b, d) { LexLessTransitive(a, b, d); }
  }

  lemma BeforeTotal(s: State, i: JobId, j: JobId)
    requires i in s.rows && j in s.rows && i != j
    ensures Before(s, i, j) <==> !Before(s, j, i)
  {
    LexLessTotal(Columns(s.rows[i].order), Columns(s.rows[j].order));
  }

  lemma RecoveredInactive(rows: map<JobId, Row>, autoResume: bool)
    ensures forall j :: j in rows && !Active(rows[j].status) ==> Recovered(rows[j], autoResume) == rows[j]
  {
  }

  /** What recovery leaves of a row: one that nobody was working on as it was; any other, with
      its flag answered, cancelled if that was asked for, else queued again or failed. */
  predicate RecoveredAs(before: Row, autoResume: bool, after: Row) {
    if before.status in {Queued, Completed, Failed, Cancelled} then after == before
    else
      && after == before.(status := after.status, cancelRequested := false)
      && after.status == if before.cancelRequested then Cancelled else if autoResume then Queued else Failed
  }

  lemma RecoveredSpelled(row: Row, autoResume: bool)
    ensures RecoveredAs(row, autoResume, Recovered(row, autoResume))
  {
  }

  lemma OutcomeIsRecovered(row: Row, autoResume: bool, recovered: Row)
    requires Active(row.status) && !recovered.cancelRequested
    requires recovered.status == if row.cancelRequested then Cancelled else if autoResume then Queued else Failed
    requires recovered == row.(status := recovered.status, cancelRequested := false)
    ensures recovered == Recovered(row, autoResume)
  {
  }

  datatype CancelResult = NotFound | TooLate | Accepted
  datatype RetryResult = NoSuchJob | NotPossible | Requeued

  class Manager {
    const config: Config
    var rows: map<JobId, Row>
    var tasks: map<JobId, Task>
    var cancels: map<JobId, bool>
    var up: bool
    var loop: Loop
    var wake: bool
    var owed: multiset<JobId>
    var pool: Pool

    function Now(): State
      reads this
    {
      State(rows, tasks, cancels, up, loop, wake, owed, pool)
    }

    ghost predicate Valid()
      reads this
    {
      Inv(config, Now())
    }

    constructor (config: Config)
      ensures Valid() && Now() == Fresh && this.config == config
    {
      this.config := config;
      rows, tasks, cancels := map[], map[], map[];
      up, loop, wake, owed := false, Idle, false, multiset{};
      pool := Pool(0, 0, None, None);
      new;
      FreshInvariant(config);
    }

    /** `recover`: the active rows, one by one, in one transaction. */
    method RecoverRows()
      modifies this`rows
      ensures rows.Keys == old(rows).Keys
      ensures forall j :: j in rows ==> RecoveredAs(old(rows)[j], config.autoResume, rows[j])
      ensures forall j :: j in rows ==> rows[j] == Recovered(old(rows)[j], config.autoResume)
    {
      ghost var before := rows;
      RecoveredInactive(before, config.autoResume);
      hide Recovered, Active, RecoveredAs;
      var rest := set j | j in rows && Active(rows[j].status);
      while rest != {}
        invariant rest <= before.Keys && rows.Keys == before.Keys
        invariant forall j :: j in rest ==> rows[j] == before[j] && Active(before[j].status)
        invariant forall j :: j in rows && j !in rest ==> rows[j] == Recovered(before[j], config.autoResume)
        decreases |rest|
      {
        var j :| j in rest;
        var row := RecoverRow(rows[j]);
        OutcomeIsRecovered(rows[j], config.autoResume, row);
        rows := rows[j := row];
        rest := rest - {j};
      }
      forall j | j in rows ensures RecoveredAs(before[j], config.autoResume, rows[j]) {
        RecoveredSpelled(before[j], config.autoResume);
      }
    }

    method RecoverRow(row: Row) returns (recovered: Row)
      requires Active(row.status)
      ensures row.cancelRequested ==> recovered.status == Cancelled && !recovered.cancelRequested
      ensures !row.cancelRequested ==>
        !recovered.cancelRequested && recovered.status == if config.autoResume then Queued else Failed
      ensures recovered.done == row.done && recovered.importStatus == row.importStatus && recovered.hasPath == row.hasPath
      ensures recovered.media == row.media && recovered.transcode == row.transcode && recovered.order == row.order
    {
      if row.cancelRequested {
        recovered := row.(status := Cancelled, cancelRequested := false);
      } else if config.autoResume {
        recovered := row.(status := Queued);
      } else {
        recovered := row.(status := Failed);
      }
    }

    /** `start`: recovery, then the loop begins with a wake. */
    method Start()
      requires Valid() && !up
      modifies this
      ensures Valid() && Now() == Restarted(config, old(Now()))
      ensures up && loop == Idle && wake && tasks == map[] && cancels == map[] && owed == multiset{}
      ensures pool == Pool(config.downloads, config.transcodes, None, None)
    {
      ghost var before := Now();
      RestartKeepsInvariant(config, before);
      hide Inv, Recovered, RecoveredAs;
      RecoverRows();
      tasks, cancels, owed := map[], map[], multiset{};
      pool := Pool(config.downloads, config.transcodes, None, None);
      up, loop := true, Idle;
      wake := true;
      assert rows == Restarted(config, before).rows;
    }

    /** `_claim` up to its commit: the first queued job in the documented order. */
    method FirstQueued() returns (first: Option<JobId>)
      ensures first.Some? ==> IsFirst(Now(), first.value)
      ensures first.Some? ==> forall i :: i in rows && i != first.value && rows[i].status == Queued ==>
        Documented(rows[first.value].order, first.value, rows[i].order, i)
      ensures first.None? ==> forall j :: j in rows ==> !IsQueued(Now(), j)
    {
      first := None;
      var rest := rows.Keys;
      while rest != {}
        invariant rest <= rows.Keys
        invariant first.Some? ==> first.value in rows && first.value !in rest && IsQueued(Now(), first.value)
        invariant first.Some? ==> forall i :: i in rows && i !in rest && i != first.value && IsQueued(Now(), i) ==>
          Before(Now(), first.value, i)
        invariant first.None? ==> forall i :: i in rows && i !in rest ==> !IsQueued(Now(), i)
        decreases |rest|
      {
        var j :| j in rest;
        if IsQueued(Now(), j) {
          if first.None? || Before(Now(), j, first.value) {
            if first.Some? {
              forall i | i in rows && i !in rest && i != first.value && IsQueued(Now(), i) ensures Before(Now(), j, i) {
                BeforeTransitive(Now(), j, first.value, i);
              }
            }
            first := Some(j);
          } else {
            BeforeTotal(Now(), first.value, j);
          }
        }
        rest := rest - {j};
      }
      if first.Some? {
        forall i | i in rows && i != first.value && rows[i].status == Queued
          ensures Documented(rows[first.value].order, first.value, rows[i].order, i)
        {
          BeforeIsDocumented(Now(), first.value, i);
        }
      }
    }

    /** `_claim` and `_start`: the row is marked and the task and event exist in one go. */
    method ClaimAndStart(j: JobId)
      requires Valid() && up && loop == Draining && IsFirst(Now(), j)
      modifies this
      ensures Valid() && Apply(config, old(Now()), ClaimNext(j)) == Some(Now())
    {
      hide Inv;
      ClaimKeepsInvariant(config, Now(), j);
      var row := rows[j];
      rows := rows[j := row.(status := Starting)];
      cancels := cancels[j := false];
      tasks := tasks[j := Task(Boundary(row.done), row.hasPath, row.importStatus, false, false)];
    }

    /** `JobService.cancel`: a running job gets its event set, a queued one ends here. */
    method CancelJob(j: JobId) returns (r: CancelResult)
      requires Valid() && up
      modifies this`rows, this`cancels
      ensures Valid()
      ensures r.NotFound? <==> j !in old(rows)
      ensures r.TooLate? <==> j in old(rows) && old(rows)[j].status in {Organizing, Importing, Completed, Failed, Cancelled}
      ensures r.Accepted? ==> Step(old(Now()), j, Cancel) == Some(Now())
      ensures !r.Accepted? ==> Now() == old(Now())
      ensures r.Accepted? && j in old(rows) && j in old(cancels) ==>
        rows == old(rows)[j := old(rows)[j].(cancelRequested := true)] && cancels == old(cancels)[j := true]
      ensures r.Accepted? && j in old(rows) && j !in old(cancels) ==>
        && rows == old(rows)[j := old(rows)[j].(status := Cancelled, cancelRequested := false)]
        && cancels == old(cancels)
    {
      hide Inv, Step;
      if j !in rows { return NotFound; }
      if !Cancellable(rows[j].status) { return TooLate; }
      CancelStep(config, Now(), j);
      if j in cancels {
        rows := rows[j := rows[j].(cancelRequested := true)];
        cancels := cancels[j := true];
      } else {
        rows := rows[j := rows[j].(status := Cancelled, cancelRequested := false)];
      }
      return Accepted;
    }

    /** `JobService.retry`; the wake-up follows once the transaction is over. */
    method RetryJob(j: JobId) returns (r: RetryResult)
      requires Valid() && up
      modifies this`rows, this`owed
      ensures Valid()
      ensures r.NoSuchJob? <==> j !in old(rows)
      ensures r.NotPossible? <==> j in old(rows) && old(rows)[j].status != Failed
      ensures r.Requeued? ==> Step(old(Now()), j, Retry) == Some(Now())
      ensures r.Requeued? && j in old(rows) ==>
        rows == old(rows)[j := old(rows)[j].(status := Queued)] && owed == old(owed) + multiset{j}
      ensures !r.Requeued? ==> Now() == old(Now())
    {
      hide Inv, Step;
      if j !in rows { return NoSuchJob; }
      if rows[j].status != Failed { return NotPossible; }
      RetryStep(config, Now(), j);
      rows := rows[j := rows[j].(status := Queued)];
      owed := owed + multiset{j};
      return Requeued;
    }

    /** `JobService.retry_import` on a job that has ended: the checkpoint goes back from the
        import step to the organize step, whose path is on record. */
    method RetryImportOf(j: JobId) returns (r: RetryResult)
      requires Valid() && up && (j in rows ==> Terminal(rows[j].status))
      modifies this`rows, this`owed
      ensures Valid()
      ensures r.NoSuchJob? <==> j !in old(rows)
      ensures r.NotPossible? <==>
        j in old(rows) && old(rows)[j].importStatus != NotImported && old(rows)[j].importStatus != Error
      ensures r.Requeued? ==> Step(old(Now()), j, RetryImport) == Some(Now())
      ensures !r.Requeued? ==> Now() == old(Now())
      ensures r.Requeued? && j in old(rows) ==>
        && rows == old(rows)[j := old(rows)[j].(importStatus := Pending, done := IMPORT, status := Queued)]
        && owed == old(owed) + multiset{j} && old(rows)[j].done == STEPS && old(rows)[j].hasPath
    {
      hide Inv, Step;
      if j !in rows { return NoSuchJob; }
      if rows[j].importStatus != NotImported && rows[j].importStatus != Error { return NotPossible; }
      RetryImportStep(config, Now(), j);
      rows := rows[j := rows[j].(importStatus := Pending, done := IMPORT, status := Queued)];
      owed := owed + multiset{j};
      return Requeued;
    }

    /** `_checkpoint` by the task of `j`, with the fields its step recorded. */
    method Checkpoint(j: JobId)
      requires Valid() && up && j in rows && j in tasks && tasks[j].pc.Saving? && !tasks[j].latePost
      modifies this`rows, this`tasks
      ensures Valid() && Step(old(Now()), j, Save) == Some(Now())
    {
      hide Inv, Step;
      SaveStep(config, Now(), j);
      var task := tasks[j];
      var row := rows[j].(done := task.pc.step + 1);
      match task.pc.fields {
        case NoFields =>
        case PathRecorded => row := row.(hasPath := true);
        case VerdictReached(status) => row := row.(importStatus := status);
      }
      rows := rows[j := row];
      tasks := tasks[j := task.(pc := Boundary(task.pc.step + 1))];
    }

    /** `_finish` or `_cancelled`, and the task's done callback `_forget`. */
    method FinishAndForget(j: JobId)
      requires Valid() && up && j in rows && j in tasks && tasks[j].pc.Ending? && !tasks[j].latePost
      modifies this`rows, this`tasks, this`cancels
      ensures Valid() && Step(old(Now()), j, Terminate) == Some(Now())
      ensures tasks == old(tasks) - {j} && cancels == old(cancels) - {j} && j in old(rows)
      ensures rows.Keys == old(rows).Keys && j in rows && rows[j].status in {Completed, Failed, Cancelled}
      ensures j in old(tasks) && old(tasks)[j].pc.Ending? && rows[j].status == old(tasks)[j].pc.status
    {
      hide Inv, Step;
      TerminateStep(config, Now(), j);
      var status := tasks[j].pc.status;
      var row := rows[j].(status := status);
      if status == Cancelled {
        row := row.(cancelRequested := false);
      }
      rows := rows[j := row];
      tasks := tasks - {j};
      cancels := cancels - {j};
    }

    /** The inner loop of `_run_loop`, left alone: it claims every queued job, each exactly
        once, in the documented order, and stops with the queue empty. */
    method ClaimAll() returns (claimed: seq<JobId>)
      requires Valid() && up && loop == Idle && wake
      modifies this
      ensures Valid() && up && loop == Idle && !wake && rows.Keys == old(rows).Keys
      ensures forall j :: j in rows ==> !IsQueued(Now(), j)
      ensures forall j :: j in claimed <==> IsQueued(old(Now()), j)
      ensures forall j :: j in claimed && j in rows ==> rows[j] == old(rows)[j].(status := Starting) && j in tasks
      ensures forall j :: j in rows && j !in claimed ==> ViewOf(Now(), j) == ViewOf(old(Now()), j)
      ensures InDocumentedOrder(old(rows), claimed)
    {
      hide Inv, IsFirst, Ahead, Claimed, Live, Drained, Queue, ViewOf, IsQueued, LexLess, Before, InDocumentedOrder;
      ghost var start := Now();
      loop, wake := Draining, false;
      LoopWakeKeeps(config, start, Now());
      claimed := [];
      var more := true;
      while more
        invariant Valid() && up && loop == Draining && !wake
        invariant Drained(start, Now(), claimed)
        invariant !more ==> forall j :: j in rows ==> !IsQueued(Now(), j)
        decreases more, |Queue(Now())|
      {
        var first := FirstQueued();
        if first.None? {
          more := false;
        } else {
          ghost var before := Now();
          ClaimAndStart(first.value);
          ClaimIsNext(config, start, before, claimed, first.value, Now());
          claimed := claimed + [first.value];
        }
      }
      LoopStopKeeps(config, Now());
      ghost var end := Now();
      loop := Idle;
      StopKeepsDrained(start, end, Now(), claimed);
      DrainedFacts(start, Now(), claimed);
      AheadIsDocumented(start, claimed);
    }
  }

  // ------------------------------------------------- the steps the methods above carry out

  /** A step of `j` from view `v` to view `w` that needs nothing from the pool. */
  lemma StepIs(c: Config, s: State, j: JobId, a: JobAction, v: View, w: View, t: State)
    requires Inv(c, s) && s.up && j in s.rows && v == ViewOf(s, j) && Local(v, a) == Some(w) && a != Claim
    requires PoolAfter(s.pool, j, v, a) == Some(s.pool)
    requires t == Put(s, j, w).(owed := s.owed + Owes(j, a))
    ensures Step(s, j, a) == Some(t) && Inv(c, t)
  {
    hide Inv, Local, PoolAfter, Put, Owes;
    assert Put(s, j, w).(owed := s.owed + Owes(j, a), pool := s.pool) == t by { PutPool(s, j, w); }
    StepKeepsInvariant(c, s, j, a, t);
  }

  /** Writing rows takes nothing from the pool. */
  lemma NoPool(pool: Pool, j: JobId, v: View, a: JobAction)
    requires a == Cancel || a == Retry || a == RetryImport || a == Save || a == Terminate
    ensures PoolAfter(pool, j, v, a) == Some(pool)
  {
  }

  lemma PutPool(s: State, j: JobId, w: View)
    ensures Put(s, j, w).pool == s.pool
  {
  }

  lemma PutIs(s: State, j: JobId, w: View, t: State)
    requires t.rows == s.rows[j := w.row] && t.up == s.up && t.loop == s.loop && t.wake == s.wake && t.pool == s.pool
    requires if w.task.Some? then t.tasks == s.tasks[j := w.task.value] else t.tasks == s.tasks - {j}
    requires if w.cancel.Some? then t.cancels == s.cancels[j := w.cancel.value] else t.cancels == s.cancels - {j}
    ensures Put(s, j, w).(owed := t.owed) == t
  {
  }

  /** Writing what is there already, or removing what is not, changes nothing. */
  lemma SameMaps(s: State, j: JobId)
    ensures j in s.tasks ==> s.tasks[j := s.tasks[j]] == s.tasks
    ensures j in s.cancels ==> s.cancels[j := s.cancels[j]] == s.cancels
    ensures j !in s.tasks ==> s.tasks - {j} == s.tasks
    ensures j !in s.cancels ==> s.cancels - {j} == s.cancels
  {
  }

  lemma ViewFacts(c: Config, s: State, j: JobId)
    requires Inv(c, s) && s.up && j in s.rows
    ensures (j in s.tasks <==> Active(s.rows[j].status)) && (j in s.cancels <==> j in s.tasks)
    ensures Verdict(s.rows[j].importStatus) ==> s.rows[j].done == STEPS && s.rows[j].hasPath
    ensures j in s.tasks && s.tasks[j].pc.Ending? ==> Terminal(s.tasks[j].pc.status)
  {
    var v := ViewOf(s, j);
    assert JobInv(v, true);
    hide TaskOk;
    if j in s.tasks && j in s.cancels { TaskFacts(s.rows[j], s.tasks[j], s.cancels[j]); }
  }

  lemma TaskFacts(row: Row, task: Task, cancel: bool)
    ensures TaskOk(row, task, cancel) ==> PcOk(row, task.pc)
  {
  }

  lemma CancelStep(c: Config, s: State, j: JobId)
    requires Inv(c, s) && s.up && j in s.rows && Cancellable(s.rows[j].status)
    ensures var t := if j in s.cancels then
                       s.(rows := s.rows[j := s.rows[j].(cancelRequested := true)], cancels := s.cancels[j := true])
                     else s.(rows := s.rows[j := s.rows[j].(status := Cancelled, cancelRequested := false)]);
      Step(s, j, Cancel) == Some(t) && Inv(c, t)
  {
    hide Inv, Put, Step, PoolAfter;
    ViewFacts(c, s, j);
    SameMaps(s, j);
    var t := if j in s.cancels then
               s.(rows := s.rows[j := s.rows[j].(cancelRequested := true)], cancels := s.cancels[j := true])
             else s.(rows := s.rows[j := s.rows[j].(status := Cancelled, cancelRequested := false)]);
    var v := ViewOf(s, j);
    var w := CancelRow(v).value;
    PutIs(s, j, w, t);
    NoPool(s.pool, j, v, Cancel);
    StepIs(c, s, j, Cancel, v, w, t);
  }

  lemma RetryStep(c: Config, s: State, j: JobId)
    requires Inv(c, s) && s.up && j in s.rows && s.rows[j].status == Failed
    ensures var t := s.(rows := s.rows[j := s.rows[j].(status := Queued)], owed := s.owed + multiset{j});
      Step(s, j, Retry) == Some(t) && Inv(c, t)
  {
    hide Inv, Put, Step, PoolAfter;
    ViewFacts(c, s, j);
    SameMaps(s, j);
    var t := s.(rows := s.rows[j := s.rows[j].(status := Queued)], owed := s.owed + multiset{j});
    var v := ViewOf(s, j);
    var w := v.(row := v.row.(status := Queued));
    PutIs(s, j, w, t);
    NoPool(s.pool, j, v, Retry);
    StepIs(c, s, j, Retry, v, w, t);
  }

  lemma RetryImportStep(c: Config, s: State, j: JobId)
    requires Inv(c, s) && s.up && j in s.rows && Terminal(s.rows[j].status)
    requires s.rows[j].importStatus == NotImported || s.rows[j].importStatus == Error
    ensures s.rows[j].done == STEPS && s.rows[j].hasPath
    ensures var row := s.rows[j].(importStatus := Pending, done := IMPORT, status := Queued);
      var t := s.(rows := s.rows[j := row], owed := s.owed + multiset{j});
      Step(s, j, RetryImport) == Some(t) && Inv(c, t)
  {
    hide Inv, Put, Step, PoolAfter;
    ViewFacts(c, s, j);
    SameMaps(s, j);
    var row := s.rows[j].(importStatus := Pending, done := IMPORT, status := Queued);
    var t := s.(rows := s.rows[j := row], owed := s.owed + multiset{j});
    var v := ViewOf(s, j);
    var w := v.(row := row);
    PutIs(s, j, w, t);
    NoPool(s.pool, j, v, RetryImport);
    StepIs(c, s, j, RetryImport, v, w, t);
  }

  function SavedRow(row: Row, step: nat, fields: Fields): Row {
    Saved(View(row, None, None), Task(Boundary(0), false, Pending, false, false), step, fields).row
  }

  lemma SaveStep(c: Config, s: State, j: JobId)
    requires Inv(c, s) && s.up && j in s.rows && j in s.tasks && s.tasks[j].pc.Saving? && !s.tasks[j].latePost
    ensures var task := s.tasks[j];
      var t := s.(rows := s.rows[j := SavedRow(s.rows[j], task.pc.step, task.pc.fields)],
                  tasks := s.tasks[j := task.(pc := Boundary(task.pc.step + 1))]);
      Step(s, j, Save) == Some(t) && Inv(c, t)
  {
    hide Inv, Put, Step, PoolAfter;
    ViewFacts(c, s, j);
    SameMaps(s, j);
    var task := s.tasks[j];
    var t := s.(rows := s.rows[j := SavedRow(s.rows[j], task.pc.step, task.pc.fields)],
                tasks := s.tasks[j := task.(pc := Boundary(task.pc.step + 1))]);
    var v := ViewOf(s, j);
    var w := Saved(v, task, task.pc.step, task.pc.fields);
    PutIs(s, j, w, t);
    NoPool(s.pool, j, v, Save);
    StepIs(c, s, j, Save, v, w, t);
  }

  lemma TerminateStep(c: Config, s: State, j: JobId)
    requires Inv(c, s) && s.up && j in s.rows && j in s.tasks && s.tasks[j].pc.Ending? && !s.tasks[j].latePost
    ensures Terminal(s.tasks[j].pc.status)
    ensures var status := s.tasks[j].pc.status;
      var row := if status == Cancelled then s.rows[j].(status := status, cancelRequested := false)
                 else s.rows[j].(status := status);
      var t := s.(rows := s.rows[j := row], tasks := s.tasks - {j}, cancels := s.cancels - {j});
      Step(s, j, Terminate) == Some(t) && Inv(c, t)
  {
    hide Inv, Put, Step, PoolAfter;
    ViewFacts(c, s, j);
    var status := s.tasks[j].pc.status;
    var row := if status == Cancelled then s.rows[j].(status := status, cancelRequested := false)
               else s.rows[j].(status := status);
    var t := s.(rows := s.rows[j := row], tasks := s.tasks - {j}, cancels := s.cancels - {j});
    var v, w := ViewOf(s, j), View(row, None, None);
    PutIs(s, j, w, t);
    NoPool(s.pool, j, v, Terminate);
    StepIs(c, s, j, Terminate, v, w, t);
  }

  // ------------------------------------------------------------------ what draining keeps

  function Queue(s: State): set<JobId> {
    set j | j in s.rows && IsQueued(s, j)
  }

  predicate Ahead(s: State, i: JobId, j: JobId) {
    i in s.rows && j in s.rows && Before(s, i, j)
  }

  lemma AheadIsDocumented(s: State, claimed: seq<JobId>)
    requires forall i, k :: 0 <= i < k < |claimed| ==> Ahead(s, claimed[i], claimed[k])
    ensures InDocumentedOrder(s.rows, claimed)
  {
    hide LexLess, Columns, Documented;
    forall m, n | 0 <= m < n < |claimed|
      ensures ComesFirst(s.rows, claimed[m], claimed[n])
    {
      var i, j := claimed[m], claimed[n];
      assert Ahead(s, i, j);
      LexLessTotal(Columns(s.rows[i].order), Columns(s.rows[j].order));
      BeforeIsDocumented(s, i, j);
    }
  }

  /** `claimed` are the jobs claimed so far, in order and before all that are still queued. */
  ghost predicate Drained(start: State, s: State, claimed: seq<JobId>) {
    && s.rows.Keys == start.rows.Keys
    && (forall j :: j in claimed ==> IsQueued(start, j) && s.rows[j] == start.rows[j].(status := Starting) && j in s.tasks)
    && (forall j :: j in s.rows && j !in claimed ==> ViewOf(s, j) == ViewOf(start, j))
    && (forall i, k :: 0 <= i < k < |claimed| ==> Ahead(start, claimed[i], claimed[k]))
    && (forall i, j :: 0 <= i < |claimed| && j !in claimed && IsQueued(start, j) ==> Ahead(start, claimed[i], j))
  }

  lemma LoopWakeKeeps(c: Config, s: State, t: State)
    requires Inv(c, s) && s.up && s.loop == Idle && s.wake && t == s.(loop := Draining, wake := false)
    ensures Inv(c, t) && Drained(s, t, [])
  {
    hide Inv;
    assert Apply(c, s, LoopWake) == Some(t);
    ActionKeepsInvariant(c, s, LoopWake);
  }

  lemma LoopStopKeeps(c: Config, s: State)
    requires Inv(c, s) && s.up && s.loop == Draining && forall j :: j in s.rows ==> !IsQueued(s, j)
    ensures Inv(c, s.(loop := Idle))
  {
    hide Inv;
    assert Apply(c, s, ClaimNone) == Some(s.(loop := Idle));
    ActionKeepsInvariant(c, s, ClaimNone);
  }

  lemma ClaimIsNext(c: Config, start: State, s: State, claimed: seq<JobId>, j: JobId, t: State)
    requires Inv(c, s) && s.up && Drained(start, s, claimed) && IsFirst(s, j)
    requires Apply(c, s, ClaimNext(j)) == Some(t)
    ensures Drained(start, t, claimed + [j]) && |Queue(t)| < |Queue(s)|
    ensures t.up && t.loop == s.loop && t.wake == s.wake
  {
    hide Inv, Put, JobInv, Ahead, Drained, Queue, Before, Apply;
    ClaimStarts(c, s, j, t);
    forall i | i in s.rows && i != j ensures t.rows[i] == s.rows[i] && (i in s.tasks ==> i in t.tasks) {
      assert ViewOf(t, i) == ViewOf(s, i);
    }
    ClaimShortensQueue(c, s, j, t);
    ClaimDrains(start, s, claimed, j, t);
  }

  lemma ClaimShortensQueue(c: Config, s: State, j: JobId, t: State)
    requires Inv(c, s) && s.up && IsFirst(s, j) && Apply(c, s, ClaimNext(j)) == Some(t)
    ensures |Queue(t)| < |Queue(s)|
  {
    hide Inv, Put, JobInv, Queue, Before, Apply;
    ClaimStarts(c, s, j, t);
    forall i | i in s.rows && i != j ensures t.rows[i] == s.rows[i] {
      assert ViewOf(t, i) == ViewOf(s, i);
    }
    QueueShrinks(s, t, j);
  }

  lemma ClaimStarts(c: Config, s: State, j: JobId, t: State)
    requires Inv(c, s) && s.up && IsFirst(s, j) && Apply(c, s, ClaimNext(j)) == Some(t)
    ensures t.rows.Keys == s.rows.Keys && j in s.rows && t.rows[j] == s.rows[j].(status := Starting) && j in t.tasks
    ensures forall i :: i in s.rows && i != j ==> ViewOf(t, i) == ViewOf(s, i)
    ensures t.up && t.loop == s.loop && t.wake == s.wake
  {
    ClaimFrame(s, j);
    assert t == Put(s, j, Claimed(ViewOf(s, j)));
    assert ViewOf(t, j).row == s.rows[j].(status := Starting) && ViewOf(t, j).task.Some?;
    hide Inv, Put, Claimed, JobInv, IsFirst;
    assert t.rows[j] == ViewOf(t, j).row && j in t.tasks;
  }

  lemma ClaimDrains(start: State, s: State, claimed: seq<JobId>, j: JobId, t: State)
    requires Drained(start, s, claimed) && IsFirst(s, j) && t.rows.Keys == s.rows.Keys
    requires t.rows[j] == s.rows[j].(status := Starting) && j in t.tasks
    requires forall i :: i in s.rows && i != j ==>
      ViewOf(t, i) == ViewOf(s, i) && t.rows[i] == s.rows[i] && (i in s.tasks ==> i in t.tasks)
    ensures Drained(start, t, claimed + [j])
  {
    ClaimOrder(start, s, claimed, j);
    hide Ahead, IsFirst, Before, LexLess, IsQueued;
    assert ViewOf(s, j) == ViewOf(start, j) && s.rows[j] == ViewOf(s, j).row && start.rows[j] == ViewOf(start, j).row;
    hide ViewOf;
    forall i | i in s.rows && i !in claimed + [j] ensures ViewOf(t, i) == ViewOf(start, i) {
      assert ViewOf(s, i) == ViewOf(start, i);
    }
  }

  /** The job that comes first among the queued comes after those claimed and before the rest. */
  lemma ClaimOrder(start: State, s: State, claimed: seq<JobId>, j: JobId)
    requires Drained(start, s, claimed) && IsFirst(s, j)
    ensures j !in claimed && IsQueued(start, j)
    ensures forall i, k :: 0 <= i < k < |claimed + [j]| ==> Ahead(start, (claimed + [j])[i], (claimed + [j])[k])
    ensures forall i, k :: 0 <= i < |claimed + [j]| && k !in claimed + [j] && IsQueued(start, k) ==>
      Ahead(start, (claimed + [j])[i], k)
  {
    hide Before;
    assert j !in claimed && ViewOf(s, j) == ViewOf(start, j);
    assert s.rows[j] == ViewOf(s, j).row && start.rows[j] == ViewOf(start, j).row;
    forall i | i !in claimed + [j] && IsQueued(start, i) ensures Ahead(start, j, i) {
      assert ViewOf(s, i) == ViewOf(start, i) && s.rows[i] == ViewOf(s, i).row && start.rows[i] == ViewOf(start, i).row;
      BeforeAgrees(start, s, j, i);
    }
  }

  lemma BeforeAgrees(start: State, s: State, i: JobId, j: JobId)
    requires i in start.rows && j in start.rows && i in s.rows && j in s.rows
    requires s.rows[i].order == start.rows[i].order && s.rows[j].order == start.rows[j].order
    ensures Before(start, i, j) == Before(s, i, j)
  {
  }

  lemma QueueShrinks(s: State, t: State, j: JobId)
    requires IsQueued(s, j) && t.rows.Keys == s.rows.Keys && !IsQueued(t, j)
    requires forall i :: i in s.rows && i != j ==> t.rows[i] == s.rows[i]
    ensures Queue(t) < Queue(s) && |Queue(t)| < |Queue(s)|
  {
    assert Queue(t) == Queue(s) - {j} && j in Queue(s);
  }

  lemma StopKeepsDrained(start: State, s: State, t: State, claimed: seq<JobId>)
    requires Drained(start, s, claimed) && t == s.(loop := Idle)
    requires forall j :: j in s.rows ==> !IsQueued(s, j)
    ensures Drained(start, t, claimed) && forall j :: j in t.rows ==> !IsQueued(t, j)
  {
    hide Ahead;
    forall j | j in s.rows ensures ViewOf(t, j) == ViewOf(s, j) {
    }
  }

  lemma DrainedFacts(start: State, s: State, claimed: seq<JobId>)
    requires Drained(start, s, claimed) && forall j :: j in s.rows ==> !IsQueued(s, j)
    ensures s.rows.Keys == start.rows.Keys
    ensures forall j :: j in claimed <==> IsQueued(start, j)
    ensures forall j :: j in claimed && j in s.rows && j in start.rows ==>
      s.rows[j] == start.rows[j].(status := Starting) && j in s.tasks
    ensures forall j :: j in s.rows && j in start.rows && j !in claimed ==> ViewOf(s, j) == ViewOf(start, j)
    ensures forall i, k :: 0 <= i < k < |claimed| ==> Ahead(start, claimed[i], claimed[k])
  {
    hide Ahead;
    forall j | j in s.rows && j !in claimed ensures !IsQueued(start, j) {
      assert ViewOf(s, j) == ViewOf(start, j);
      assert s.rows[j] == ViewOf(s, j).row && start.rows[j] == ViewOf(start, j).row;
    }
  }
}
