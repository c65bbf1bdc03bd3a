/** All jobs together: the claim loop, the slots, the import locks, crashes and recovery
    (backend/app/jobs/manager.py, pipeline.py, service.py). */
module JobSystem {
  import opened Wrappers
  import opened Jobs

  /** `max_concurrent_downloads`, `max_concurrent_transcodes` and `auto_resume`. */
  datatype Config = Config(downloads: nat, transcodes: nat, autoResume: bool)

  /** The claim loop waits for the wake event, or claims until the queue is empty. */
  datatype Loop = Idle | Draining

  /** What all tasks share: the free slots, and who holds each app's import lock. */
  datatype Pool = Pool(
    freeDownloads: nat, freeTranscodes: nat, radarrLock: Option<JobId>, sonarrLock: Option<JobId>)
  {
    function Free(step: nat): nat {
      if step == DOWNLOAD then freeDownloads else freeTranscodes
    }

    function WithFree(step: nat, free: nat): Pool {
      if step == DOWNLOAD then this.(freeDownloads := free) else this.(freeTranscodes := free)
    }

    function LockOf(media: Media): Option<JobId> {
      if media == Movie then radarrLock else sonarrLock
    }

    function WithLock(media: Media, lock: Option<JobId>): Pool {
      if media == Movie then this.(radarrLock := lock) else this.(sonarrLock := lock)
    }
  }

  /** `owed` holds one entry for every committed enqueue whose `wake()` is still to come. */
  datatype State = State(
    rows: map<JobId, Row>, tasks: map<JobId, Task>, cancels: map<JobId, bool>,
    up: bool, loop: Loop, wake: bool, owed: multiset<JobId>, pool: Pool)

  datatype Action =
    | Create(job: JobId, media: Media, transcode: bool, order: Key)
    | On(job: JobId, step: JobAction)
    | CallWake(job: JobId)
    | LoopWake
    | ClaimNext(job: JobId)
    | ClaimNone
    | Crash
    | Recover

  // ------------------------------------------------------------------ reading the state

  function ViewOf(s: State, j: JobId): View
    requires j in s.rows
  {
    View(s.rows[j],
         if j in s.tasks then Some(s.tasks[j]) else None,
         if j in s.cancels then Some(s.cancels[j]) else None)
  }

  function Put(s: State, j: JobId, v: View): (t: State) {
    s.(rows := s.rows[j := v.row],
       tasks := if v.task.Some? then s.tasks[j := v.task.value] else s.tasks - {j},
       cancels := if v.cancel.Some? then s.cancels[j := v.cancel.value] else s.cancels - {j})
  }

  // ---------------------------------------------------------------------- claim order

  /** Ascending in one column, where NULL comes first. */
  predicate ColumnLess(a: Option<int>, b: Option<int>) {
    b.Some? && (a.None? || a.value < b.value)
  }

  /** Column by column. */
  predicate LexLess(a: seq<Option<int>>, b: seq<Option<int>>) {
    if b == [] then false
    else if a == [] then true
    else ColumnLess(a[0], b[0]) || (a[0] == b[0] && LexLess(a[1..], b[1..]))
  }

  function Columns(key: Key): seq<Option<int>> {
    [Some(key.requestCreated), Some(key.jobCreated), key.season, key.episode, key.airDate]
  }

  /** The ORDER BY of the claim, the id last. */
  predicate Before(s: State, i: JobId, j: JobId)
    requires i in s.rows && j in s.rows
  {
    var a, b := Columns(s.rows[i].order), Columns(s.rows[j].order);
    LexLess(a, b) || (a == b && i < j)
  }

  predicate IsQueued(s: State, j: JobId) {
    j in s.rows && s.rows[j].status == Queued
  }

  predicate IsFirst(s: State, j: JobId) {
    IsQueued(s, j) && forall i :: i in s.rows && i != j && IsQueued(s, i) ==> Before(s, j, i)
  }

  // ------------------------------------------------------------------ the transitions

  /** The slot a step gives back: `async with` is left by success, failure and cancel alike. */
  function ReleasedSlot(task: Task, cancel: bool, a: JobAction): Option<nat> {
    match a
    case CheckHeld => if task.pc.Acquired? && cancel then Some(task.pc.step) else None
    case WorkDone => if task.pc.Working? && task.pc.step <= TRANSCODE then Some(task.pc.step) else None
    case WorkCancelled => if task.pc.Working? && task.pc.step <= TRANSCODE then Some(task.pc.step) else None
    case Fail =>
      if Holds(task.pc, DOWNLOAD) then Some(DOWNLOAD)
      else if Holds(task.pc, TRANSCODE) then Some(TRANSCODE)
      else None
    case _ => None
  }

  /** One job's step with its effect on what is shared; None where it cannot happen now. */
  function Step(s: State, j: JobId, a: JobAction): Option<State> {
    if j !in s.rows || a == Claim then None
    else
      var v := ViewOf(s, j);
      match Local(v, a)
      case None => None
      case Some(w) =>
        match PoolAfter(s.pool, j, v, a)
        case None => None
        case Some(pool) => Some(Put(s, j, w).(pool := pool, owed := s.owed + Owes(j, a)))
  }

  /** The pool once the step of `v` has taken or given back its slot or lock; None if it has
      to wait for one. */
  function PoolAfter(pool: Pool, j: JobId, v: View, a: JobAction): Option<Pool> {
    if v.task.None? || v.cancel.None? then Some(pool)
    else
      var task := v.task.value;
      if a == Acquire && task.pc.Waiting? then
        if pool.Free(task.pc.step) == 0 then None
        else Some(pool.WithFree(task.pc.step, pool.Free(task.pc.step) - 1))
      else if a == LockApp then
        if pool.LockOf(v.row.media).Some? then None else Some(pool.WithLock(v.row.media, Some(j)))
      else if a == UnlockApp || (a == Fail && task.pc == Locked) then Some(pool.WithLock(v.row.media, None))
      else match ReleasedSlot(task, v.cancel.value, a)
        case None => Some(pool)
        case Some(step) => Some(pool.WithFree(step, pool.Free(step) + 1))
  }

  /** The wake-ups still to come after a step. */
  function Owes(j: JobId, a: JobAction): multiset<JobId> {
    if a == Retry || a == RetryImport then multiset{j} else multiset{}
  }

  function NewRow(media: Media, transcode: bool, order: Key): Row {
    Row(Queued, 0, false, if media == Other then NotApplicable else Pending, false, media, transcode, order)
  }

  function Apply(c: Config, s: State, a: Action): Option<State> {
    match a
    case Recover => if s.up then None else Some(Restarted(c, s))
    case Crash => if s.up then Some(Down(s)) else None
    case _ => if s.up then Live(s, a) else None
  }

  function Live(s: State, a: Action): Option<State> {
    match a
    case Create(j, media, transcode, order) =>
      if j in s.rows then None
      else Some(s.(rows := s.rows[j := NewRow(media, transcode, order)], owed := s.owed + multiset{j}))
    case On(j, step) => Step(s, j, step)
    case CallWake(j) => if j in s.owed then Some(s.(owed := s.owed - multiset{j}, wake := true)) else None
    case LoopWake => if s.loop == Idle && s.wake then Some(s.(loop := Draining, wake := false)) else None
    case ClaimNext(j) =>
      if s.loop == Draining && IsFirst(s, j) then Some(Put(s, j, Claimed(ViewOf(s, j)))) else None
    case ClaimNone =>
      if s.loop == Draining && !exists j :: j in s.rows && IsQueued(s, j) then Some(s.(loop := Idle)) else None
    case Crash => None
    case Recover => None
  }

  /** Only the rows survive. */
  function Down(s: State): State {
    State(s.rows, map[], map[], false, Idle, false, multiset{}, Pool(0, 0, None, None))
  }

  /** `recover`, then `start`: a fresh loop and `wake()`. */
  function Restarted(c: Config, s: State): State {
    State(map j | j in s.rows :: Recovered(s.rows[j], c.autoResume),
          map[], map[], true, Idle, true, multiset{}, Pool(c.downloads, c.transcodes, None, None))
  }

  const Fresh := State(map[], map[], map[], false, Idle, false, multiset{}, Pool(0, 0, None, None))

  /** `actions` leads from `s` to `t`. */
  predicate Runs(c: Config, s: State, actions: seq<Action>, t: State)
    decreases |actions|
  {
    if actions == [] then s == t
    else
      var next := Apply(c, s, actions[0]);
      next.Some? && Runs(c, next.value, actions[1..], t)
  }

  // ------------------------------------------------------------------ the invariant

  ghost predicate JobsOk(s: State) {
    && s.tasks.Keys <= s.rows.Keys && s.cancels.Keys <= s.rows.Keys
    && forall j :: j in s.rows ==> JobInv(ViewOf(s, j), s.up)
  }

  function Holders(s: State, step: nat): set<JobId> {
    set j | j in s.tasks && Holds(s.tasks[j].pc, step)
  }

  /** Every slot is either free or held by exactly one task. */
  ghost predicate SlotsOk(c: Config, s: State) {
    s.up ==>
      && s.pool.freeDownloads + |Holders(s, DOWNLOAD)| == c.downloads
      && s.pool.freeTranscodes + |Holders(s, TRANSCODE)| == c.transcodes
  }

  /** The import lock of an app is held exactly by the task that is inside it. */
  ghost predicate LocksOk(s: State) {
    && (forall j: JobId :: s.pool.radarrLock == Some(j) <==> InLock(s, j, true))
    && (forall j: JobId :: s.pool.sonarrLock == Some(j) <==> InLock(s, j, false))
  }

  ghost predicate InLock(s: State, j: JobId, radarr: bool) {
    j in s.tasks && j in s.rows && s.tasks[j].pc == Locked && (s.rows[j].media == Movie <==> radarr)
  }

  /** No wakeup is lost: while the loop waits and the event is unset, whoever queued a job
      has still to call `wake()`. */
  ghost predicate WakeOk(s: State) {
    s.up && s.loop == Idle && !s.wake ==> forall j :: IsQueued(s, j) ==> j in s.owed
  }

  ghost predicate Inv(c: Config, s: State) {
    JobsOk(s) && SlotsOk(c, s) && LocksOk(s) && WakeOk(s)
  }

  // --------------------------------------------------------- one step keeps the invariant

  /** A job's step changes that job alone, and only its own memory and the pool. */
  lemma StepFrame(s: State, j: JobId, a: JobAction, t: State)
    requires JobsOk(s) && s.up && Step(s, j, a) == Some(t)
    ensures j in s.rows && Local(ViewOf(s, j), a).Some? && t.rows.Keys == s.rows.Keys
    ensures t.tasks.Keys <= t.rows.Keys && t.cancels.Keys <= t.rows.Keys
    ensures j in t.rows && ViewOf(t, j) == Local(ViewOf(s, j), a).value
    ensures forall i :: i in s.rows && i != j ==> ViewOf(t, i) == ViewOf(s, i)
    ensures PoolAfter(s.pool, j, ViewOf(s, j), a) == Some(t.pool) && t.owed == s.owed + Owes(j, a)
    ensures t.up && t.loop == s.loop && t.wake == s.wake
  {
    hide Local, PoolAfter, JobInv;
    PutView(s, j, Local(ViewOf(s, j), a).value);
    var p := Put(s, j, Local(ViewOf(s, j), a).value);
    forall i | i in s.rows ensures ViewOf(t, i) == ViewOf(p, i) {
    }
  }

  lemma PutView(s: State, j: JobId, w: View)
    requires j in s.rows && s.tasks.Keys <= s.rows.Keys && s.cancels.Keys <= s.rows.Keys
    ensures var p := Put(s, j, w);
      && p.rows.Keys == s.rows.Keys && p.tasks.Keys <= p.rows.Keys && p.cancels.Keys <= p.rows.Keys
      && ViewOf(p, j) == w && forall i :: i in s.rows && i != j ==> ViewOf(p, i) == ViewOf(s, i)
  {
  }

  lemma StepKeepsJobs(s: State, j: JobId, a: JobAction, t: State)
    requires JobsOk(s) && s.up && Step(s, j, a) == Some(t)
    ensures JobsOk(t)
  {
    StepFrame(s, j, a, t);
    LocalKeepsInv(ViewOf(s, j), a);
    hide Local, JobInv, Step;
    forall i | i in t.rows ensures JobInv(ViewOf(t, i), t.up) {
      if i != j { assert ViewOf(t, i) == ViewOf(s, i); }
    }
  }

  /** A job comes into or goes out of the holders of a slot. */
  lemma HoldersChange(s: State, t: State, j: JobId, step: nat)
    requires forall i :: i != j ==> (i in Holders(s, step) <==> i in Holders(t, step))
    ensures |Holders(t, step)| ==
            |Holders(s, step)| + (if j in Holders(t, step) then 1 else 0) - (if j in Holders(s, step) then 1 else 0)
  {
    hide Holders;
    var a, b := Holders(s, step) - {j}, Holders(t, step) - {j};
    assert a == b;
    assert j in Holders(s, step) ==> Holders(s, step) == a + {j};
    assert j !in Holders(s, step) ==> Holders(s, step) == a;
    assert j in Holders(t, step) ==> Holders(t, step) == a + {j};
    assert j !in Holders(t, step) ==> Holders(t, step) == a;
  }

  /** What a step takes from or gives back to the pool of `step` is what its task gains or
      loses. */
  predicate Balanced(v: View, w: View, a: JobAction, step: nat) {
    var before := v.task.Some? && Holds(v.task.value.pc, step);
    var after := w.task.Some? && Holds(w.task.value.pc, step);
    var taken := a == Acquire && v.task.Some? && v.task.value.pc == Waiting(step);
    var given := v.task.Some? && v.cancel.Some? && ReleasedSlot(v.task.value, v.cancel.value, a) == Some(step);
    && !(taken && given)
    && (taken ==> !before && after)
    && (given ==> before && !after)
    && (!taken && !given ==> before == after)
  }

  lemma SlotActionBalanced(v: View, a: JobAction, step: nat)
    requires JobInv(v, true) && Local(v, a).Some? && step <= TRANSCODE
    requires a.Acquire? || a.CheckHeld? || a.WorkDone? || a.WorkCancelled? || a.Fail?
    ensures Balanced(v, Local(v, a).value, a, step)
  {
    hide RowOk;
  }

  lemma OtherActionBalanced(v: View, a: JobAction, step: nat)
    requires JobInv(v, true) && Local(v, a).Some? && step <= TRANSCODE
    requires !a.Acquire? && !a.CheckHeld? && !a.WorkDone? && !a.WorkCancelled? && !a.Fail?
    ensures Balanced(v, Local(v, a).value, a, step)
  {
    hide RowOk, ReleasedSlot;
    assert v.task.Some? && v.cancel.Some? ==> ReleasedSlot(v.task.value, v.cancel.value, a) == None by {
      NothingReleased(v, a);
    }
  }

  lemma NothingReleased(v: View, a: JobAction)
    requires !a.Acquire? && !a.CheckHeld? && !a.WorkDone? && !a.WorkCancelled? && !a.Fail?
    ensures v.task.Some? && v.cancel.Some? ==> ReleasedSlot(v.task.value, v.cancel.value, a) == None
  {
  }

  lemma LocalBalanced(v: View, a: JobAction, step: nat)
    requires JobInv(v, true) && Local(v, a).Some? && step <= TRANSCODE
    ensures Balanced(v, Local(v, a).value, a, step)
  {
    if a.Acquire? || a.CheckHeld? || a.WorkDone? || a.WorkCancelled? || a.Fail? {
      hide *;
      SlotActionBalanced(v, a, step);
    } else {
      hide *;
      OtherActionBalanced(v, a, step);
    }
  }

  lemma StepKeepsSlots(c: Config, s: State, j: JobId, a: JobAction, t: State)
    requires Inv(c, s) && s.up && Step(s, j, a) == Some(t)
    ensures SlotsOk(c, t)
  {
    hide Local, Step, JobInv, WakeOk, LocksOk, PoolAfter, ReleasedSlot, Holders, Holds;
    StepFrame(s, j, a, t);
    var v, w := ViewOf(s, j), ViewOf(t, j);
    LocalBalanced(v, a, DOWNLOAD);
    LocalBalanced(v, a, TRANSCODE);
    OneHolder(s, t, j, DOWNLOAD);
    OneHolder(s, t, j, TRANSCODE);
    PoolMoves(s.pool, j, v, a);
    assert t.pool.Free(DOWNLOAD) == t.pool.freeDownloads && t.pool.Free(TRANSCODE) == t.pool.freeTranscodes;
  }

  lemma OneHolder(s: State, t: State, j: JobId, step: nat)
    requires j in s.rows && t.rows.Keys == s.rows.Keys
    requires s.tasks.Keys <= s.rows.Keys && t.tasks.Keys <= t.rows.Keys
    requires forall i :: i in s.rows && i != j ==> ViewOf(t, i) == ViewOf(s, i)
    ensures var before := ViewOf(s, j).task.Some? && Holds(ViewOf(s, j).task.value.pc, step);
      var after := ViewOf(t, j).task.Some? && Holds(ViewOf(t, j).task.value.pc, step);
      |Holders(t, step)| == |Holders(s, step)| + (if after then 1 else 0) - (if before then 1 else 0)
  {
    hide Holds;
    forall i | i != j ensures i in Holders(s, step) <==> i in Holders(t, step) {
      if i in s.rows { assert ViewOf(t, i) == ViewOf(s, i); }
    }
    HoldersChange(s, t, j, step);
  }

  /** How a step moves the two slot counters. */
  lemma PoolMoves(pool: Pool, j: JobId, v: View, a: JobAction)
    requires JobInv(v, true) && Local(v, a).Some?
    ensures var r := PoolAfter(pool, j, v, a);
      r.Some? ==> forall step :: step == DOWNLOAD || step == TRANSCODE ==>
        r.value.Free(step) == pool.Free(step)
          + (if v.task.Some? && v.cancel.Some? && ReleasedSlot(v.task.value, v.cancel.value, a) == Some(step) then 1 else 0)
          - (if a == Acquire && v.task.Some? && v.task.value.pc == Waiting(step) then 1 else 0)
  {
    hide Local, RowOk;
    if v.task.Some? && v.cancel.Some? {
      assert PcOk(v.row, v.task.value.pc);
    }
  }

  ghost predicate ViewInLock(v: View, radarr: bool) {
    v.task.Some? && v.task.value.pc == Locked && (v.row.media == Movie <==> radarr)
  }

  lemma StepKeepsLocks(c: Config, s: State, j: JobId, a: JobAction, t: State)
    requires Inv(c, s) && s.up && Step(s, j, a) == Some(t)
    ensures LocksOk(t)
  {
    hide Local, Step, JobInv, SlotsOk, WakeOk, PoolAfter, LockCase, ViewInLock, InLock, LocksOk;
    StepFrame(s, j, a, t);
    var v, w := ViewOf(s, j), ViewOf(t, j);
    LockFrame(s, t, j);
    LockCases(s.pool, t.pool, j, v, a);
    hide ViewOf, JobsOk;
    LockCombine(s, t, j, v, w, a, true, s.pool.radarrLock, t.pool.radarrLock);
    LockCombine(s, t, j, v, w, a, false, s.pool.sonarrLock, t.pool.sonarrLock);
    BothLocks(s, t);
  }

  /** What a step of `j` does to one app's lock. */
  ghost predicate LockCase(j: JobId, v: View, w: View, a: JobAction, radarr: bool,
                           before: Option<JobId>, after: Option<JobId>)
  {
    var mine := (v.row.media == Movie <==> radarr);
    && (a == LockApp ==>
          && !ViewInLock(v, radarr) && (ViewInLock(w, radarr) <==> mine)
          && (if mine then before.None? && after == Some(j) else after == before))
    && (a == UnlockApp || a == Fail ==>
          !ViewInLock(w, radarr) && after == if ViewInLock(v, radarr) then None else before)
    && (a != LockApp && a != UnlockApp && a != Fail ==>
          (ViewInLock(w, radarr) <==> ViewInLock(v, radarr)) && after == before)
  }

  lemma LockCases(pool: Pool, after: Pool, j: JobId, v: View, a: JobAction)
    requires JobInv(v, true) && Local(v, a).Some? && PoolAfter(pool, j, v, a) == Some(after)
    ensures LockCase(j, v, Local(v, a).value, a, true, pool.radarrLock, after.radarrLock)
    ensures LockCase(j, v, Local(v, a).value, a, false, pool.sonarrLock, after.sonarrLock)
  {
    hide Local, JobInv, PoolAfter;
    LocalLocks(v, a);
    LockMoves(pool, j, v, a);
  }

  lemma BothLocks(s: State, t: State)
    requires forall j: JobId :: t.pool.radarrLock == Some(j) <==> InLock(t, j, true)
    requires forall j: JobId :: t.pool.sonarrLock == Some(j) <==> InLock(t, j, false)
    ensures LocksOk(t)
  {
  }

  lemma LockFrame(s: State, t: State, j: JobId)
    requires j in s.rows && t.rows.Keys == s.rows.Keys
    requires s.tasks.Keys <= s.rows.Keys && t.tasks.Keys <= t.rows.Keys
    requires forall i :: i in s.rows && i != j ==> ViewOf(t, i) == ViewOf(s, i)
    ensures forall i, radarr :: InLock(t, i, radarr) <==>
      if i == j then ViewInLock(ViewOf(t, j), radarr) else InLock(s, i, radarr)
    ensures forall radarr :: InLock(s, j, radarr) <==> ViewInLock(ViewOf(s, j), radarr)
  {
    forall i, radarr
      ensures InLock(t, i, radarr) <==> if i == j then ViewInLock(ViewOf(t, j), radarr) else InLock(s, i, radarr)
    {
      if i != j && i in s.rows { assert ViewOf(t, i) == ViewOf(s, i); }
    }
  }

  lemma LockCombine(s: State, t: State, j: JobId, v: View, w: View, a: JobAction, radarr: bool,
    before: Option<JobId>, after: Option<JobId>)
    requires LocksOk(s) && before == (if radarr then s.pool.radarrLock else s.pool.sonarrLock)
    requires forall i: JobId :: InLock(t, i, radarr) <==> if i == j then ViewInLock(w, radarr) else InLock(s, i, radarr)
    requires InLock(s, j, radarr) <==> ViewInLock(v, radarr)
    requires LockCase(j, v, w, a, radarr, before, after)
    ensures forall i: JobId :: after == Some(i) <==> InLock(t, i, radarr)
  {
    hide InLock, ViewInLock;
  }

  /** How a step moves the two locks. */
  lemma LockMoves(pool: Pool, j: JobId, v: View, a: JobAction)
    ensures var r := PoolAfter(pool, j, v, a);
      var owned := v.task.Some? && v.cancel.Some?;
      r.Some? ==>
        && r.value.radarrLock ==
             (if owned && a == LockApp && v.row.media == Movie then Some(j)
              else if owned && v.row.media == Movie && (a == UnlockApp || (a == Fail && v.task.value.pc == Locked)) then None
              else pool.radarrLock)
        && r.value.sonarrLock ==
             (if owned && a == LockApp && v.row.media != Movie then Some(j)
              else if owned && v.row.media != Movie && (a == UnlockApp || (a == Fail && v.task.value.pc == Locked)) then None
              else pool.sonarrLock)
        && (owned && a == LockApp ==> pool.LockOf(v.row.media).None?)
  {
    hide ReleasedSlot;
  }

  /** Only taking and giving back the lock, or failing, moves a task in or out of it. */
  lemma LocalLocks(v: View, a: JobAction)
    requires JobInv(v, true) && Local(v, a).Some?
    ensures var w := Local(v, a).value;
      var before := v.task.Some? && v.task.value.pc == Locked;
      var after := w.task.Some? && w.task.value.pc == Locked;
      && w.row.media == v.row.media
      && (a == LockApp ==> !before && after) && (a == UnlockApp ==> before && !after)
      && (a == Fail ==> !after) && (a != LockApp && a != UnlockApp && a != Fail ==> before == after)
      && (before ==> v.cancel.Some?) && (a == LockApp || a == UnlockApp ==> v.task.Some? && v.cancel.Some?)
  {
    hide RowOk, TaskOk;
  }

  lemma StepKeepsWake(c: Config, s: State, j: JobId, a: JobAction, t: State)
    requires Inv(c, s) && s.up && Step(s, j, a) == Some(t)
    ensures WakeOk(t)
  {
    StepFrame(s, j, a, t);
    var v, w := ViewOf(s, j), ViewOf(t, j);
    if a != Retry && a != RetryImport { QueuedOnlyByRetry(v, a); }
    hide Local, JobInv, Step, SlotsOk, LocksOk, JobsOk, PoolAfter;
    forall i | IsQueued(t, i) && i != j ensures IsQueued(s, i) {
      assert ViewOf(t, i) == ViewOf(s, i);
    }
    assert t.rows[j] == w.row && s.rows[j] == v.row;
    hide ViewOf;
    forall i | t.loop == Idle && !t.wake && IsQueued(t, i) ensures i in t.owed {
      assert (i == j && (a == Retry || a == RetryImport)) || IsQueued(s, i);
    }
  }

  lemma QueuedOnlyByRetry(v: View, a: JobAction)
    requires JobInv(v, true) && Local(v, a).Some? && a != Retry && a != RetryImport
    ensures Local(v, a).value.row.status == Queued ==> v.row.status == Queued
  {
    hide RowOk;
    if v.task.Some? && v.cancel.Some? { assert PcOk(v.row, v.task.value.pc); }
    hide TaskOk;
  }

  lemma ClaimFrame(s: State, j: JobId)
    requires JobsOk(s) && s.up && IsQueued(s, j)
    ensures var t := Put(s, j, Claimed(ViewOf(s, j)));
      && t.rows.Keys == s.rows.Keys && t.tasks.Keys <= t.rows.Keys && t.cancels.Keys <= t.rows.Keys
      && ViewOf(s, j).task.None? && ViewOf(t, j) == Claimed(ViewOf(s, j)) && JobInv(ViewOf(t, j), true)
      && (forall i :: i in s.rows && i != j ==> ViewOf(t, i) == ViewOf(s, i))
      && t.up && t.loop == s.loop && t.wake == s.wake && t.owed == s.owed && t.pool == s.pool
  {
    var v := ViewOf(s, j);
    assert JobInv(v, true);
    assert Local(v, Claim) == Some(Claimed(v)) && v.task.None?;
    ClaimKeepsInv(v, Claim);
    hide JobInv, Local, Claimed;
    PutView(s, j, Claimed(v));
  }

  /** A job that gets its first task takes no slot and no lock. */
  ghost predicate NewTask(s: State, t: State, j: JobId) {
    && s.up && t.up && t.pool == s.pool && j in s.rows && t.rows.Keys == s.rows.Keys
    && s.tasks.Keys <= s.rows.Keys && t.tasks.Keys <= t.rows.Keys
    && (forall i :: i in s.rows && i != j ==> ViewOf(t, i) == ViewOf(s, i))
    && ViewOf(s, j).task.None? && ViewOf(t, j).task.Some? && ViewOf(t, j).task.value.pc.Boundary?
  }

  lemma NewTaskKeepsSlots(c: Config, s: State, t: State, j: JobId)
    requires NewTask(s, t, j) && SlotsOk(c, s)
    ensures SlotsOk(c, t)
  {
    assert !Holds(ViewOf(t, j).task.value.pc, DOWNLOAD) && !Holds(ViewOf(t, j).task.value.pc, TRANSCODE);
    hide Holds, Holders;
    OneHolder(s, t, j, DOWNLOAD);
    OneHolder(s, t, j, TRANSCODE);
  }

  lemma NewTaskKeepsLocks(s: State, t: State, j: JobId)
    requires NewTask(s, t, j) && LocksOk(s)
    ensures LocksOk(t)
  {
    LockFrame(s, t, j);
    assert forall radarr :: !ViewInLock(ViewOf(s, j), radarr) && !ViewInLock(ViewOf(t, j), radarr);
    hide ViewInLock, InLock, ViewOf;
    forall i: JobId, radarr ensures InLock(t, i, radarr) <==> InLock(s, i, radarr) {
    }
  }

  lemma ClaimKeepsInvariant(c: Config, s: State, j: JobId)
    requires Inv(c, s) && s.up && s.loop == Draining && IsQueued(s, j)
    ensures Inv(c, Put(s, j, Claimed(ViewOf(s, j))))
  {
    ClaimFrame(s, j);
    var t := Put(s, j, Claimed(ViewOf(s, j)));
    assert ViewOf(t, j).task.Some? && ViewOf(t, j).task.value.pc.Boundary?;
    hide Put, Claimed, JobInv, SlotsOk, LocksOk;
    NewTaskKeepsSlots(c, s, t, j);
    NewTaskKeepsLocks(s, t, j);
    forall i | i in t.rows ensures JobInv(ViewOf(t, i), true) {
      if i != j { assert ViewOf(t, i) == ViewOf(s, i); }
    }
  }

  lemma CreateKeepsInvariant(c: Config, s: State, a: Action, t: State)
    requires Inv(c, s) && s.up && a.Create? && Live(s, a) == Some(t)
    ensures Inv(c, t)
  {
    hide JobInv;
    var j := a.job;
    assert j !in s.tasks && j !in s.cancels;
    assert JobsOk(t) by {
      forall i | i in t.rows ensures JobInv(ViewOf(t, i), true) {
        if i != j { assert ViewOf(t, i) == ViewOf(s, i); } else { NewRowOk(a.media, a.transcode, a.order); }
      }
    }
    assert Holders(t, DOWNLOAD) == Holders(s, DOWNLOAD) && Holders(t, TRANSCODE) == Holders(s, TRANSCODE);
    assert forall i, radarr :: InLock(t, i, radarr) <==> InLock(s, i, radarr);
  }

  lemma NewRowOk(media: Media, transcode: bool, order: Key)
    ensures JobInv(View(NewRow(media, transcode, order), None, None), true)
  {
  }

  lemma LoopKeepsInvariant(c: Config, s: State, a: Action, t: State)
    requires Inv(c, s) && s.up && (a.CallWake? || a.LoopWake? || a.ClaimNone?) && Live(s, a) == Some(t)
    ensures Inv(c, t)
  {
    hide JobInv;
    assert t.rows == s.rows && t.tasks == s.tasks && t.cancels == s.cancels && t.pool == s.pool;
    assert forall i :: i in s.rows ==> ViewOf(t, i) == ViewOf(s, i);
    assert Holders(t, DOWNLOAD) == Holders(s, DOWNLOAD) && Holders(t, TRANSCODE) == Holders(s, TRANSCODE);
    assert forall i, radarr :: InLock(t, i, radarr) <==> InLock(s, i, radarr);
  }

  lemma RestartKeepsInvariant(c: Config, s: State)
    requires Inv(c, s) && !s.up
    ensures Inv(c, Restarted(c, s))
  {
    var t := Restarted(c, s);
    forall i | i in t.rows ensures JobInv(ViewOf(t, i), true) {
      RecoverKeepsInv(ViewOf(s, i), c.autoResume);
    }
    assert Holders(t, DOWNLOAD) == {} && Holders(t, TRANSCODE) == {};
  }

  lemma DownKeepsInvariant(c: Config, s: State)
    requires Inv(c, s)
    ensures Inv(c, Down(s))
  {
    var t := Down(s);
    forall i | i in t.rows ensures JobInv(ViewOf(t, i), false) {
      assert JobInv(ViewOf(s, i), s.up);
    }
  }

  /** Every action keeps the invariant: each active job has exactly one task and one cancel
      event, free slots plus holders is the limit, each import lock has its one holder, no
      wake-up is lost, and each job is as `JobInv` says. */
  lemma ActionKeepsInvariant(c: Config, s: State, a: Action)
    requires Inv(c, s) && Apply(c, s, a).Some?
    ensures Inv(c, Apply(c, s, a).value)
  {
    hide Inv, Step, Down, Restarted, Claimed, Put;
    var t := Apply(c, s, a).value;
    match a
    case Recover => RestartKeepsInvariant(c, s);
    case Crash => DownKeepsInvariant(c, s);
    case Create(_, _, _, _) => CreateKeepsInvariant(c, s, a, t);
    case ClaimNext(j) => ClaimKeepsInvariant(c, s, j);
    case On(j, step) => StepKeepsInvariant(c, s, j, step, t);
    case _ => LoopKeepsInvariant(c, s, a, t);
  }

  lemma StepKeepsInvariant(c: Config, s: State, j: JobId, a: JobAction, t: State)
    requires Inv(c, s) && s.up && Step(s, j, a) == Some(t)
    ensures Inv(c, t)
  {
    hide JobsOk, SlotsOk, LocksOk, WakeOk, Step;
    StepKeepsJobs(s, j, a, t);
    StepKeepsSlots(c, s, j, a, t);
    StepKeepsLocks(c, s, j, a, t);
    StepKeepsWake(c, s, j, a, t);
  }

  lemma FreshInvariant(c: Config)
    ensures Inv(c, Fresh)
  {
  }

  lemma {:induction false} RunsKeepInvariant(c: Config, s: State, actions: seq<Action>, t: State)
    requires Inv(c, s) && Runs(c, s, actions, t)
    ensures Inv(c, t)
    decreases |actions|
  {
    hide Inv, Apply;
    if actions != [] {
      ActionKeepsInvariant(c, s, actions[0]);
      RunsKeepInvariant(c, Apply(c, s, actions[0]).value, actions[1..], t);
    }
  }
}
