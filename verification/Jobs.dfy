/** The life of jobs as one transition system: rows in the database, tasks and cancel events
    in memory, the claim loop, the slots and the import locks
    (backend/app/jobs/manager.py, pipeline.py, service.py, constants.py). */
module Jobs {
  import opened Wrappers

  type JobId = nat

  // --------------------------------------------------------------- vocabulary

  datatype Status =
    | Queued | Starting | Downloading | Postprocessing | Transcoding | Organizing | Importing
    | Completed | Failed | Cancelled

  predicate Active(s: Status) {
    s != Queued && !Terminal(s)
  }

  predicate Terminal(s: Status) {
    s == Completed || s == Failed || s == Cancelled
  }

  predicate Cancellable(s: Status) {
    s == Queued || s == Starting || s == Downloading || s == Postprocessing || s == Transcoding
  }

  datatype ImportStatus = NotApplicable | Pending | Imported | NotImported | Error

  predicate Verdict(i: ImportStatus) {
    i == Imported || i == NotImported || i == Error
  }

  datatype Media = Movie | Tv | Other

  /** The steps in order; `done` in a row counts the checkpoints committed so far, so
      `last_completed_step` is the one before it. */
  const DOWNLOAD: nat := 0
  const TRANSCODE: nat := 1
  const ORGANIZE: nat := 2
  const IMPORT: nat := 3
  const STEPS: nat := 4

  function StatusOf(step: nat): Status {
    if step == DOWNLOAD then Downloading
    else if step == TRANSCODE then Transcoding
    else if step == ORGANIZE then Organizing
    else Importing
  }

  /** The columns the claim orders by before the id: the request's and the job's creation, and
      where there is one the season, the episode and the air date. */
  datatype Key = Key(requestCreated: int, jobCreated: int, season: Option<int>, episode: Option<int>, airDate: Option<int>)

  /** One row of `jobs`, with its request's creation among the columns of `order`. */
  datatype Row = Row(
    status: Status, done: nat, cancelRequested: bool, importStatus: ImportStatus, hasPath: bool,
    media: Media, transcode: bool, order: Key)

  /** What a checkpoint writes besides the step. */
  datatype Fields = NoFields | PathRecorded | VerdictReached(status: ImportStatus)

  /** Where a task is in `execute`. */
  datatype Pc =
    | Boundary(step: nat)             // the head of the loop over the steps, or past its end
    | Entered(step: nat)              // not cancelled; about to look whether the step is done
    | Waiting(step: nat)              // for a download or transcode slot
    | Acquired(step: nat)             // slot held, cancel not looked at yet
    | Announcing(step: nat)           // about to commit the step's status
    | Working(step: nat)              // status committed
    | Locked                          // import: holding the app's import lock
    | Saving(step: nat, fields: Fields)  // about to commit the checkpoint
    | Ending(status: Status)          // about to commit the terminal status

  /** One asyncio task with the context it read when it was claimed. `latePost` is a
      background write of POSTPROCESSING that waits for the writer lock. */
  datatype Task = Task(pc: Pc, hasPath: bool, importStatus: ImportStatus, wroteOrganizing: bool, latePost: bool)

  /** Everything about one job: its row, its task and its cancel event. */
  datatype View = View(row: Row, task: Option<Task>, cancel: Option<bool>)

  // ------------------------------------------------------------ one job's transitions

  datatype JobAction =
    | Check | LoopEnd | Decide(skip: bool) | Acquire | CheckHeld | Announce | SpawnPost | WritePost
    | WorkDone | WorkCancelled | LockApp | UnlockApp | ImportDone(verdict: ImportStatus) | Fail | Save | Terminate
    | Claim | Cancel | Retry | RetryImport

  function At(v: View, pc: Pc): View
    requires v.task.Some?
  {
    v.(task := Some(v.task.value.(pc := pc)))
  }

  /** The task is inside `async with` on the slot of `step`. */
  predicate Holds(pc: Pc, step: nat) {
    step <= TRANSCODE && (pc == Acquired(step) || pc == Announcing(step) || pc == Working(step))
  }

  /** One atomic step of one job, or None where it cannot happen. */
  function Local(v: View, a: JobAction): Option<View> {
    match a
    case Claim => if v.row.status == Queued then Some(Claimed(v)) else None
    case Cancel => CancelRow(v)
    case Retry =>
      if v.row.status == Failed then Some(v.(row := v.row.(status := Queued))) else None
    case RetryImport =>
      if (v.row.importStatus == NotImported || v.row.importStatus == Error) && Terminal(v.row.status) then
        Some(v.(row := v.row.(importStatus := Pending, done := IMPORT, status := Queued)))
      else None
    case _ => if v.task.Some? && v.cancel.Some? then Run(v, v.task.value, v.cancel.value, a) else None
  }

  /** `_claim` and `_start`. */
  function Claimed(v: View): View {
    View(v.row.(status := Starting),
         Some(Task(Boundary(v.row.done), v.row.hasPath, v.row.importStatus, false, false)),
         Some(false))
  }

  /** `JobService.cancel`. */
  function CancelRow(v: View): Option<View> {
    if !Cancellable(v.row.status) then None
    else if v.cancel.Some? then Some(v.(row := v.row.(cancelRequested := true), cancel := Some(true)))
    else Some(v.(row := v.row.(status := Cancelled, cancelRequested := false)))
  }

  /** One atomic step of a running task. */
  function Run(v: View, task: Task, cancel: bool, a: JobAction): Option<View>
    requires v.task == Some(task)
  {
    match a
    // the loop of `execute` and `_raise_if_cancelled`
    case Check =>
      if task.pc.Boundary? && task.pc.step < STEPS then
        Some(At(v, if cancel then Ending(Cancelled) else Entered(task.pc.step)))
      else None
    case LoopEnd => if task.pc == Boundary(STEPS) then Some(At(v, Ending(Completed))) else None
    case Decide(skip) => if task.pc.Entered? then DoneCheck(v, task, task.pc.step, skip) else None
    // download and transcode slots
    case Acquire => if task.pc.Waiting? then Some(At(v, Acquired(task.pc.step))) else None
    case CheckHeld =>
      if task.pc.Acquired? then Some(At(v, if cancel then Ending(Cancelled) else Announcing(task.pc.step))) else None
    // `_set_status`; a write of this task that was queued earlier goes first
    case Announce =>
      if task.pc.Announcing? && !task.latePost then
        var step := task.pc.step;
        Some(v.(row := v.row.(status := StatusOf(step)),
                task := Some(task.(pc := Working(step), wroteOrganizing := task.wroteOrganizing || step == ORGANIZE))))
      else None
    case SpawnPost =>
      if task.pc == Working(DOWNLOAD) && !task.latePost then Some(v.(task := Some(task.(latePost := true)))) else None
    case WritePost =>
      if task.latePost then
        Some(v.(row := v.row.(status := Postprocessing), task := Some(task.(latePost := false))))
      else None
    // the work of a step
    case WorkDone =>
      if task.pc == Working(DOWNLOAD) && !cancel then Some(At(v, Saving(DOWNLOAD, NoFields)))
      else if task.pc == Working(TRANSCODE) then Some(At(v, Saving(TRANSCODE, NoFields)))
      else if task.pc == Working(ORGANIZE) then
        Some(v.(task := Some(task.(pc := Saving(ORGANIZE, PathRecorded), hasPath := true))))
      else None
    case WorkCancelled =>
      if (task.pc == Working(DOWNLOAD) || task.pc == Working(TRANSCODE)) && cancel then Some(At(v, Ending(Cancelled)))
      else None
    // the import step needs a completed path; without one it raises
    case LockApp => if task.pc == Working(IMPORT) && task.hasPath then Some(At(v, Locked)) else None
    case UnlockApp => if task.pc == Locked then Some(At(v, Working(IMPORT))) else None
    case ImportDone(verdict) =>
      if task.pc == Working(IMPORT) && task.hasPath && Verdict(verdict) then
        Some(At(v, Saving(IMPORT, VerdictReached(verdict))))
      else None
    // any other exception
    case Fail => if !task.pc.Ending? then Some(At(v, Ending(Failed))) else None
    // `_checkpoint`
    case Save => if task.pc.Saving? && !task.latePost then Some(Saved(v, task, task.pc.step, task.pc.fields)) else None
    // `_finish` or `_cancelled`, and `_forget`
    case Terminate =>
      if task.pc.Ending? && !task.latePost then
        var flag := v.row.cancelRequested && task.pc.status != Cancelled;
        Some(View(v.row.(status := task.pc.status, cancelRequested := flag), None, None))
      else None
    case _ => None
  }

  /** Each step's own done-check; where it depends on files, `skip` is what they say. */
  function DoneCheck(v: View, task: Task, step: nat, skip: bool): Option<View>
    requires v.task == Some(task)
  {
    if step == DOWNLOAD then Some(At(v, if skip then Saving(DOWNLOAD, NoFields) else Waiting(DOWNLOAD)))
    else if step == TRANSCODE then
      if skip then Some(At(v, Saving(TRANSCODE, NoFields)))
      else if v.row.transcode then Some(At(v, Waiting(TRANSCODE)))
      else None
    else if step == ORGANIZE then Some(At(v, if skip then Saving(ORGANIZE, NoFields) else Announcing(ORGANIZE)))
    else if step == IMPORT then
      if skip == (v.row.media == Other || task.importStatus == Imported || task.importStatus == NotImported) then
        Some(At(v, if skip then Saving(IMPORT, NoFields) else Announcing(IMPORT)))
      else None
    else None
  }

  function Saved(v: View, task: Task, step: nat, fields: Fields): View {
    var row := v.row.(done := step + 1);
    View(match fields
         case NoFields => row
         case PathRecorded => row.(hasPath := true)
         case VerdictReached(status) => row.(importStatus := status),
         Some(task.(pc := Boundary(step + 1))), v.cancel)
  }

  /** The memory is gone; the row stays. */
  function Crashed(v: View): View {
    View(v.row, None, None)
  }

  /** `recover` on one row. */
  function Recovered(row: Row, autoResume: bool): Row {
    if !Active(row.status) then row
    else if row.cancelRequested then row.(status := Cancelled, cancelRequested := false)
    else if autoResume then row.(status := Queued)
    else row.(status := Failed)
  }

  // ------------------------------------------------------------ what every job keeps

  /** Past the last place where the run looks at its cancel event. */
  predicate PastLastCheck(pc: Pc) {
    || pc == Entered(IMPORT) || pc == Announcing(IMPORT) || pc == Working(IMPORT) || pc == Locked
    || (pc.Saving? && pc.step == IMPORT) || pc == Boundary(STEPS) || pc == Ending(Completed)
  }

  predicate RowOk(row: Row) {
    && row.done <= STEPS
    && (row.media == Other <==> row.importStatus == NotApplicable)
    && (row.media != Other ==> (row.done == STEPS <==> Verdict(row.importStatus)))
    && (Verdict(row.importStatus) ==> row.hasPath)
    && (row.hasPath ==> row.done >= IMPORT)
    && (row.status == Completed ==> row.done == STEPS)
  }

  /** The step a task is at; an ending task is at none. */
  function StepOf(pc: Pc): nat
    requires !pc.Ending?
  {
    if pc == Locked then IMPORT else pc.step
  }

  predicate PcOk(row: Row, pc: Pc) {
    match pc
    case Boundary(step) => step <= STEPS
    case Entered(step) => step < STEPS
    case Waiting(step) => step <= TRANSCODE
    case Acquired(step) => step <= TRANSCODE
    case Announcing(step) => step <= IMPORT && (step == IMPORT ==> row.media != Other)
    case Working(step) => step <= IMPORT && (step == IMPORT ==> row.media != Other)
    case Locked => row.media != Other
    case Saving(step, fields) =>
      && step <= IMPORT
      && (fields.PathRecorded? ==> step == ORGANIZE)
      && (fields.VerdictReached? ==> step == IMPORT && row.media != Other && Verdict(fields.status))
      && (step == IMPORT && row.media != Other ==> fields.VerdictReached?)
    case Ending(status) => Terminal(status) && (status == Completed ==> row.done == STEPS)
  }

  predicate TaskOk(row: Row, task: Task, cancel: bool) {
    && PcOk(row, task.pc)
    // the step it is at is the first one without a checkpoint
    && (!task.pc.Ending? ==> StepOf(task.pc) == row.done)
    && (row.done < STEPS ==> task.importStatus == row.importStatus)
    && (row.hasPath ==> task.hasPath)
    && (task.hasPath && !row.hasPath ==> task.pc == Saving(ORGANIZE, PathRecorded) || task.pc.Ending?)
    && ((task.pc == Saving(ORGANIZE, PathRecorded) || task.pc == Locked
         || (task.pc.Saving? && task.pc.fields.VerdictReached?)) ==> task.hasPath)
    // cancelling
    && (cancel ==> row.cancelRequested)
    && (task.pc == Ending(Cancelled) ==> cancel)
    && (task.latePost ==>
          && (row.status == Downloading || row.status == Postprocessing) && !task.wroteOrganizing
          && (task.pc == Working(DOWNLOAD) || task.pc == Saving(DOWNLOAD, NoFields) || task.pc.Ending?))
    && (task.wroteOrganizing ==>
          && (row.status == Organizing || row.status == Importing)
          && (task.pc == Working(ORGANIZE) || task.pc == Saving(ORGANIZE, PathRecorded) || row.done >= IMPORT
              || task.pc.Ending?)
          && (cancel ==> !PastLastCheck(task.pc)))
    && (task.pc == Working(ORGANIZE) ==> task.wroteOrganizing)
    && (task.pc == Working(DOWNLOAD) ==> row.status == Downloading || row.status == Postprocessing)
  }

  predicate JobInv(v: View, up: bool) {
    && RowOk(v.row)
    && (if up then
          && (v.task.Some? <==> Active(v.row.status)) && (v.cancel.Some? <==> v.task.Some?)
          && (v.task.Some? && v.cancel.Some? ==> TaskOk(v.row, v.task.value, v.cancel.value))
        else v.task.None? && v.cancel.None?)
  }

  lemma LoopKeepsInv(v: View, a: JobAction)
    requires JobInv(v, true) && Local(v, a).Some? && (a.Check? || a.LoopEnd?)
    ensures JobInv(Local(v, a).value, true)
  {
  }

  lemma DecideEarlyKeepsInv(v: View, a: JobAction)
    requires JobInv(v, true) && Local(v, a).Some? && a.Decide? && v.row.done < ORGANIZE
    ensures JobInv(Local(v, a).value, true)
  {
  }

  lemma DecideLateKeepsInv(v: View, a: JobAction)
    requires JobInv(v, true) && Local(v, a).Some? && a.Decide? && v.row.done >= ORGANIZE
    ensures JobInv(Local(v, a).value, true)
  {
  }

  lemma SlotKeepsInv(v: View, a: JobAction)
    requires JobInv(v, true) && Local(v, a).Some? && (a.Acquire? || a.CheckHeld?)
    ensures JobInv(Local(v, a).value, true)
  {
  }

  lemma AnnounceKeepsInv(v: View, a: JobAction)
    requires JobInv(v, true) && Local(v, a).Some? && (a.Announce?)
    ensures JobInv(Local(v, a).value, true)
  {
  }

  lemma LateKeepsInv(v: View, a: JobAction)
    requires JobInv(v, true) && Local(v, a).Some? && (a.SpawnPost? || a.WritePost?)
    ensures JobInv(Local(v, a).value, true)
  {
  }

  lemma WorkDoneKeepsInv(v: View, a: JobAction)
    requires JobInv(v, true) && Local(v, a).Some? && a.WorkDone?
    ensures JobInv(Local(v, a).value, true)
  {
  }

  lemma WorkCancelledKeepsInv(v: View, a: JobAction)
    requires JobInv(v, true) && Local(v, a).Some? && a.WorkCancelled?
    ensures JobInv(Local(v, a).value, true)
  {
  }

  lemma ImportKeepsInv(v: View, a: JobAction)
    requires JobInv(v, true) && Local(v, a).Some? && (a.LockApp? || a.UnlockApp? || a.ImportDone?)
    ensures JobInv(Local(v, a).value, true)
  {
  }

  lemma FailKeepsInv(v: View, a: JobAction)
    requires JobInv(v, true) && Local(v, a).Some? && (a.Fail?)
    ensures JobInv(Local(v, a).value, true)
  {
  }

  lemma SaveKeepsInv(v: View, a: JobAction)
    requires JobInv(v, true) && Local(v, a).Some? && (a.Save?)
    ensures JobInv(Local(v, a).value, true)
  {
  }

  lemma TerminateKeepsInv(v: View, a: JobAction)
    requires JobInv(v, true) && Local(v, a).Some? && (a.Terminate?)
    ensures JobInv(Local(v, a).value, true)
  {
  }

  lemma ClaimKeepsInv(v: View, a: JobAction)
    requires JobInv(v, true) && Local(v, a).Some? && a.Claim?
    ensures JobInv(Local(v, a).value, true)
  {
  }

  lemma CancelKeepsInv(v: View, a: JobAction)
    requires JobInv(v, true) && Local(v, a).Some? && a.Cancel?
    ensures JobInv(Local(v, a).value, true)
  {
  }

  lemma RetryKeepsInv(v: View, a: JobAction)
    requires JobInv(v, true) && Local(v, a).Some? && (a.Retry? || a.RetryImport?)
    ensures JobInv(Local(v, a).value, true)
  {
  }

  /** Every step of every job keeps the invariant. */
  lemma LocalKeepsInv(v: View, a: JobAction)
    requires JobInv(v, true) && Local(v, a).Some?
    ensures JobInv(Local(v, a).value, true)
  {
    hide Local, TaskOk, RowOk;
    match a
    case Check => LoopKeepsInv(v, a);
    case LoopEnd => LoopKeepsInv(v, a);
    case Decide(_) => if v.row.done < ORGANIZE { DecideEarlyKeepsInv(v, a); } else { DecideLateKeepsInv(v, a); }
    case Acquire => SlotKeepsInv(v, a);
    case CheckHeld => SlotKeepsInv(v, a);
    case Announce => AnnounceKeepsInv(v, a);
    case SpawnPost => LateKeepsInv(v, a);
    case WritePost => LateKeepsInv(v, a);
    case WorkDone => WorkDoneKeepsInv(v, a);
    case WorkCancelled => WorkCancelledKeepsInv(v, a);
    case LockApp => ImportKeepsInv(v, a);
    case UnlockApp => ImportKeepsInv(v, a);
    case ImportDone(_) => ImportKeepsInv(v, a);
    case Fail => FailKeepsInv(v, a);
    case Save => SaveKeepsInv(v, a);
    case Terminate => TerminateKeepsInv(v, a);
    case Claim => ClaimKeepsInv(v, a);
    case Cancel => CancelKeepsInv(v, a);
    case Retry => RetryKeepsInv(v, a);
    case RetryImport => RetryKeepsInv(v, a);
  }

  lemma RecoverKeepsInv(v: View, autoResume: bool)
    requires JobInv(v, false)
    ensures JobInv(v.(row := Recovered(v.row, autoResume)), true)
  {
  }
}
