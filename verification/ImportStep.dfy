/** The import step against a Radarr or Sonarr that answers as it likes
    (backend/app/jobs/pipeline.py, lines 445-572). */
module ImportStep {
  import opened Wrappers
  import opened Paths

  /** The ways a call to the app can fail; the last is any other HTTP error. */
  datatype Failure = AuthError | ClientError | ServerError | Timeout | TransportError | OtherHttpError

  /** `IMPORT_RETRYABLE`. */
  predicate Retryable(f: Failure) {
    f == ServerError || f == Timeout || f == TransportError
  }

  datatype Reply<T> = Answer(value: T) | Raised(failure: Failure)

  /** What the step does that can be seen from outside. */
  datatype Event =
    | FileChecked(there: bool)
    | LibraryAsked(path: string)
    | LockTaken
    | CommandSent(target: Path)
    | LockGiven
    | Verified(path: string)

  type Log = seq<Event>

  /** The number of import commands in a log. */
  function Commands(log: Log): nat {
    if log == [] then 0
    else Commands(log[..|log| - 1]) + if log[|log| - 1].CommandSent? then 1 else 0
  }

  lemma CommandsAppend(log: Log, e: Event)
    ensures Commands(log + [e]) == Commands(log) + if e.CommandSent? then 1 else 0
  {
    assert (log + [e])[..|log + [e]| - 1] == log;
  }

  /** The lock is held at the end of a log. */
  predicate Held(log: Log) {
    log != [] && (log[|log| - 1].LockTaken? || (!log[|log| - 1].LockGiven? && Held(log[..|log| - 1])))
  }

  lemma HeldAppend(log: Log, e: Event)
    ensures Held(log + [e]) <==> e.LockTaken? || (!e.LockGiven? && Held(log))
  {
    assert (log + [e])[..|log + [e]| - 1] == log;
  }

  /** Commands go out only under the lock, and no lock is taken twice. */
  predicate Disciplined(log: Log) {
    log != [] ==>
      var front, last := log[..|log| - 1], log[|log| - 1];
      && Disciplined(front)
      && (last.CommandSent? || last.LockGiven? ==> Held(front))
      && (last.LockTaken? ==> !Held(front))
  }

  lemma DisciplinedAppend(log: Log, e: Event)
    requires Disciplined(log) && (e.CommandSent? || e.LockGiven? ==> Held(log)) && (e.LockTaken? ==> !Held(log))
    ensures Disciplined(log + [e])
  {
    assert (log + [e])[..|log + [e]| - 1] == log;
  }

  /** The lock is taken at `k` and not given back before `i`. */
  predicate TakenSince(log: Log, k: nat, i: nat) {
    k < i <= |log| && log[k] == LockTaken && forall m :: k < m < i ==> log[m] != LockGiven
  }

  lemma {:induction false} HeldMeansTaken(log: Log)
    ensures Held(log) <==> exists k :: TakenSince(log, k, |log|)
  {
    if log != [] {
      var front, n := log[..|log| - 1], |log| - 1;
      HeldMeansTaken(front);
      if log[n].LockTaken? {
        assert TakenSince(log, n, |log|);
      } else if Held(log) {
        var k :| TakenSince(front, k, n);
        assert TakenSince(log, k, |log|);
      } else if k :| TakenSince(log, k, |log|) {
        assert TakenSince(front, k, n);
      }
    }
  }

  /** In a log so kept every command and every giving back stands under the lock, and the lock
      is never taken while it is held. */
  lemma {:induction false} OnlyUnderTheLock(log: Log, i: nat)
    requires Disciplined(log) && i < |log|
    ensures log[i].CommandSent? || log[i].LockGiven? ==> exists k :: TakenSince(log, k, i)
    ensures log[i].LockTaken? ==> !exists k :: TakenSince(log, k, i)
  {
    var front := log[..|log| - 1];
    if i < |front| { OnlyUnderTheLock(front, i); } else { HeldMeansTaken(front); }
    TakenInFront(log, front, i);
  }

  lemma TakenInFront(log: Log, front: Log, i: nat)
    requires i < |log| && front == log[..|log| - 1]
    ensures (exists k :: TakenSince(log, k, i)) <==> exists k :: TakenSince(front, k, i)
  {
    if k :| TakenSince(log, k, i) { assert TakenSince(front, k, i); }
    if k :| TakenSince(front, k, i) { assert TakenSince(log, k, i); }
  }

  datatype Status = Imported | NotImported | Error

  datatype Outcome = Outcome(status: Status, commandId: Option<string>, path: Option<string>)

  /** `_ImportPlan` with the policy's numbers; a typed title has no lookup. */
  datatype Plan = Plan(send: Path, folder: Path, hasLookup: bool, attempts: nat, commandTimeout: nat)

  /** The disk, the app and the clock. */
  class World {
    var log: Log
    var now: nat

    /** A call takes time and fails or answers; only polling gives up with `Timeout`. */
    method Call() returns (failure: Option<Failure>)
      modifies this`now
      ensures now > old(now) && failure != Some(Timeout)
    {
      var passed: int := *;
      now := now + 1 + if passed < 0 then 0 else passed;
      failure := *;
      if failure == Some(Timeout) { failure := Some(TransportError); }
    }

    method Note(e: Event)
      requires Disciplined(log) && (e.CommandSent? || e.LockGiven? ==> Held(log)) && (e.LockTaken? ==> !Held(log))
      modifies this`log
      ensures log == old(log) + [e] && Disciplined(log)
      ensures Commands(log) == Commands(old(log)) + if e.CommandSent? then 1 else 0
      ensures Held(log) <==> e.LockTaken? || (!e.LockGiven? && Held(old(log)))
    {
      CommandsAppend(log, e);
      HeldAppend(log, e);
      DisciplinedAppend(log, e);
      log := log + [e];
    }
  }

  /** A verification is believed only on this: the file was seen gone, and right after that
      the app named a non-empty path. */
  predicate Proven(log: Log, path: string) {
    && |log| >= 3 && path != ""
    && log[|log| - 3] == FileChecked(false) && log[|log| - 2] == LibraryAsked(path) && log[|log| - 1] == Verified(path)
  }

  /** The whole of one verification that was not interrupted, from what it saw to its answer. */
  predicate VerifiedAs(plan: Plan, before: Log, after: Log, answer: Option<string>) {
    match answer
    case Some(path) => plan.hasLookup && path != "" && after == before + [FileChecked(false), LibraryAsked(path), Verified(path)]
    case None =>
      || after == before + [FileChecked(true)]
      || (plan.hasLookup && after == before + [FileChecked(false), LibraryAsked("")])
      || (!plan.hasLookup && after == before + [FileChecked(false)])
  }

  /** The last thing seen speaks against the import: the file is there, or the app names no
      path, or there is no asking it. */
  predicate LooksRefused(plan: Plan, log: Log) {
    log != [] &&
      match log[|log| - 1]
      case FileChecked(there) => there || !plan.hasLookup
      case LibraryAsked(path) => path == ""
      case _ => false
  }

  /** Between two logs nothing was verified. */
  predicate Unverified(before: Log, after: Log) {
    before <= after && forall i :: |before| <= i < |after| ==> !after[i].Verified?
  }

  lemma UnverifiedSelf(a: Log)
    ensures Unverified(a, a)
  {
  }

  lemma UnverifiedAlong(a: Log, b: Log, c: Log)
    requires Unverified(a, b) && Unverified(b, c)
    ensures Unverified(a, c)
  {
  }

  lemma UnverifiedNote(a: Log, b: Log, e: Event)
    requires Unverified(a, b) && !e.Verified?
    ensures Unverified(a, b + [e])
  {
  }

  /** `_verify`. */
  method Verify(world: World, plan: Plan) returns (r: Reply<Option<string>>)
    requires Disciplined(world.log)
    modifies world
    ensures Disciplined(world.log) && old(world.log) <= world.log && world.now >= old(world.now)
    ensures Held(world.log) == Held(old(world.log)) && Commands(world.log) == Commands(old(world.log))
    ensures r.Answer? && r.value.Some? ==>
      && plan.hasLookup && Proven(world.log, r.value.value) && |world.log| >= |old(world.log)| + 3
      && Unverified(old(world.log), world.log[..|world.log| - 1])
    ensures !(r.Answer? && r.value.Some?) ==> Unverified(old(world.log), world.log)
    ensures r.Answer? ==> VerifiedAs(plan, old(world.log), world.log, r.value)
    ensures r.Answer? && r.value.None? ==> LooksRefused(plan, world.log)
    ensures r.Raised? ==> plan.hasLookup && world.log == old(world.log) + [FileChecked(false)]
  {
    hide Disciplined, Held, Commands, Unverified;
    ghost var start := world.log;
    UnverifiedSelf(start);
    var there: bool := *;
    UnverifiedNote(start, world.log, FileChecked(there));
    world.Note(FileChecked(there));
    if there { return Answer(None); }
    var libraryPath := "";
    if plan.hasLookup {
      var failure := world.Call();
      if failure.Some? { return Raised(failure.value); }
      libraryPath := *;
      UnverifiedNote(start, world.log, LibraryAsked(libraryPath));
      world.Note(LibraryAsked(libraryPath));
      if libraryPath == "" { return Answer(None); }
    }
    // `prune_empty_dirs` happens here; it touches no file
    if libraryPath == "" { return Answer(None); }
    ghost var before := world.log;
    world.Note(Verified(libraryPath));
    assert world.log[..|world.log| - 1] == before;
    return Answer(Some(libraryPath));
  }

  /** `_send_command`: the narrow path, and the folder if the app refuses that with a client
      error, which `first` is how the first call failed. */
  method SendCommand(world: World, plan: Plan) returns (r: Reply<string>, ghost first: Option<Failure>)
    requires Disciplined(world.log) && Held(world.log)
    modifies world
    ensures Disciplined(world.log) && Held(world.log) && Unverified(old(world.log), world.log)
    ensures world.now >= old(world.now)
    ensures Commands(old(world.log)) < Commands(world.log) <= Commands(old(world.log)) + 2
    ensures world.log == old(world.log) +
      if first == Some(ClientError) && plan.send != plan.folder then [CommandSent(plan.send), CommandSent(plan.folder)]
      else [CommandSent(plan.send)]
    ensures first.None? ==> r.Answer?
    ensures first.Some? && !(first == Some(ClientError) && plan.send != plan.folder) ==> r == Raised(first.value)
  {
    hide Disciplined, Held, Commands;
    world.Note(CommandSent(plan.send));
    var failure := world.Call();
    first := failure;
    if failure == Some(ClientError) && plan.send != plan.folder {
      world.Note(CommandSent(plan.folder));
      failure := world.Call();
    }
    if failure.Some? { return Raised(failure.value), first; }
    var id: string := *;
    return Answer(id), first;
  }

  /** `_poll`: until the command has finished, or the deadline has passed. */
  method Poll(world: World, plan: Plan) returns (r: Reply<bool>)
    requires Disciplined(world.log)
    modifies world`now
    ensures world.now >= old(world.now)
    ensures r.Answer? ==> r.value
    ensures r == Raised(Timeout) ==> world.now >= old(world.now) + plan.commandTimeout
  {
    var deadline := world.now + plan.commandTimeout;
    while true
      invariant world.now >= old(world.now)
      decreases deadline - world.now
    {
      var failure := world.Call();
      if failure.Some? { return Raised(failure.value); }
      var finished: bool := *;
      if finished { return Answer(true); }
      if world.now >= deadline { return Raised(Timeout); }
    }
  }

  /** The part of `_import_once` under the import lock: send, wait for the end, verify. */
  method SendAndVerify(world: World, plan: Plan, lastBefore: Option<string>)
    returns (r: Reply<Option<string>>, last: Option<string>)
    requires Disciplined(world.log) && Held(world.log)
    modifies world
    ensures Disciplined(world.log) && Held(world.log) && old(world.log) <= world.log
    ensures Commands(old(world.log)) < Commands(world.log) <= Commands(old(world.log)) + 2
    ensures r.Answer? ==> last.Some?
    ensures last.None? ==> lastBefore.None?
    ensures if r.Answer? && r.value.Some? then
              && plan.hasLookup && Proven(world.log, r.value.value) && |world.log| >= |old(world.log)| + 3
              && Unverified(old(world.log), world.log[..|world.log| - 1])
            else Unverified(old(world.log), world.log)
    ensures r.Answer? && r.value.None? ==> LooksRefused(plan, world.log)
  {
    hide Disciplined, Held, Commands, Proven, Unverified, VerifiedAs, LooksRefused;
    last := lastBefore;
    ghost var start := world.log;
    var sent, _ := SendCommand(world, plan);
    UnverifiedPrefix(start, world.log);
    if sent.Raised? { return Raised(sent.failure), last; }
    last := Some(sent.value);
    var polled := Poll(world, plan);
    if polled.Raised? { return Raised(polled.failure), last; }
    ghost var before := world.log;
    r := Verify(world, plan);
    if r.Answer? && r.value.Some? {
      UnverifiedAlong(start, before, world.log[..|world.log| - 1]);
    } else {
      UnverifiedAlong(start, before, world.log);
    }
  }

  lemma UnverifiedPrefix(a: Log, b: Log)
    requires Unverified(a, b)
    ensures a <= b
  {
  }

  /** The verification under the lock spoke against it, and then the lock was given back. */
  predicate Refused(plan: Plan, log: Log) {
    log != [] && log[|log| - 1] == LockGiven && LooksRefused(plan, log[..|log| - 1])
  }

  /** `_import_once`; `last` is the command id the next failure is reported with. */
  method ImportOnce(world: World, plan: Plan, lastBefore: Option<string>) returns (r: Reply<Outcome>, last: Option<string>)
    requires Disciplined(world.log) && !Held(world.log)
    modifies world
    ensures Disciplined(world.log) && !Held(world.log) && old(world.log) <= world.log
    ensures Commands(old(world.log)) <= Commands(world.log) <= Commands(old(world.log)) + 2
    ensures r.Answer? ==> r.value.status != Error && (r.value.status == Imported <==> r.value.path.Some?)
    ensures if r.Answer? && r.value.status == Imported then
              plan.hasLookup && ImportProven(old(world.log), world.log, r.value.path.value)
            else Unverified(old(world.log), world.log)
    ensures r.Answer? ==> r.value.commandId == last
    ensures r.Answer? && r.value.status == NotImported ==>
      Commands(world.log) > Commands(old(world.log)) && last.Some? && Refused(plan, world.log)
  {
    hide Disciplined, Held, Commands, Proven, Unverified, ImportProven, VerifiedAs, LooksRefused;
    last := lastBefore;
    ghost var start := world.log;
    var verified := Verify(world, plan);
    if verified.Raised? { UnverifiedPrefix(start, world.log); return Raised(verified.failure), last; }
    if verified.value.Some? {
      ProvenNow(start, world.log, verified.value.value);
      return Answer(Outcome(Imported, last, verified.value)), last;
    }
    // `async with plan.client.import_lock`
    UnverifiedNote(start, world.log, LockTaken);
    world.Note(LockTaken);
    ghost var before := world.log;
    verified, last := SendAndVerify(world, plan, last);
    ghost var after := world.log;
    world.Note(LockGiven);
    assert world.log[..|world.log| - 1] == after;
    if verified.Answer? && verified.value.Some? {
      ProvenInside(start, before, after, world.log, verified.value.value);
      return Answer(Outcome(Imported, last, verified.value)), last;
    }
    UnverifiedAlong(start, before, after);
    UnverifiedNote(start, after, LockGiven);
    if verified.Raised? { return Raised(verified.failure), last; }
    var failure := world.Call();
    if failure.Some? { return Raised(failure.value), last; }
    return Answer(Outcome(NotImported, last, None)), last;
  }

  /** One proof of import, at the end of the log but for the lock given back after it, and
      no command after it. */
  predicate ImportProven(before: Log, after: Log, path: string) {
    && before <= after && after != []
    && (if after[|after| - 1] == LockGiven then
          && Proven(after[..|after| - 1], path) && |before| <= |after| - 4
          && Unverified(before, after[..|after| - 2])
        else Proven(after, path) && |before| <= |after| - 3 && Unverified(before, after[..|after| - 1]))
  }

  /** What such a proof is: in the new part of the log the file is seen gone, the app names a
      path that is not empty, and that path is taken for the import; nothing follows but the
      lock being given back. */
  lemma ProofSpelled(before: Log, after: Log, path: string) returns (n: nat)
    requires ImportProven(before, after, path)
    ensures |before| <= n && n + 3 <= |after| && path != ""
    ensures after[n] == FileChecked(false) && after[n + 1] == LibraryAsked(path) && after[n + 2] == Verified(path)
    ensures after[n + 3..] == [] || after[n + 3..] == [LockGiven]
  {
    n := if after[|after| - 1] == LockGiven then |after| - 4 else |after| - 3;
  }

  lemma ProvenNow(before: Log, after: Log, path: string)
    requires before <= after && Proven(after, path) && |after| >= |before| + 3
    requires Unverified(before, after[..|after| - 1])
    ensures ImportProven(before, after, path)
  {
  }

  lemma ProvenInside(start: Log, before: Log, after: Log, end: Log, path: string)
    requires Unverified(start, before) && before <= after && Proven(after, path) && |after| >= |before| + 3
    requires Unverified(before, after[..|after| - 1]) && end == after + [LockGiven]
    ensures ImportProven(start, end, path)
  {
    assert end[..|end| - 1] == after;
    assert end[..|end| - 2] == after[..|after| - 1];
  }

  lemma ProvenLater(start: Log, before: Log, after: Log, path: string)
    requires Unverified(start, before) && ImportProven(before, after, path)
    ensures ImportProven(start, after, path)
  {
  }

  /** After a verification no command is sent any more. */
  lemma NoCommandAfterProof(before: Log, after: Log, path: string)
    requires ImportProven(before, after, path)
    ensures forall i, k :: |before| <= i < k < |after| && after[i].Verified? ==> !after[k].CommandSent?
  {
  }

  /** `_import_with_retries`: no failure of the app leaves it, all become outcomes.
      `failures` lists how the attempts that failed did so. */
  method ImportWithRetries(world: World, plan: Plan) returns (attempts: nat, outcome: Outcome, ghost failures: seq<Failure>)
    requires Disciplined(world.log) && !Held(world.log)
    modifies world
    ensures Disciplined(world.log) && !Held(world.log) && old(world.log) <= world.log
    ensures 1 <= attempts <= if plan.attempts == 0 then 1 else plan.attempts
    ensures Commands(world.log) <= Commands(old(world.log)) + 2 * attempts
    ensures outcome.status == Imported <==> outcome.path.Some?
    ensures outcome.status == Imported ==>
      plan.hasLookup && ImportProven(old(world.log), world.log, outcome.path.value)
    ensures outcome.status != Imported ==> Unverified(old(world.log), world.log)
    ensures outcome.status == NotImported ==>
      outcome.commandId.Some? && Commands(world.log) > Commands(old(world.log)) && Refused(plan, world.log)
    ensures |failures| == if outcome.status == Error then attempts else attempts - 1
    ensures forall i :: 0 <= i < |failures| - 1 ==> failures[i] in {ServerError, Timeout, TransportError}
    ensures outcome.status == Error ==>
      failures[attempts - 1] in {AuthError, ClientError, OtherHttpError} || attempts >= plan.attempts
    ensures outcome.status != Error ==>
      forall i :: 0 <= i < |failures| ==> failures[i] in {ServerError, Timeout, TransportError}
  {
    hide Disciplined, Held, Commands, Proven, ImportProven, Refused;
    attempts, failures := 0, [];
    var last: Option<string> := None;
    while true
      invariant Disciplined(world.log) && !Held(world.log)
      invariant attempts == 0 || attempts < plan.attempts
      invariant Unverified(old(world.log), world.log)
      invariant Commands(old(world.log)) <= Commands(world.log) <= Commands(old(world.log)) + 2 * attempts
      invariant |failures| == attempts && forall i :: 0 <= i < |failures| ==> Retryable(failures[i])
      decreases plan.attempts - attempts
    {
      attempts := attempts + 1;
      ghost var start := world.log;
      var reply;
      reply, last := ImportOnce(world, plan, last);
      if reply.Answer? {
        outcome := reply.value;
        if outcome.status == Imported {
          ProvenLater(old(world.log), start, world.log, outcome.path.value);
        }
        return;
      }
      failures := failures + [reply.failure];
      if !Retryable(reply.failure) || attempts >= plan.attempts {
        outcome := Outcome(Error, last, None);
        return;
      }
    }
  }
}
