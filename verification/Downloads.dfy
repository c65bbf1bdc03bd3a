/** Running yt-dlp with retries (backend/app/ytdlp/runner.py, lines 139-251). */
module Downloads {
  import opened Wrappers
  import opened Text
  import opened Command

  /** How an attempt ends: with the file, with one of the three exceptions of the runner, or
      with any other. */
  datatype Outcome = Done(path: string) | Cancelled | Fatal(kind: string) | Failed(exitCode: int) | Other

  /** One attempt: what it was started with, whether the cancel event was already set, and
      how it ended. */
  datatype Run = Run(argv: seq<string>, cancelledBefore: bool, outcome: Outcome)

  /** The log of `download` for the arguments `argv`: the retry policy as a reader would
      state it. */
  ghost predicate Follows(argv: seq<string>, retries: nat, runs: seq<Run>, sleeps: seq<nat>) {
    && 1 <= |runs| <= retries + 1
    && (forall i :: 0 <= i < |runs| - 1 ==> runs[i].outcome.Failed?)
    && (runs[|runs| - 1].outcome.Failed? ==> |runs| == retries + 1)
    && (forall i :: 0 <= i < |runs| ==> runs[i].argv == ArgvFor(argv, runs[..i]))
    && (forall i :: 0 <= i < |runs| && runs[i].cancelledBefore ==> runs[i].outcome.Cancelled?)
    && |sleeps| == |runs| - 1
    && (forall i :: 0 <= i < |sleeps| ==> sleeps[i] == 4 + 2 * i)
  }

  /** What the next attempt is started with. */
  function ArgvFor(argv: seq<string>, runs: seq<Run>): seq<string> {
    if ExitedWithTwo(runs) then Downgraded(argv).GetOr(argv) else argv
  }

  predicate ExitedWithTwo(runs: seq<Run>) {
    exists i :: 0 <= i < |runs| && runs[i].outcome == Failed(2)
  }

  /** The file that yt-dlp adds a line to for each file it has finished: not there, or lines. */
  type FinalPath = Option<seq<string>>

  /** What `read_final_path` makes of it: the last line that is not blank, stripped. */
  ghost predicate Reads(marker: FinalPath, outcome: Outcome) {
    match marker
    case None => outcome == Other
    case Some(lines) =>
      if forall i :: 0 <= i < |lines| ==> IsBlank(lines[i]) then outcome == Failed(0)
      else exists i :: 0 <= i < |lines| && LastText(lines, i) && outcome == Done(Strip(lines[i], Spaces()))
  }

  predicate LastText(lines: seq<string>, i: nat)
    requires i < |lines|
  {
    !IsBlank(lines[i]) && forall j :: i < j < |lines| ==> IsBlank(lines[j])
  }

  /** yt-dlp, the cancel event, the clock and the final-path file. */
  class Process {
    var cancel: bool
    var log: seq<Run>
    var sleeps: seq<nat>
    var marker: FinalPath

    /** `run_once`, with the exit code and the fatal error recognised in the output. A set cancel
        event outranks how the process ended, whether it was set before or while the process ran. */
    method RunOnce(argv: seq<string>) returns (outcome: Outcome, code: int, fatal: Option<string>)
      modifies this`cancel, this`log, this`marker
      ensures log == old(log) + [Run(argv, old(cancel), outcome)]
      ensures old(cancel) ==> cancel
      ensures outcome.Cancelled? <==> cancel
      ensures !cancel && code != 0 ==> outcome == if fatal.Some? then Fatal(fatal.value) else Failed(code)
      ensures !cancel && code == 0 ==> Reads(marker, outcome)
    {
      var before := cancel;
      var setMeanwhile: bool := *;
      code, fatal := *, *;
      cancel := cancel || setMeanwhile;
      marker := *;
      if cancel {
        outcome := Cancelled;
      } else if code != 0 {
        outcome := if fatal.Some? then Fatal(fatal.value) else Failed(code);
      } else {
        outcome := ReadFinalPath();
      }
      log := log + [Run(argv, before, outcome)];
    }

    /** `read_final_path`. */
    method ReadFinalPath() returns (outcome: Outcome)
      ensures Reads(marker, outcome) && !outcome.Cancelled?
    {
      hide IsBlank, Strip, Spaces;
      if marker.None? {
        return Other;
      }
      var lines := marker.value;
      var i := |lines|;
      while i > 0
        invariant 0 <= i <= |lines| && forall j :: i <= j < |lines| ==> IsBlank(lines[j])
      {
        i := i - 1;
        if !IsBlank(lines[i]) {
          assert LastText(lines, i);
          return Done(Strip(lines[i], Spaces()));
        }
      }
      return Failed(0);
    }

    /** The wait before the next attempt; the cancel event may be set in the meantime. */
    method Sleep(seconds: nat)
      modifies this`cancel, this`sleeps
      ensures sleeps == old(sleeps) + [seconds] && (old(cancel) ==> cancel)
    {
      var setMeanwhile: bool := *;
      cancel := cancel || setMeanwhile;
      sleeps := sleeps + [seconds];
    }
  }

  /** Nothing but failures so far, each as the policy has it. */
  ghost predicate AllFailed(argv: seq<string>, runs: seq<Run>, sleeps: seq<nat>) {
    && |sleeps| == |runs|
    && (forall i :: 0 <= i < |runs| ==> runs[i].outcome.Failed? && !runs[i].cancelledBefore)
    && (forall i :: 0 <= i < |runs| ==> runs[i].argv == ArgvFor(argv, runs[..i]))
    && (forall i :: 0 <= i < |sleeps| ==> sleeps[i] == 4 + 2 * i)
  }

  /** `download`, whose answer is how its last attempt ended. */
  method Download(process: Process, argv: seq<string>, retries: nat) returns (outcome: Outcome)
    requires Downgraded(argv).Some? && process.log == [] && process.sleeps == []
    modifies process
    ensures Follows(argv, retries, process.log, process.sleeps)
    ensures outcome == process.log[|process.log| - 1].outcome
  {
    hide ArgvFor, Downgraded, AllFailed, Follows, ExitedWithTwo;
    var currentArgv := argv;
    var attempts := 0;
    NothingYet(argv);
    while true
      invariant attempts == |process.log| <= retries
      invariant AllFailed(argv, process.log, process.sleeps)
      invariant currentArgv == ArgvFor(argv, process.log)
      decreases retries - attempts
    {
      ghost var before, sleeps := process.log, process.sleeps;
      attempts := attempts + 1;
      var reply, _, _ := process.RunOnce(currentArgv);
      outcome := reply;
      ghost var run := process.log[|before|];
      assert process.log == before + [run];
      if !outcome.Failed? || attempts >= retries + 1 {
        LastRun(argv, retries, before, sleeps, run);
        return;
      }
      process.Sleep(4 + 2 * (attempts - 1));
      OneMoreFailed(argv, before, sleeps, run);
      if outcome.exitCode == 2 {
        currentArgv := Downgraded(currentArgv).GetOr(currentArgv);
      }
    }
  }

  lemma NothingYet(argv: seq<string>)
    ensures AllFailed(argv, [], []) && ArgvFor(argv, []) == argv
  {
  }

  lemma LastRun(argv: seq<string>, retries: nat, runs: seq<Run>, sleeps: seq<nat>, run: Run)
    requires AllFailed(argv, runs, sleeps) && |runs| <= retries && run.argv == ArgvFor(argv, runs)
    requires run.cancelledBefore ==> run.outcome == Cancelled
    requires run.outcome.Failed? ==> |runs| == retries
    ensures Follows(argv, retries, runs + [run], sleeps)
  {
    hide ArgvFor;
    Appended(runs, run);
  }

  lemma OneMoreFailed(argv: seq<string>, runs: seq<Run>, sleeps: seq<nat>, run: Run)
    requires Downgraded(argv).Some?
    requires AllFailed(argv, runs, sleeps) && run.argv == ArgvFor(argv, runs)
    requires run.outcome.Failed? && (run.cancelledBefore ==> run.outcome == Cancelled)
    ensures AllFailed(argv, runs + [run], sleeps + [4 + 2 * |runs|])
    ensures ArgvFor(argv, runs + [run]) ==
            if run.outcome.exitCode == 2 then Downgraded(run.argv).GetOr(run.argv) else run.argv
  {
    Appended(runs, run);
    DowngradeCurrent(argv, runs);
    OneMoreInOrder(argv, runs, sleeps, run);
  }

  lemma OneMoreInOrder(argv: seq<string>, runs: seq<Run>, sleeps: seq<nat>, run: Run)
    requires AllFailed(argv, runs, sleeps) && run.argv == ArgvFor(argv, runs)
    requires run.outcome.Failed? && !run.cancelledBefore
    ensures AllFailed(argv, runs + [run], sleeps + [4 + 2 * |runs|])
  {
    hide ArgvFor;
    Appended(runs, run);
  }

  /** The downgrade may be asked for more than once; once is enough. */
  lemma DowngradeCurrent(argv: seq<string>, runs: seq<Run>)
    requires Downgraded(argv).Some?
    ensures Downgraded(ArgvFor(argv, runs)) == Downgraded(argv)
  {
    DowngradeTwice(argv);
  }

  lemma Appended(runs: seq<Run>, run: Run)
    ensures forall i :: 0 <= i <= |runs| ==> (runs + [run])[..i] == runs[..i]
    ensures ExitedWithTwo(runs + [run]) <==> ExitedWithTwo(runs) || run.outcome == Failed(2)
  {
    assert (runs + [run])[|runs|] == run;
    if i :| 0 <= i < |runs| && runs[i].outcome == Failed(2) {
      assert (runs + [run])[i] == runs[i];
    }
  }

  /** With arguments that `build_argv` made: every attempt after an exit code 2 is the same
      download with one fragment, and every attempt before is the download as it was built. */
  lemma RetriesUseOneFragment(d: Command.Download, retries: nat, runs: seq<Run>, sleeps: seq<nat>, i: nat)
    requires BuildArgv(d).Some? && Follows(BuildArgv(d).value, retries, runs, sleeps) && i < |runs|
    ensures Some(runs[i].argv) == BuildArgv(if ExitedWithTwo(runs[..i]) then d.(fragments := 1) else d)
  {
    DowngradeIsRebuild(d);
  }
}
