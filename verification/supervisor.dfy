/**
 * The supervisor in `main`: the start guard on the running file, the
 * restart loop that runs at most `MaxRestarts + 1` cycles, the monitor that
 * polls the listener threads and alerts the developer about a dead thread at
 * most once per cycle, and the bounded wait for the threads to become safe to
 * stop.
 *
 * What the file system and the threads show at each poll comes in as data:
 * one `Cycle` per run of the restart loop.
 */
module Supervisor {
  import opened Wrappers
  import opened CheckpointText
  import opened Checkpoints

  /** `max_restart_attempts`: the loop runs while `start_attempts <= MaxRestarts`. */
  const MaxRestarts: nat := 5
  /** The wait for the threads gives up once `wait_count` reaches this. */
  const MaxWaitCount: nat := 10

  /** A listener thread as the supervisor sees it. */
  datatype ThreadStatus = ThreadStatus(alive: bool, safeToStop: bool)

  /** One pass of the monitor loop: whether the running file exists, then `is_alive()` of each thread. */
  datatype Poll = Poll(runningFile: bool, alive: seq<bool>)

  /** How the monitor loop of a cycle ended. */
  datatype MonitorEnd =
    | DeadThread         // a thread died: alert and restart
    | RunningFileGone    // the running file was removed: stop
    | StillMonitoring    // the polls given ran out without either

  /** What one cycle observes: the monitor's polls, and the threads at each check of the exit wait. */
  datatype Cycle = Cycle(polls: seq<Poll>, exitChecks: nat -> seq<ThreadStatus>)

  /** The start guard: in development a leftover running file is removed, otherwise its presence stops the start. */
  predicate ShouldStart(dev: bool, runningFile: bool)
  {
    dev || !runningFile
  }

  predicate AnyDead(alive: seq<bool>)
  {
    false in alive
  }

  /** A poll that lets the monitor sleep and poll again. */
  predicate Quiet(poll: Poll)
  {
    poll.runningFile && !AnyDead(poll.alive)
  }

  /** The monitor loop: polls until the running file is gone or a thread is dead. */
  function MonitorOutcome(polls: seq<Poll>): MonitorEnd
  {
    if polls == [] then StillMonitoring
    else if !polls[0].runningFile then RunningFileGone
    else if AnyDead(polls[0].alive) then DeadThread
    else MonitorOutcome(polls[1..])
  }

  predicate EndsDead(cycle: Cycle)
  {
    MonitorOutcome(cycle.polls) == DeadThread
  }

  /**
   * The monitor's verdict is decided by the first poll that is not quiet:
   * a dead thread there means a restart, a missing running file a stop.
   */
  lemma {:induction false} MonitorOutcomeAt(polls: seq<Poll>, k: nat)
    requires k <= |polls|
    requires forall j :: 0 <= j < k ==> Quiet(polls[j])
    ensures k == |polls| ==> MonitorOutcome(polls) == StillMonitoring
    ensures k < |polls| && !polls[k].runningFile ==> MonitorOutcome(polls) == RunningFileGone
    ensures k < |polls| && polls[k].runningFile && AnyDead(polls[k].alive) ==> MonitorOutcome(polls) == DeadThread
  {
    if k > 0 {
      MonitorOutcomeAt(polls[1..], k - 1);
    }
  }

  /** A thread the exit wait waits for: not safe to stop and still alive. */
  predicate Blocks(t: ThreadStatus)
  {
    !t.safeToStop && t.alive
  }

  /** The exit wait goes on while some thread blocks. */
  predicate MustWait(threads: seq<ThreadStatus>)
  {
    exists i :: 0 <= i < |threads| && Blocks(threads[i])
  }

  /** The `for thread in listening_threads` scan of the exit wait. */
  method ScanForBlocking(threads: seq<ThreadStatus>) returns (wait: bool)
    ensures wait <==> MustWait(threads)
  {
    wait := false;
    var i := 0;
    while i < |threads|
      invariant 0 <= i <= |threads|
      invariant wait <==> exists j :: 0 <= j < i && Blocks(threads[j])
    {
      if !threads[i].safeToStop && threads[i].alive {
        wait := true;
      }
      i := i + 1;
    }
  }

  /**
   * The exit wait: checks the threads until none blocks, but at most
   * `MaxWaitCount + 1` times, sleeping between checks. Every check but the
   * last saw a blocking thread, and the last one saw none unless the cap was
   * reached.
   */
  method WaitToExit(exitChecks: nat -> seq<ThreadStatus>) returns (checks: nat, sleeps: nat)
    ensures 1 <= checks <= MaxWaitCount + 1
    ensures sleeps == checks - 1
    ensures forall k :: 0 <= k < checks - 1 ==> MustWait(exitChecks(k))
    ensures checks <= MaxWaitCount ==> !MustWait(exitChecks(checks - 1))
  {
    var waitCount: nat := 0;
    var waitToExit := true;
    sleeps := 0;
    while waitToExit
      invariant waitCount <= MaxWaitCount + 1
      invariant waitToExit ==> waitCount <= MaxWaitCount && sleeps == waitCount
      invariant waitToExit ==> forall k :: 0 <= k < waitCount ==> MustWait(exitChecks(k))
      invariant !waitToExit ==> 1 <= waitCount && sleeps == waitCount - 1
      invariant !waitToExit ==> forall k :: 0 <= k < waitCount - 1 ==> MustWait(exitChecks(k))
      invariant !waitToExit && waitCount <= MaxWaitCount ==> !MustWait(exitChecks(waitCount - 1))
      decreases MaxWaitCount + 1 - waitCount
    {
      waitToExit := ScanForBlocking(exitChecks(waitCount));
      if waitCount >= MaxWaitCount {
        waitToExit := false;
      }
      waitCount := waitCount + 1;
      if waitToExit {
        sleeps := sleeps + 1;
      }
    }
    checks := waitCount;
  }

  /**
   * The monitor loop of one cycle: `quiet` polls pass with a sleep each, and
   * the first poll that is not quiet ends the loop. A dead thread is reported
   * to the developer once, however many threads are dead.
   */
  method Monitor(polls: seq<Poll>) returns (end: MonitorEnd, deadAlerts: nat, quiet: nat)
    ensures end == MonitorOutcome(polls)
    ensures quiet <= |polls|
    ensures forall k :: 0 <= k < quiet ==> Quiet(polls[k])
    ensures quiet < |polls| <==> end != StillMonitoring
    ensures quiet < |polls| ==> !Quiet(polls[quiet])
    ensures deadAlerts == if end == DeadThread then 1 else 0
  {
    var i := 0;
    var deadAlertSent := false;
    var attemptRestart := false;
    deadAlerts := 0;
    while i < |polls| && polls[i].runningFile && !attemptRestart
      invariant 0 <= i <= |polls|
      invariant forall k :: 0 <= k < i ==> Quiet(polls[k])
      invariant attemptRestart == deadAlertSent
      invariant attemptRestart ==> i < |polls| && polls[i].runningFile && AnyDead(polls[i].alive)
      invariant deadAlerts == if deadAlertSent then 1 else 0
      decreases |polls| - i, !attemptRestart
    {
      var alive := polls[i].alive;
      var j := 0;
      while j < |alive|
        invariant 0 <= j <= |alive|
        invariant attemptRestart == deadAlertSent
        invariant attemptRestart <==> false in alive[..j]
        invariant deadAlerts == if deadAlertSent then 1 else 0
      {
        assert alive[..j + 1] == alive[..j] + [alive[j]];
        if !alive[j] && !deadAlertSent {
          deadAlerts := deadAlerts + 1;
          deadAlertSent := true;
          attemptRestart := true;
        }
        j := j + 1;
      }
      assert alive[..j] == alive;
      if !attemptRestart {
        i := i + 1;
      }
    }
    MonitorOutcomeAt(polls, i);
    quiet := i;
    end := if attemptRestart then DeadThread else if i < |polls| then RunningFileGone else StillMonitoring;
  }

  /**
   * The number of cycles the restart loop runs from cycle `c` on: it goes on
   * after a cycle only when that cycle ended with a dead thread and fewer
   * than `MaxRestarts + 1` cycles have run.
   */
  function CyclesRun(cycles: nat -> Cycle, c: nat): nat
    requires c <= MaxRestarts
    decreases MaxRestarts - c
  {
    if c == MaxRestarts || !EndsDead(cycles(c)) then c + 1 else CyclesRun(cycles, c + 1)
  }

  /**
   * The restart loop runs at least one and at most `MaxRestarts + 1` cycles;
   * every cycle but the last ended with a dead thread, and the last one did
   * not unless the cap was reached.
   */
  lemma {:induction false} CyclesRunBound(cycles: nat -> Cycle, c: nat)
    requires c <= MaxRestarts
    ensures c + 1 <= CyclesRun(cycles, c) <= MaxRestarts + 1
    ensures forall k :: c <= k < CyclesRun(cycles, c) - 1 ==> EndsDead(cycles(k))
    ensures CyclesRun(cycles, c) <= MaxRestarts ==> !EndsDead(cycles(CyclesRun(cycles, c) - 1))
    decreases MaxRestarts - c
  {
    if c < MaxRestarts && EndsDead(cycles(c)) {
      CyclesRunBound(cycles, c + 1);
    }
  }

  /** Conversely, a count of cycles that ends as the restart loop ends is the count it runs. */
  lemma {:induction false} CyclesRunExact(cycles: nat -> Cycle, c: nat, n: nat)
    requires c < n <= MaxRestarts + 1
    requires forall k :: c <= k < n - 1 ==> EndsDead(cycles(k))
    requires n <= MaxRestarts ==> !EndsDead(cycles(n - 1))
    ensures CyclesRun(cycles, c) == n
    decreases n - c
  {
    if c + 1 < n {
      CyclesRunExact(cycles, c + 1, n);
    }
  }

  /** The dead-thread alerts of `attempts` cycles that all but the last ended on a dead thread. */
  function DeadAlertCount(cycles: nat -> Cycle, attempts: nat): nat
    requires attempts >= 1
  {
    attempts - 1 + if EndsDead(cycles(attempts - 1)) then 1 else 0
  }

  /** The checkpoint file's text once `main` has made sure it exists. */
  function FileText(file: Option<string>): string
  {
    if file.None? then "" else file.value
  }

  /**
   * One cycle of the restart loop: create the checkpoint file if needed and
   * load it, then monitor the threads and wait for them to be safe to stop.
   * The load raises, and the cycle goes no further, when a line's value is
   * not an integer.
   */
  method RunCycle(cycle: Cycle, store: CheckpointStore) returns (crashed: bool, deadAlerts: nat)
    requires store.Valid()
    modifies store
    ensures store.Valid()
    ensures store.file == Some(FileText(old(store.file)))
    ensures crashed <==> HasBadValue(FileText(old(store.file)))
    ensures crashed ==> deadAlerts == 0
    ensures !crashed ==> deadAlerts == if EndsDead(cycle) then 1 else 0
    ensures !crashed ==> LoadText(old(store.times), FileText(old(store.file))) == Ok(store.times)
    ensures !crashed ==> store.names == LoadedNames(old(store.names), SplitLines(FileText(old(store.file))))
  {
    LoadTextFails(store.times, FileText(store.file));
    var status := store.Reload();
    if status.BadValueOnLine? {
      return true, 0;
    }
    crashed := false;
    var _, alerts, _ := Monitor(cycle.polls);
    deadAlerts := alerts;
    var _, _ := WaitToExit(cycle.exitChecks);
  }

  /**
   * What every cycle leaves behind: the file with text `text`, and the
   * dictionary and key order that text loads to over `before` and `namesBefore`.
   */
  ghost predicate Reloaded(store: CheckpointStore, text: string, before: map<string, int>, namesBefore: seq<string>)
    reads store
  {
    && store.Valid()
    && store.file == Some(text)
    && !HasBadValue(text)
    && LoadText(before, text) == Ok(store.times)
    && store.names == LoadedNames(namesBefore, SplitLines(text))
  }

  /**
   * The restart loop of `main`: a restart alert goes out before every cycle
   * but the first, and a dead-thread alert for every cycle that ended with a
   * dead thread. A checkpoint line whose value is not an integer makes the
   * load raise, which nothing catches: `main` ends in its first cycle.
   * Every cycle reloads the same file, so the dictionary and its key order are
   * the file's load over the ones `main` started with.
   */
  method RestartLoop(cycles: nat -> Cycle, store: CheckpointStore)
    returns (crashed: bool, attempts: nat, restartAlerts: nat, deadAlerts: nat)
    requires store.Valid()
    modifies store
    ensures store.Valid()
    ensures store.file == Some(FileText(old(store.file)))
    ensures crashed <==> HasBadValue(FileText(old(store.file)))
    ensures crashed ==> attempts == 1 && restartAlerts == 0 && deadAlerts == 0
    ensures !crashed ==> attempts == CyclesRun(cycles, 0)
    ensures !crashed ==> restartAlerts == attempts - 1
    ensures !crashed ==> attempts >= 1 && deadAlerts == DeadAlertCount(cycles, attempts)
    ensures !crashed ==> LoadText(old(store.times), FileText(old(store.file))) == Ok(store.times)
    ensures !crashed ==> store.names == LoadedNames(old(store.names), SplitLines(FileText(old(store.file))))
  {
    ghost var text := FileText(store.file);
    ghost var before := store.times;
    ghost var namesBefore := store.names;
    restartAlerts := 0;
    attempts := 1;
    var alerts;
    crashed, alerts := RunCycle(cycles(0), store);
    deadAlerts := alerts;
    if crashed {
      return;
    }
    var attemptRestart := alerts == 1;
    LoadTextIdempotent(before, text);
    LoadedNamesIdempotent(namesBefore, SplitLines(text));
    assert Reloaded(store, text, before, namesBefore);
    while attemptRestart && attempts <= MaxRestarts
      invariant 1 <= attempts <= MaxRestarts + 1
      invariant Reloaded(store, text, before, namesBefore)
      invariant restartAlerts == attempts - 1
      invariant forall k :: 0 <= k < attempts - 1 ==> EndsDead(cycles(k))
      invariant attemptRestart <==> EndsDead(cycles(attempts - 1))
      invariant deadAlerts == attempts - 1 + if attemptRestart then 1 else 0
      decreases MaxRestarts + 1 - attempts
    {
      restartAlerts := restartAlerts + 1;
      attempts := attempts + 1;
      var cycleCrashed;
      cycleCrashed, alerts := RunCycle(cycles(attempts - 1), store);
      if cycleCrashed {
        assert false;
      }
      deadAlerts := deadAlerts + alerts;
      attemptRestart := alerts == 1;
    }
    CyclesRunExact(cycles, 0, attempts);
  }

  /**
   * `main` after reading the watched feeds: the start guard, then the
   * restart loop.
   */
  method Supervise(dev: bool, runningFile: bool, cycles: nat -> Cycle, store: CheckpointStore)
    returns (started: bool, crashed: bool, attempts: nat, restartAlerts: nat, deadAlerts: nat)
    requires store.Valid()
    modifies store
    ensures store.Valid()
    ensures started == ShouldStart(dev, runningFile)
    ensures !started ==> !crashed && attempts == 0 && restartAlerts == 0 && deadAlerts == 0
    ensures !started ==> store.file == old(store.file) && store.times == old(store.times) && store.names == old(store.names)
    ensures started ==> store.file == Some(FileText(old(store.file)))
    ensures crashed <==> started && HasBadValue(FileText(old(store.file)))
    ensures crashed ==> attempts == 1 && restartAlerts == 0 && deadAlerts == 0
    ensures started && !crashed ==> attempts == CyclesRun(cycles, 0)
    ensures started && !crashed ==> restartAlerts == attempts - 1
    ensures started && !crashed ==> attempts >= 1 && deadAlerts == DeadAlertCount(cycles, attempts)
    ensures started && !crashed ==> LoadText(old(store.times), FileText(old(store.file))) == Ok(store.times)
    ensures started && !crashed ==> store.names == LoadedNames(old(store.names), SplitLines(FileText(old(store.file))))
  {
    started := dev || !runningFile;
    if !started {
      return false, false, 0, 0, 0;
    }
    crashed, attempts, restartAlerts, deadAlerts := RestartLoop(cycles, store);
  }
}
