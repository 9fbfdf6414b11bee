/**
 One executor run of the reset card, in place; that it is one of the interleavings; and that repeated runs
 reconcile.
 */
module CardExecutor {
  import opened Common
  import opened CardSchedule

  /** A run that nothing interrupts. */
  function Alone(s: Shared, run: nat, x: Executor): (Shared, Pc)
    decreases x.pc.Rank()
  {
    if x.pc.Halt? then (s, x.pc) else
      var (t, pc) := Step(s, run, x);
      Alone(t, run, x.(pc := pc))
  }

  lemma {:induction false} AloneStep(s: Shared, run: nat, x: Executor)
    requires !x.pc.Halt?
    ensures Alone(s, run, x) == Alone(Step(s, run, x).0, run, x.(pc := Step(s, run, x).1))
  {
  }

  function Gos(run: nat, k: nat): seq<Action> {
    if k == 0 then [] else Gos(run, k - 1) + [Go(run)]
  }

  lemma {:induction false} GosFirst(w: World, run: nat, k: nat)
    requires k > 0
    ensures Run(w, Gos(run, k)) == Run(Act(w, Go(run)), Gos(run, k - 1))
  {
    assert (Gos(run, k - 1) + [Go(run)])[..|Gos(run, k - 1)|] == Gos(run, k - 1);
    if k > 1 {
      GosFirst(w, run, k - 1);
      assert (Gos(run, k - 2) + [Go(run)])[..|Gos(run, k - 2)|] == Gos(run, k - 2);
    } else {
      assert Gos(run, 0) == [] && Gos(run, 1) == [Go(run)];
      assert Run(w, []) == w && Run(Act(w, Go(run)), []) == Act(w, Go(run));
      assert [Go(run)][..0] == [];
    }
  }

  /** An uninterrupted run is one of the interleavings, so every result about those holds of it. */
  lemma {:induction false} AloneIsAnInterleaving(s: Shared, runs: map<nat, Executor>, run: nat, x: Executor, k: nat)
    requires k >= x.pc.Rank()
    ensures var (t, pc) := Alone(s, run, x);
            Run(World(s, runs[run := x]), Gos(run, k)) == World(t, runs[run := x.(pc := pc)])
    decreases k
  {
    if k > 0 {
      var (t, pc) := Step(s, run, x);
      GosFirst(World(s, runs[run := x]), run, k);
      GoMoves(s, runs, run, x);
      RankFalls(s, run, x);
      AloneIsAnInterleaving(t, runs, run, x.(pc := pc), k - 1);
    }
  }

  /** Each step comes closer to the end, and a finished run stays where it is. */
  lemma {:induction false} RankFalls(s: Shared, run: nat, x: Executor)
    ensures var (t, pc) := Step(s, run, x);
            && (!x.pc.Halt? ==> pc.Rank() < x.pc.Rank())
            && (x.pc.Halt? ==> (t, pc) == (s, x.pc))
            && Alone(t, run, x.(pc := pc)) == Alone(s, run, x)
  {
    if x.pc.Halt? {
      assert x.(pc := x.pc) == x;
    } else {
      AloneStep(s, run, x);
    }
  }

  lemma {:induction false} GoMoves(s: Shared, runs: map<nat, Executor>, run: nat, x: Executor)
    ensures var (t, pc) := Step(s, run, x);
            Act(World(s, runs[run := x]), Go(run)) == World(t, runs[run := x.(pc := pc)])
  {
    var (t, pc) := Step(s, run, x);
    assert runs[run := x][run := x.(pc := pc)] == runs[run := x.(pc := pc)];
  }

  // ----- the run in place -----

  class JobTable {
    var jobs: map<int, Job>

    constructor ()
      ensures jobs == map[]
    {
      jobs := map[];
    }

    /** INSERT OR IGNORE and commit: whether this run inserted the row. */
    method ClaimJob(id: int) returns (inserted: bool)
      modifies this
      ensures inserted <==> id !in old(jobs)
      ensures jobs == if inserted then old(jobs)[id := Job(Claimed, Unknown)] else old(jobs)
    {
      inserted := id !in jobs;
      if inserted {
        jobs := jobs[id := Job(Claimed, Unknown)];
      }
    }
  }

  class PluginHost {
    var config: PluginConfig
    ghost var log: seq<Entry>

    constructor (initial: PluginConfig)
      ensures config == initial && log == []
    {
      config, log := initial, [];
    }
  }

  ghost function SharedOf(table: JobTable, host: PluginHost): Shared
    reads table, host
  {
    Shared(table.jobs, host.config, host.log)
  }

  /** `update_result`: None when it raised, otherwise whether the host still holds the task. */
  method UpdateResult(host: PluginHost, run: nat, task: Schedule, note: Note, readFails: bool, fate: PutFate)
    returns (held: Option<bool>)
    modifies host
    ensures readFails || !Holds(old(host.config), task) || ShowsClosed(old(host.config), note) ==> unchanged(host)
    ensures !readFails && Holds(old(host.config), task) && !ShowsClosed(old(host.config), note) ==>
      && host.log == old(host.log) + [PutBy(run, task, note, old(host.config), Closed(old(host.config), note))]
      && host.config == if fate.NotLanded? then old(host.config) else Closed(old(host.config), note)
    ensures held ==
      if readFails then None
      else if !Holds(old(host.config), task) then Some(false)
      else if ShowsClosed(old(host.config), note) || fate.Landed? then Some(true)
      else None
  {
    if readFails {
      return None;
    }
    var latest := host.config;
    if latest.schedule.None? || !SameTask(latest.schedule.value, task) {
      return Some(false);
    }
    var current := latest.schedule.value;
    if !current.enabled && current.note == note {
      return Some(true);
    }
    var body := latest.(schedule := Some(current.(enabled := false, note := note)));
    host.log := host.log + [PutBy(run, task, note, latest, body)];
    if !fate.NotLanded? {
      host.config := body;
    }
    return if fate.Landed? then Some(true) else None;
  }

  /** Closing the switch: None when the task is seen or made closed, otherwise the outcome to record. */
  method CloseSwitch(table: JobTable, host: PluginHost, run: nat, x: Executor)
    returns (outcome: Option<(JobStatus, Note)>)
    requires x.pc.CloseRead?
    modifies host
    ensures Alone(old(SharedOf(table, host)), run, x)
      == Alone(SharedOf(table, host), run,
               x.(pc := if outcome.None? then Check(x.pc.dry) else Record(outcome.value.0, outcome.value.1)))
  {
    ghost var s := SharedOf(table, host);
    var held := UpdateResult(host, run, x.task, Unknown, x.faults.closeReadFails, x.faults.closePut);
    AloneStep(s, run, x);
    if !x.faults.closeReadFails && Holds(s.config, x.task) && !ShowsClosed(s.config, Unknown) {
      AloneStep(s, run, x.(pc := ClosePut(x.pc.dry, s.config)));
    }
    match held {
      case None => outcome := Some((UnknownJob, Unknown));
      case Some(false) => outcome := Some((SkippedJob, Replaced));
      case Some(true) =>
        host.log := host.log + [ClosedBy(run, x.task.id)];
        outcome := None;
    }
  }

  /** The re-checks and the POST. */
  method CheckAndSpend(table: JobTable, host: PluginHost, run: nat, x: Executor) returns (status: JobStatus, note: Note)
    requires x.pc.Check?
    modifies host
    ensures Alone(old(SharedOf(table, host)), run, x)
         == Alone(SharedOf(table, host), run, x.(pc := Record(status, note)))
  {
    var f := x.faults;
    AloneStep(SharedOf(table, host), run, x);
    if Verdict(x, x.pc.dry).Spend? {
      AloneStep(SharedOf(table, host), run, x.(pc := Spend));
    }
    status, note := SkippedJob, NoNote;
    if x.now - x.task.runAt > GRACE {
      note := Late;
    } else if x.now >= x.task.creditExpiresAt {
      note := CardExpired;
    } else if x.pc.dry {
      status, note := DryRunJob, Rehearsed;
    } else if f.account.AccountFails? || f.account.NotOAuth? {
      status, note := UnknownJob, Unknown;
    } else if f.account.AutoReset? {
      note := AutoResetOn;
    } else if f.credits.None? {
      status, note := UnknownJob, Unknown;
    } else if x.task.creditExpiresAt !in f.credits.value.0 || f.credits.value.1 < 1 {
      note := CardGone;
    } else {
      host.log := host.log + [PostedBy(run, x.task.id, f.reply.Reported?)];
      if f.reply.Reported? {
        status, note := SuccessJob, if f.reply.warning then UsedWithWarning else Used;
      } else {
        status, note := UnknownJob, Unknown;
      }
    }
  }

  /** Everything between the claim and the outcome still to be recorded. */
  method CloseAndSpend(table: JobTable, host: PluginHost, run: nat, x: Executor) returns (status: JobStatus, note: Note)
    requires x.pc.CloseRead?
    modifies host
    ensures Alone(old(SharedOf(table, host)), run, x)
         == Alone(SharedOf(table, host), run, x.(pc := Record(status, note)))
  {
    var outcome := CloseSwitch(table, host, run, x);
    if outcome.Some? {
      return outcome.value.0, outcome.value.1;
    }
    status, note := CheckAndSpend(table, host, run, x.(pc := Check(x.pc.dry)));
  }

  /** The last `update_result` of a run. */
  method Sync(table: JobTable, host: PluginHost, run: nat, x: Executor) returns (ret: Return)
    requires x.pc.SyncRead?
    modifies host
    ensures (SharedOf(table, host), Halt(ret)) == Alone(old(SharedOf(table, host)), run, x)
  {
    ghost var s := SharedOf(table, host);
    var held := UpdateResult(host, run, x.task, x.pc.note, x.faults.finalReadFails, x.faults.finalPut);
    ghost var (t, pc) := Step(s, run, x);
    AloneStep(s, run, x);
    if pc.SyncPut? {
      AloneStep(t, run, x.(pc := pc));
    }
    return if held.None? then Error else Reports(x.pc.status);
  }

  /** `_process_schedule`; `file` is the schedule in the saved configuration file. */
  method ProcessSchedule(table: JobTable, host: PluginHost, run: nat, file: Option<Schedule>, now: int, f: CardFaults)
    returns (ret: Return)
    modifies table, host
    ensures file.None? ==> ret == Disabled && unchanged(table) && unchanged(host)
    ensures file.Some? ==>
      (SharedOf(table, host), Halt(ret)) == Alone(old(SharedOf(table, host)), run, Executor(file.value, now, f, Start))
  {
    if file.None? {
      return Disabled;
    }
    var task := file.value;
    var x := Executor(task, now, f, Start);
    ghost var s := SharedOf(table, host);
    if !ValidSchedule(task) {
      return Error;
    }
    if task.enabled && task.runAt > now {
      return Waiting;
    }
    AloneStep(s, run, x);
    AloneStep(s, run, x.(pc := Find));
    if task.id in table.jobs {
      var row := table.jobs[task.id];
      var note := if row.status == Claimed then Unknown else row.note;
      if !task.enabled && task.note == note {
        return Reports(row.status);
      }
      ret := Sync(table, host, run, x.(pc := SyncRead(row.status, note)));
      return;
    }
    if !task.enabled {
      return Disabled;
    }
    ret := ClaimAndRun(table, host, run, x.(pc := Reread));
  }

  method ClaimAndRun(table: JobTable, host: PluginHost, run: nat, x: Executor) returns (ret: Return)
    requires x.pc.Reread?
    modifies table, host
    ensures (SharedOf(table, host), Halt(ret)) == Alone(old(SharedOf(table, host)), run, x)
  {
    ghost var s := SharedOf(table, host);
    if x.faults.readFails {
      return Error;
    }
    var latest := host.config;
    if latest.schedule.None? || !latest.schedule.value.enabled || !SameTask(latest.schedule.value, x.task) {
      return Cancelled;
    }
    AloneStep(s, run, x);
    AloneStep(s, run, x.(pc := Claim(latest.dryRun)));
    var inserted := table.ClaimJob(x.task.id);
    if !inserted {
      return Reports(Claimed);
    }
    host.log := host.log + [ClaimedBy(run, x.task.id)];
    assert Alone(s, run, x) == Alone(SharedOf(table, host), run, x.(pc := CloseRead(latest.dryRun)));
    var status, note := CloseAndSpend(table, host, run, x.(pc := CloseRead(latest.dryRun)));
    AloneStep(SharedOf(table, host), run, x.(pc := Record(status, note)));
    table.jobs := table.jobs[x.task.id := Job(status, note)];
    ret := Sync(table, host, run, x.(pc := SyncRead(status, note)));
  }

  // ----- reconciliation -----

  predicate Undisturbed(f: CardFaults) {
    !f.finalReadFails && f.finalPut.Landed?
  }

  function RowNote(j: Job): Note {
    if j.status == Claimed then Unknown else j.note
  }

  /** The run goes on to `update_result`: it is not early, and the file does not already show the result. */
  predicate Reconciles(file: Schedule, note: Note, now: int) {
    ValidSchedule(file) && !(file.enabled && file.runAt > now) && (file.enabled || file.note != note)
  }

  /**
   With a job row and the file's task in the host's configuration, whatever switch and result each of
   them shows, one undisturbed run leaves the host showing the task closed with the row's result if and
   only if it already did or the file says otherwise and is not early; it touches nothing else.
   */
  lemma {:induction false} ReconciliationConverges(s: Shared, run: nat, file: Schedule, now: int, f: CardFaults)
    requires file.id in s.jobs && Holds(s.config, file) && Undisturbed(f)
    ensures var note := RowNote(s.jobs[file.id]);
            var (t, pc) := Alone(s, run, Executor(file, now, f, Start));
            && t.jobs == s.jobs
            && (Reconciles(file, note, now) ==> pc == Halt(Reports(s.jobs[file.id].status)))
            && (ShowsClosed(t.config, note) <==> ShowsClosed(s.config, note) || Reconciles(file, note, now))
            && t.config == (if Reconciles(file, note, now) then Closed(s.config, note) else s.config)
  {
    var x := Executor(file, now, f, Start);
    var note := RowNote(s.jobs[file.id]);
    var status := s.jobs[file.id].status;
    if Reconciles(file, note, now) {
      AloneStep(s, run, x);
      AloneStep(s, run, x.(pc := Find));
      AloneStep(s, run, x.(pc := SyncRead(status, note)));
      if ShowsClosed(s.config, note) {
        assert Closed(s.config, note) == s.config;
      } else {
        AloneStep(s, run, x.(pc := SyncPut(status, note, s.config)));
      }
    } else {
      NoReconciliation(s, run, file, now, f);
    }
  }

  /** A run that does not get to `update_result` changes nothing, whatever fails. */
  lemma {:induction false} NoReconciliation(s: Shared, run: nat, file: Schedule, now: int, f: CardFaults)
    requires file.id in s.jobs && !Reconciles(file, RowNote(s.jobs[file.id]), now)
    ensures Alone(s, run, Executor(file, now, f, Start)).0 == s
  {
    var x := Executor(file, now, f, Start);
    AloneStep(s, run, x);
    if ValidSchedule(file) && !(file.enabled && file.runAt > now) {
      AloneStep(s, run, x.(pc := Find));
    }
  }

  /**
   Once the host shows the task closed with the row's result, no run of that task writes anything, with
   any clock and any faults, whether the file it reads is still the old one or already the host's.
   */
  lemma {:induction false} ReconciledStays(s: Shared, run: nat, file: Schedule, now: int, f: CardFaults)
    requires file.id in s.jobs && Holds(s.config, file) && ShowsClosed(s.config, RowNote(s.jobs[file.id]))
    ensures Alone(s, run, Executor(file, now, f, Start)).0 == s
    ensures Alone(s, run, Executor(s.config.schedule.value, now, f, Start)).0 == s
  {
    var note := RowNote(s.jobs[file.id]);
    var x := Executor(file, now, f, Start);
    NoReconciliation(s, run, s.config.schedule.value, now, f);
    if Reconciles(file, note, now) {
      AloneStep(s, run, x);
      AloneStep(s, run, x.(pc := Find));
      AloneStep(s, run, x.(pc := SyncRead(s.jobs[file.id].status, note)));
    } else {
      NoReconciliation(s, run, file, now, f);
    }
  }

  /** One undisturbed run that converges, and after it a second run of either file: only the first one writes. */
  lemma {:induction false} SecondRunWritesNothing(s: Shared, run: nat, again: nat, file: Schedule, now: int,
                                                  later: int, f: CardFaults, g: CardFaults)
    requires file.id in s.jobs && Holds(s.config, file) && Undisturbed(f)
    requires ShowsClosed(s.config, RowNote(s.jobs[file.id])) || Reconciles(file, RowNote(s.jobs[file.id]), now)
    ensures var t := Alone(s, run, Executor(file, now, f, Start)).0;
            && t.config.schedule.Some?
            && Alone(t, again, Executor(file, later, g, Start)).0 == t
            && Alone(t, again, Executor(t.config.schedule.value, later, g, Start)).0 == t
  {
    ReconciliationConverges(s, run, file, now, f);
    var t := Alone(s, run, Executor(file, now, f, Start)).0;
    ReconciledStays(t, again, file, later, g);
  }

  /** A file that shows the row's result hides a host that is still open: no run of it ever closes the host. */
  lemma {:induction false} ClosedFileHidesOpenHost(s: Shared, run: nat, file: Schedule, now: int, f: CardFaults)
    requires file.id in s.jobs && Holds(s.config, file) && s.config.schedule.value.enabled
    requires !file.enabled && file.note == RowNote(s.jobs[file.id])
    ensures var t := Alone(s, run, Executor(file, now, f, Start)).0;
            t == s && !ShowsClosed(t.config, RowNote(s.jobs[file.id]))
  {
    NoReconciliation(s, run, file, now, f);
  }
}
