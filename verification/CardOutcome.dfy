/**
 What an uninterrupted run of the reset card comes to: exactly when it spends the card, what it records,
 returns and leaves in the host's configuration. All of it is said over the fields of the task, of that
 configuration and of the answers the run gets.
 */
module CardOutcome {
  import opened Common
  import opened CardSchedule
  import opened CardExecutor

  /** The configuration carries this very task. */
  predicate Names(c: PluginConfig, task: Schedule) {
    && c.schedule.Some?
    && c.schedule.value.id == task.id && c.schedule.value.accountId == task.accountId
    && c.schedule.value.runAt == task.runAt && c.schedule.value.creditExpiresAt == task.creditExpiresAt
  }

  function Showing(c: PluginConfig, note: Note): PluginConfig
    requires c.schedule.Some?
  {
    c.(schedule := Some(c.schedule.value.(enabled := false, note := note)))
  }

  /** The task of the file is well formed. */
  predicate Proper(task: Schedule) {
    task.accountId > 0 && task.runAt < task.creditExpiresAt
  }

  /** A run of a task without a job row claims it. */
  predicate Takes(c: PluginConfig, task: Schedule, now: int, f: CardFaults) {
    && Proper(task) && task.enabled && task.runAt <= now
    && !f.readFails && Names(c, task) && c.schedule.value.enabled
  }

  /** After the claim it sees its task closed, or its own PUT that closes it is answered. */
  predicate Closes(c: PluginConfig, task: Schedule, f: CardFaults) {
    && !f.closeReadFails && Names(c, task)
    && (f.closePut.Landed? || (!c.schedule.value.enabled && c.schedule.value.note == Unknown))
  }

  /** At most fifteen minutes late, and before the reserved card runs out. */
  predicate InTime(task: Schedule, now: int) {
    now <= task.runAt + 15 * MINUTE && now < task.creditExpiresAt
  }

  /** The reserved card is among the available ones. */
  predicate Listed(task: Schedule, f: CardFaults) {
    f.credits.Some? && task.creditExpiresAt in f.credits.value.0 && f.credits.value.1 >= 1
  }

  /** It is up to the account and its cards alone. */
  predicate UpToTheCard(c: PluginConfig, task: Schedule, now: int, f: CardFaults, dry: bool) {
    Closes(c, task, f) && InTime(task, now) && !dry
  }

  /** In time, no rehearsal, on a usable account, and the card is there. */
  predicate CardIsGood(task: Schedule, now: int, f: CardFaults, dry: bool) {
    InTime(task, now) && !dry && f.account.Usable? && Listed(task, f)
  }

  /** The card is spent. */
  predicate Spends(c: PluginConfig, task: Schedule, now: int, f: CardFaults, dry: bool) {
    Closes(c, task, f) && CardIsGood(task, now, f, dry)
  }

  /** What is recorded, each outcome with its exact cause. */
  predicate Records(j: Job, c: PluginConfig, task: Schedule, now: int, f: CardFaults, dry: bool) {
    var closes, due := Closes(c, task, f), UpToTheCard(c, task, now, f, dry);
    var spends := Spends(c, task, now, f, dry);
    && (j == Job(SkippedJob, Replaced) <==> !f.closeReadFails && !Names(c, task))
    && (j == Job(SkippedJob, Late) <==> closes && now > task.runAt + 15 * MINUTE)
    && (j == Job(SkippedJob, CardExpired) <==>
          closes && task.creditExpiresAt <= now <= task.runAt + 15 * MINUTE)
    && (j == Job(DryRunJob, Rehearsed) <==> closes && InTime(task, now) && dry)
    && (j == Job(SkippedJob, AutoResetOn) <==> due && f.account.AutoReset?)
    && (j == Job(SkippedJob, CardGone) <==> due && f.account.Usable? && f.credits.Some? && !Listed(task, f))
    && (j == Job(SuccessJob, Used) <==> spends && f.reply == Reported(false))
    && (j == Job(SuccessJob, UsedWithWarning) <==> spends && f.reply == Reported(true))
    && (j == Job(UnknownJob, Unknown) <==>
          || f.closeReadFails || (Names(c, task) && !closes)
          || (due && (f.account.AccountFails? || f.account.NotOAuth? || (f.account.Usable? && f.credits.None?)))
          || (spends && !f.reply.Reported?))
  }

  /** The host after the PUT that closes the switch, if it is made and lands. */
  function AfterClosing(c: PluginConfig, task: Schedule, f: CardFaults): PluginConfig {
    if !f.closeReadFails && Names(c, task) && !f.closePut.NotLanded? then Showing(c, Unknown) else c
  }

  /** The host after the last PUT of a run, if it is made and lands. */
  function AfterReport(c: PluginConfig, task: Schedule, f: CardFaults, note: Note): PluginConfig {
    if !f.finalReadFails && Names(c, task) && !f.finalPut.NotLanded? then Showing(c, note) else c
  }

  /** What the run returns: the status, unless the last read failed or the PUT it asked for was not answered. */
  predicate Answers(ret: Return, c: PluginConfig, task: Schedule, f: CardFaults, j: Job) {
    if f.finalReadFails || (Names(c, task) && c != Showing(c, j.note) && !f.finalPut.Landed?)
    then ret == Error
    else ret == Reports(j.status)
  }

  /** Between two logs one POST was added, for this task, or none. */
  ghost predicate PostsAdded(before: seq<Entry>, after: seq<Entry>, id: int, one: bool) {
    forall k :: Posts(after, k) == if one && k == id then Posts(before, k) + 1 else Posts(before, k)
  }

  lemma {:induction false} EntryAdded(log: seq<Entry>, e: Entry, id: int)
    requires e.PostedBy? ==> e.id == id
    ensures PostsAdded(log, log + [e], id, e.PostedBy?)
  {
    forall k {
      PostsAppend(log, e, k);
    }
  }

  /** From the claim to the checks, or to the outcome. */
  lemma {:induction false} Closing(s: Shared, run: nat, x: Executor) returns (t: Shared, pc: Pc)
    requires x.pc.CloseRead?
    ensures Alone(s, run, x) == Alone(t, run, x.(pc := pc))
    ensures t.jobs == s.jobs && t.config == AfterClosing(s.config, x.task, x.faults)
    ensures PostsAdded(s.log, t.log, x.task.id, false)
    ensures pc == if Closes(s.config, x.task, x.faults) then Check(x.pc.dry)
                  else if !x.faults.closeReadFails && !Names(s.config, x.task) then Record(SkippedJob, Replaced)
                  else Record(UnknownJob, Unknown)
  {
    AloneStep(s, run, x);
    var (t1, pc1) := Step(s, run, x);
    t, pc := t1, pc1;
    if pc1.Check? {
      EntryAdded(s.log, ClosedBy(run, x.task.id), x.task.id);
    } else if pc1.ClosePut? {
      AloneStep(s, run, x.(pc := pc1));
      var put := PutStep(s, run, x.task, Unknown, s.config, x.faults.closePut);
      EntryAdded(s.log, put.log[|s.log|], x.task.id);
      EntryAdded(put.log, ClosedBy(run, x.task.id), x.task.id);
      var (t2, pc2) := Step(s, run, x.(pc := pc1));
      t, pc := t2, pc2;
    }
  }

  /** What the checks decide, once the switch is closed. */
  predicate Decides(j: Job, x: Executor, dry: bool) {
    var f, inTime := x.faults, InTime(x.task, x.now);
    if !inTime then
      j == Job(SkippedJob, if x.now > x.task.runAt + 15 * MINUTE then Late else CardExpired)
    else if dry then j == Job(DryRunJob, Rehearsed)
    else if CardIsGood(x.task, x.now, f, dry) && f.reply.Reported?
    then j == Job(SuccessJob, if f.reply.warning then UsedWithWarning else Used)
    else if f.account.AutoReset? then j == Job(SkippedJob, AutoResetOn)
    else if f.account.Usable? && f.credits.Some? && !Listed(x.task, f) then j == Job(SkippedJob, CardGone)
    else j == Job(UnknownJob, Unknown)
  }

  lemma {:induction false} CausesAreExact(j: Job, c: PluginConfig, x: Executor, dry: bool)
    requires if Closes(c, x.task, x.faults) then Decides(j, x, dry)
             else if !x.faults.closeReadFails && !Names(c, x.task) then j == Job(SkippedJob, Replaced)
             else j == Job(UnknownJob, Unknown)
    ensures Records(j, c, x.task, x.now, x.faults, dry)
  {
  }

  /** From the checks to the outcome. */
  lemma {:induction false} Checking(s: Shared, run: nat, x: Executor) returns (t: Shared, j: Job)
    requires x.pc.Check?
    ensures Alone(s, run, x) == Alone(t, run, x.(pc := Record(j.status, j.note)))
    ensures t.jobs == s.jobs && t.config == s.config && Decides(j, x, x.pc.dry)
    ensures PostsAdded(s.log, t.log, x.task.id, CardIsGood(x.task, x.now, x.faults, x.pc.dry))
  {
    AloneStep(s, run, x);
    var (t1, pc1) := Step(s, run, x);
    if pc1.Spend? {
      AloneStep(s, run, x.(pc := Spend));
      var (t2, pc2) := Step(s, run, x.(pc := Spend));
      EntryAdded(s.log, PostedBy(run, x.task.id, x.faults.reply.Reported?), x.task.id);
      t, j := t2, Job(pc2.status, pc2.note);
    } else {
      t, j := t1, Job(pc1.status, pc1.note);
    }
  }

  /** The last update of the host. */
  lemma {:induction false} Reporting(s: Shared, run: nat, x: Executor)
    requires x.pc.SyncRead?
    ensures var (t, pc) := Alone(s, run, x);
            && t.jobs == s.jobs && t.config == AfterReport(s.config, x.task, x.faults, x.pc.note)
            && PostsAdded(s.log, t.log, x.task.id, false)
            && pc.Halt? && Answers(pc.ret, s.config, x.task, x.faults, Job(x.pc.status, x.pc.note))
  {
    AloneStep(s, run, x);
    var (t, pc) := Step(s, run, x);
    if pc.SyncPut? {
      AloneStep(t, run, x.(pc := pc));
      var put := PutStep(s, run, x.task, x.pc.note, s.config, x.faults.finalPut);
      EntryAdded(s.log, put.log[|s.log|], x.task.id);
    }
  }

  /** From the claim to the outcome. */
  lemma {:induction false} Deciding(s: Shared, run: nat, x: Executor) returns (t: Shared, j: Job)
    requires x.pc.CloseRead?
    ensures Alone(s, run, x) == Alone(t, run, x.(pc := Record(j.status, j.note)))
    ensures t.jobs == s.jobs && t.config == AfterClosing(s.config, x.task, x.faults)
    ensures Records(j, s.config, x.task, x.now, x.faults, x.pc.dry)
    ensures PostsAdded(s.log, t.log, x.task.id, Spends(s.config, x.task, x.now, x.faults, x.pc.dry))
  {
    var pc;
    t, pc := Closing(s, run, x);
    if pc.Check? {
      t, j := Checking(t, run, x.(pc := pc));
    } else {
      j := Job(pc.status, pc.note);
    }
    CausesAreExact(j, s.config, x, x.pc.dry);
  }

  /** The outcome is recorded, and the host updated with it. */
  lemma {:induction false} Recording(s: Shared, run: nat, x: Executor)
    requires x.pc.Record?
    ensures var (t, pc) := Alone(s, run, x);
            && t.jobs == s.jobs[x.task.id := Job(x.pc.status, x.pc.note)]
            && t.config == AfterReport(s.config, x.task, x.faults, x.pc.note)
            && PostsAdded(s.log, t.log, x.task.id, false)
            && pc.Halt? && Answers(pc.ret, s.config, x.task, x.faults, Job(x.pc.status, x.pc.note))
  {
    AloneStep(s, run, x);
    var s1 := s.(jobs := s.jobs[x.task.id := Job(x.pc.status, x.pc.note)]);
    Reporting(s1, run, x.(pc := SyncRead(x.pc.status, x.pc.note)));
  }

  /**
   A run that holds the claim, whatever the host's configuration is by then: it spends the card exactly
   when its switch is closed, it is in time and no rehearsal, the account is usable and the reserved card
   available; every other outcome has its own exact cause; and the host and the answer follow the last PUT.
   */
  lemma {:induction false} ClaimedRunOutcome(s: Shared, run: nat, x: Executor)
    requires x.pc.CloseRead?
    ensures var (t, pc) := Alone(s, run, x);
            var c, f, id := s.config, x.faults, x.task.id;
            var closed := AfterClosing(c, x.task, f);
            && id in t.jobs && t.jobs == s.jobs[id := t.jobs[id]]
            && Records(t.jobs[id], c, x.task, x.now, f, x.pc.dry)
            && PostsAdded(s.log, t.log, id, Spends(c, x.task, x.now, f, x.pc.dry))
            && t.config == AfterReport(closed, x.task, f, t.jobs[id].note)
            && pc.Halt? && Answers(pc.ret, closed, x.task, f, t.jobs[id])
  {
    var t, j := Deciding(s, run, x);
    Recording(t, run, x.(pc := Record(j.status, j.note)));
  }

  /** What a run returns that does not claim its task. */
  predicate Declines(ret: Return, task: Schedule, now: int, f: CardFaults) {
    && (ret == Waiting <==> Proper(task) && task.enabled && now < task.runAt)
    && (ret == Disabled <==> Proper(task) && !task.enabled)
    && (ret == Error <==> !Proper(task) || (task.enabled && task.runAt <= now && f.readFails))
    && (ret == Cancelled <==> Proper(task) && task.enabled && task.runAt <= now && !f.readFails)
  }

  /**
   The first run of a task, uninterrupted: it leaves everything alone and says why, or claims it, and then
   spends its card exactly under the conditions above, read from the host's configuration at its start.
   */
  lemma {:induction false} FirstRunOutcome(s: Shared, run: nat, file: Schedule, now: int, f: CardFaults)
    requires file.id !in s.jobs
    ensures var (t, pc) := Alone(s, run, Executor(file, now, f, Start));
            var c, id := s.config, file.id;
            var closed := AfterClosing(c, file, f);
            && pc.Halt?
            && PostsAdded(s.log, t.log, id, Takes(c, file, now, f) && Spends(c, file, now, f, c.dryRun))
            && if !Takes(c, file, now, f) then t == s && Declines(pc.ret, file, now, f)
               else
                 && id in t.jobs && t.jobs == s.jobs[id := t.jobs[id]]
                 && Records(t.jobs[id], c, file, now, f, c.dryRun)
                 && t.config == AfterReport(closed, file, f, t.jobs[id].note)
                 && Answers(pc.ret, closed, file, f, t.jobs[id])
  {
    var x := Executor(file, now, f, Start);
    AloneStep(s, run, x);
    if Proper(file) && !(file.enabled && file.runAt > now) {
      AloneStep(s, run, x.(pc := Find));
      if file.enabled {
        AloneStep(s, run, x.(pc := Reread));
        if Takes(s.config, file, now, f) {
          var dry := s.config.dryRun;
          AloneStep(s, run, x.(pc := Claim(dry)));
          var s1 := s.(jobs := s.jobs[file.id := Job(Claimed, Unknown)], log := s.log + [ClaimedBy(run, file.id)]);
          EntryAdded(s.log, ClaimedBy(run, file.id), file.id);
          ClaimedRunOutcome(s1, run, x.(pc := CloseRead(dry)));
          var t := Alone(s, run, x).0;
          assert t.jobs == s.jobs[file.id := t.jobs[file.id]];
        }
      }
    }
  }

  /** The run goes as far as updating the host with the row's result. */
  predicate Updates(task: Schedule, now: int, note: Note) {
    Proper(task) && (if task.enabled then task.runAt <= now else task.note != note)
  }

  /**
   Any later run of the task, uninterrupted: rows and POSTs stay, and the host is made to show the row's
   result, or unknown for a row still claimed, exactly when the file does not show it already, the task is not
   early, the host still holds it, and read and PUT get through.
   */
  lemma {:induction false} LaterRunOutcome(s: Shared, run: nat, file: Schedule, now: int, f: CardFaults)
    requires file.id in s.jobs
    ensures var (t, pc) := Alone(s, run, Executor(file, now, f, Start));
            var j := s.jobs[file.id];
            var note := if j.status == Claimed then Unknown else j.note;
            && t.jobs == s.jobs
            && PostsAdded(s.log, t.log, file.id, false)
            && t.config == (if Updates(file, now, note) then AfterReport(s.config, file, f, note) else s.config)
            && pc.Halt?
            && (Updates(file, now, note) ==> Answers(pc.ret, s.config, file, f, Job(j.status, note)))
            && (!Updates(file, now, note) ==>
                  pc.ret == if !Proper(file) then Error else if file.enabled then Waiting else Reports(j.status))
  {
    var x := Executor(file, now, f, Start);
    var j := s.jobs[file.id];
    var note := if j.status == Claimed then Unknown else j.note;
    AloneStep(s, run, x);
    if Proper(file) && !(file.enabled && file.runAt > now) {
      AloneStep(s, run, x.(pc := Find));
      if Updates(file, now, note) {
        Reporting(s, run, x.(pc := SyncRead(j.status, note)));
      }
    }
  }

  // ----- in every reachable world -----

  /** A run launched by itself, to its end. */
  function AloneTrace(run: nat, file: Schedule, now: int, f: CardFaults): seq<Action> {
    [Launch(run, file, now, f)] + Gos(run, 11)
  }

  lemma {:induction false} RunConcat(w: World, a: seq<Action>, b: seq<Action>)
    ensures Run(w, a + b) == Run(Run(w, a), b)
  {
    if b == [] {
      assert a + b == a;
    } else {
      assert (a + b)[..|a + b| - 1] == a + b[..|b| - 1];
      RunConcat(w, a, b[..|b| - 1]);
    }
  }

  lemma {:induction false} LaunchedAlone(w: World, run: nat, file: Schedule, now: int, f: CardFaults)
    requires run !in w.runs
    ensures Run(w, AloneTrace(run, file, now, f)).shared == Alone(w.shared, run, Executor(file, now, f, Start)).0
  {
    var x := Executor(file, now, f, Start);
    RunConcat(w, [Launch(run, file, now, f)], Gos(run, 11));
    assert [Launch(run, file, now, f)][..0] == [];
    AloneIsAnInterleaving(w.shared, w.runs, run, x, 11);
  }

  /**
   Whatever ran, crashed or was saved before: an uninterrupted run of a task without a job row leaves exactly
   one POST for it on record if and only if it was due in every respect, and none otherwise; and nothing that
   follows, in any interleaving, adds another.
   */
  lemma {:induction false} DueCardIsSpentOnce(config: PluginConfig, before: seq<Action>, run: nat, file: Schedule,
                                              now: int, f: CardFaults, after: seq<Action>)
    requires var w := Run(Fresh(config), before); run !in w.runs && file.id !in w.shared.jobs
    ensures var w := Run(Fresh(config), before);
            var c := w.shared.config;
            var done := Run(Fresh(config), before + AloneTrace(run, file, now, f));
            var later := Run(Fresh(config), before + AloneTrace(run, file, now, f) + after);
            && Posts(done.shared.log, file.id)
                 == (if Takes(c, file, now, f) && Spends(c, file, now, f, c.dryRun) then 1 else 0)
            && (Takes(c, file, now, f) ==> Posts(later.shared.log, file.id) == Posts(done.shared.log, file.id))
  {
    var w := Run(Fresh(config), before);
    var mine := AloneTrace(run, file, now, f);
    RunConcat(Fresh(config), before, mine);
    LaunchedAlone(w, run, file, now, f);
    FirstRunOutcome(w.shared, run, file, now, f);
    RunKeepsInv(config, before);
    if Takes(w.shared.config, file, now, f) {
      FinishedTaskNeverPostsAgain(config, before + mine, after, file.id);
    }
  }
}
