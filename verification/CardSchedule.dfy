/**
 The one-shot reset card (`reset_card_schedule.py`): one executor run as steps, any number of runs
 interleaved with each other, with crashes and with user saves, and what no interleaving can break.
 Task ids are opaque; the Chinese result texts are the constructors of `Note`.
 */
module CardSchedule {
  import opened Common

  datatype Note =
    | NoNote | Unknown | Replaced | Late | CardExpired | Rehearsed | AutoResetOn | CardGone | Used | UsedWithWarning

  datatype Schedule = Schedule(id: int, accountId: int, runAt: int, creditExpiresAt: int, enabled: bool, note: Note)

  /** `other` stands for every setting this protocol does not read. */
  datatype PluginConfig = PluginConfig(schedule: Option<Schedule>, dryRun: bool, other: int)

  datatype JobStatus = Claimed | SkippedJob | DryRunJob | SuccessJob | UnknownJob

  datatype Job = Job(status: JobStatus, note: Note)

  const GRACE := 15 * MINUTE

  predicate SameTask(a: Schedule, b: Schedule) {
    a.id == b.id && a.accountId == b.accountId && a.runAt == b.runAt && a.creditExpiresAt == b.creditExpiresAt
  }

  /** `validate_schedule`, id syntax aside. */
  predicate ValidSchedule(s: Schedule) {
    s.accountId > 0 && s.runAt < s.creditExpiresAt
  }

  function Closed(c: PluginConfig, note: Note): PluginConfig {
    match c.schedule
    case None => c
    case Some(s) => c.(schedule := Some(s.(enabled := false, note := note)))
  }

  predicate ShowsClosed(c: PluginConfig, note: Note) {
    c.schedule.Some? && !c.schedule.value.enabled && c.schedule.value.note == note
  }

  predicate Holds(c: PluginConfig, task: Schedule) {
    c.schedule.Some? && SameTask(c.schedule.value, task)
  }

  /** A PUT that landed, landed with its reply lost, or never landed. */
  datatype PutFate = Landed | LandedReplyLost | NotLanded

  datatype AccountAnswer = AccountFails | NotOAuth | AutoReset | Usable

  datatype SpendReply = Reported(warning: bool) | Malformed | Raised

  /** What the outside world answers during one run. */
  datatype CardFaults = CardFaults(
    readFails: bool,
    closeReadFails: bool,
    closePut: PutFate,
    account: AccountAnswer,
    credits: Option<(seq<int>, int)>,
    reply: SpendReply,
    finalReadFails: bool,
    finalPut: PutFate)

  datatype Return = Disabled | Waiting | Error | Cancelled | Reports(status: JobStatus)

  datatype Pc =
    | Start
    | Find
    | SyncRead(status: JobStatus, note: Note)
    | SyncPut(status: JobStatus, note: Note, read: PluginConfig)
    | Reread
    | Claim(dry: bool)
    | CloseRead(dry: bool)
    | ClosePut(dry: bool, read: PluginConfig)
    | Check(dry: bool)
    | Spend
    | Record(status: JobStatus, note: Note)
    | Halt(ret: Return)
  {
    function Rank(): nat {
      match this
      case Start => 11 case Find => 10 case Reread => 9 case Claim(_) => 8 case CloseRead(_) => 7
      case ClosePut(_, _) => 6 case Check(_) => 5 case Spend => 4 case Record(_, _) => 3
      case SyncRead(_, _) => 2 case SyncPut(_, _, _) => 1 case Halt(_) => 0
    }

    /** Between winning the insert and recording the outcome. */
    predicate Owns() { CloseRead? || ClosePut? || Check? || Spend? || Record? }

    predicate MayStillPost() { CloseRead? || ClosePut? || Check? || Spend? }
  }

  /** `task` is the schedule the run read from the saved file, `now` its clock. */
  datatype Executor = Executor(task: Schedule, now: int, faults: CardFaults, pc: Pc)

  datatype Entry =
    | ClaimedBy(run: nat, id: int)
    | ClosedBy(run: nat, id: int)
    | PostedBy(run: nat, id: int, reported: bool)
    | PutBy(run: nat, task: Schedule, note: Note, read: PluginConfig, body: PluginConfig)

  /** The durable jobs table, the host's plugin configuration, and everything issued so far. */
  datatype Shared = Shared(jobs: map<int, Job>, config: PluginConfig, log: seq<Entry>)

  function PutStep(s: Shared, run: nat, task: Schedule, note: Note, read: PluginConfig, fate: PutFate): Shared {
    s.(config := if fate.NotLanded? then s.config else Closed(read, note),
       log := s.log + [PutBy(run, task, note, read, Closed(read, note))])
  }

  /** The checks between closing the switch and the POST. */
  function Verdict(x: Executor, dry: bool): Pc {
    if x.now - x.task.runAt > GRACE then Record(SkippedJob, Late)
    else if x.now >= x.task.creditExpiresAt then Record(SkippedJob, CardExpired)
    else if dry then Record(DryRunJob, Rehearsed)
    else match x.faults.account
      case AccountFails | NotOAuth => Record(UnknownJob, Unknown)
      case AutoReset => Record(SkippedJob, AutoResetOn)
      case Usable =>
        if x.faults.credits.None? then Record(UnknownJob, Unknown)
        else if x.task.creditExpiresAt !in x.faults.credits.value.0 || x.faults.credits.value.1 < 1
        then Record(SkippedJob, CardGone)
        else Spend
  }

  function Spent(reply: SpendReply): Pc {
    match reply
    case Reported(warning) => Record(SuccessJob, if warning then UsedWithWarning else Used)
    case Malformed | Raised => Record(UnknownJob, Unknown)
  }

  function Step(s: Shared, run: nat, x: Executor): (Shared, Pc) {
    var id := x.task.id;
    match x.pc
    case Start =>
      (s, if !ValidSchedule(x.task) then Halt(Error)
          else if x.task.enabled && x.task.runAt > x.now then Halt(Waiting) else Find)
    case Find =>
      if id in s.jobs then
        var note := if s.jobs[id].status == Claimed then Unknown else s.jobs[id].note;
        (s, if !x.task.enabled && x.task.note == note then Halt(Reports(s.jobs[id].status))
            else SyncRead(s.jobs[id].status, note))
      else (s, if x.task.enabled then Reread else Halt(Disabled))
    case SyncRead(status, note) =>
      (s, if x.faults.finalReadFails then Halt(Error)
          else if !Holds(s.config, x.task) || ShowsClosed(s.config, note) then Halt(Reports(status))
          else SyncPut(status, note, s.config))
    case SyncPut(status, note, read) =>
      (PutStep(s, run, x.task, note, read, x.faults.finalPut),
       if x.faults.finalPut.Landed? then Halt(Reports(status)) else Halt(Error))
    case Reread =>
      (s, if x.faults.readFails then Halt(Error)
          else if !Holds(s.config, x.task) || !s.config.schedule.value.enabled then Halt(Cancelled)
          else Claim(s.config.dryRun))
    case Claim(dry) =>
      if id in s.jobs then (s, Halt(Reports(Claimed)))
      else (s.(jobs := s.jobs[id := Job(Claimed, Unknown)], log := s.log + [ClaimedBy(run, id)]), CloseRead(dry))
    case CloseRead(dry) =>
      if x.faults.closeReadFails then (s, Record(UnknownJob, Unknown))
      else if !Holds(s.config, x.task) then (s, Record(SkippedJob, Replaced))
      else if ShowsClosed(s.config, Unknown) then (s.(log := s.log + [ClosedBy(run, id)]), Check(dry))
      else (s, ClosePut(dry, s.config))
    case ClosePut(dry, read) =>
      var t := PutStep(s, run, x.task, Unknown, read, x.faults.closePut);
      if x.faults.closePut.Landed? then (t.(log := t.log + [ClosedBy(run, id)]), Check(dry))
      else (t, Record(UnknownJob, Unknown))
    case Check(dry) => (s, Verdict(x, dry))
    case Spend => (s.(log := s.log + [PostedBy(run, id, x.faults.reply.Reported?)]), Spent(x.faults.reply))
    case Record(status, note) => (s.(jobs := s.jobs[id := Job(status, note)]), SyncRead(status, note))
    case Halt(_) => (s, x.pc)
  }

  // ----- interleavings -----

  datatype World = World(shared: Shared, runs: map<nat, Executor>)

  datatype Action =
    | Launch(run: nat, task: Schedule, now: int, faults: CardFaults)
    | Go(run: nat)
    | Die(run: nat)
    | Save(config: PluginConfig)

  function Moved(w: World, run: nat): World
    requires run in w.runs
  {
    var (s, pc) := Step(w.shared, run, w.runs[run]);
    World(s, w.runs[run := w.runs[run].(pc := pc)])
  }

  /** Save is any change of the host configuration by anyone else, gated or not. */
  function Act(w: World, a: Action): World {
    match a
    case Launch(run, task, now, faults) =>
      if run in w.runs then w else w.(runs := w.runs[run := Executor(task, now, faults, Start)])
    case Go(run) => if run in w.runs then Moved(w, run) else w
    case Die(run) => if run in w.runs then w.(runs := w.runs[run := w.runs[run].(pc := Halt(Error))]) else w
    case Save(config) => w.(shared := w.shared.(config := config))
  }

  function Run(w: World, trace: seq<Action>): World {
    if trace == [] then w else Act(Run(w, trace[..|trace| - 1]), trace[|trace| - 1])
  }

  function Fresh(config: PluginConfig): World {
    World(Shared(map[], config, []), map[])
  }

  /** The POSTs issued for a task id. */
  function Posts(log: seq<Entry>, id: int): nat {
    if log == [] then 0 else
      var last := log[|log| - 1];
      Posts(log[..|log| - 1], id) + if last.PostedBy? && last.id == id then 1 else 0
  }

  ghost predicate ReportedPost(log: seq<Entry>, id: int) {
    exists k :: 0 <= k < |log| && log[k].PostedBy? && log[k].id == id && log[k].reported
  }

  /** Before position k the run claimed the task durably, and after that saw or made it closed. */
  ghost predicate ClaimedThenClosed(log: seq<Entry>, run: nat, id: int, k: int) {
    exists i, j :: 0 <= i < j < k <= |log| && log[i] == ClaimedBy(run, id) && log[j] == ClosedBy(run, id)
  }

  /** What a status says about the POSTs of its task. */
  ghost predicate Truthful(status: JobStatus, log: seq<Entry>, id: int) {
    && (status == SkippedJob || status == DryRunJob ==> Posts(log, id) == 0)
    && (status == SuccessJob ==> Posts(log, id) == 1 && ReportedPost(log, id))
  }

  ghost predicate RunOk(s: Shared, run: nat, x: Executor) {
    var id := x.task.id;
    && (x.pc.Owns() ==> id in s.jobs && s.jobs[id].status == Claimed && ClaimedBy(run, id) in s.log)
    && (x.pc.MayStillPost() ==> Posts(s.log, id) == 0)
    && (x.pc.Record? ==> x.pc.status != Claimed && Truthful(x.pc.status, s.log, id))
    && (x.pc.Check? || x.pc.Spend? ==> ClaimedThenClosed(s.log, run, id, |s.log|))
    && (x.pc.ClosePut? ==> Holds(x.pc.read, x.task))
    && (x.pc.SyncPut? ==> Holds(x.pc.read, x.task))
  }

  ghost predicate LogOk(s: Shared) {
    && (forall k | 0 <= k < |s.log| && s.log[k].PostedBy? :: ClaimedThenClosed(s.log, s.log[k].run, s.log[k].id, k))
    && (forall k | 0 <= k < |s.log| && s.log[k].ClaimedBy? :: s.log[k].id in s.jobs)
    && (forall i, j | 0 <= i < |s.log| && 0 <= j < |s.log| && s.log[i].ClaimedBy? && s.log[j].ClaimedBy?
          && s.log[i].id == s.log[j].id :: s.log[i].run == s.log[j].run)
    && (forall k | 0 <= k < |s.log| && s.log[k].PutBy? ::
          Holds(s.log[k].read, s.log[k].task) && s.log[k].body == Closed(s.log[k].read, s.log[k].note))
  }

  ghost predicate JobsOk(s: Shared) {
    && (forall id | Posts(s.log, id) > 0 :: Posts(s.log, id) == 1 && id in s.jobs)
    && (forall id | id in s.jobs :: Truthful(s.jobs[id].status, s.log, id))
  }

  ghost predicate Inv(w: World) {
    && LogOk(w.shared) && JobsOk(w.shared)
    && RunsOk(w.shared, w.runs) && OneOwner(w.runs)
  }

  ghost predicate RunsOk(s: Shared, runs: map<nat, Executor>) {
    forall run | run in runs :: RunOk(s, run, runs[run])
  }

  /** Two runs between claim and record never work on the same task. */
  ghost predicate OneOwner(runs: map<nat, Executor>) {
    forall a, b | a in runs && b in runs && runs[a].pc.Owns() && runs[b].pc.Owns()
      && runs[a].task.id == runs[b].task.id :: a == b
  }

  lemma {:induction false} PostsAppend(log: seq<Entry>, e: Entry, id: int)
    ensures Posts(log + [e], id) == Posts(log, id) + if e.PostedBy? && e.id == id then 1 else 0
  {
    assert (log + [e])[..|log|] == log;
  }

  lemma {:induction false} StillClosed(log: seq<Entry>, e: Entry, run: nat, id: int, k: int)
    requires ClaimedThenClosed(log, run, id, k)
    ensures ClaimedThenClosed(log + [e], run, id, k)
  {
    var i, j :| 0 <= i < j < k <= |log| && log[i] == ClaimedBy(run, id) && log[j] == ClosedBy(run, id);
    assert (log + [e])[i] == ClaimedBy(run, id) && (log + [e])[j] == ClosedBy(run, id);
  }

  lemma {:induction false} StillTruthful(status: JobStatus, log: seq<Entry>, e: Entry, id: int)
    requires Truthful(status, log, id) && !(e.PostedBy? && e.id == id)
    ensures Truthful(status, log + [e], id)
  {
    PostsAppend(log, e, id);
    if ReportedPost(log, id) {
      var k :| 0 <= k < |log| && log[k].PostedBy? && log[k].id == id && log[k].reported;
      assert (log + [e])[k] == log[k];
    }
  }

  /** A run keeps its invariant when the log grows by anything but a POST of its own task. */
  lemma {:induction false} RunOkAppend(s: Shared, e: Entry, run: nat, x: Executor)
    requires RunOk(s, run, x) && (e.PostedBy? && e.id == x.task.id ==> !x.pc.Owns())
    ensures RunOk(s.(log := s.log + [e]), run, x)
  {
    PostsAppend(s.log, e, x.task.id);
    if x.pc.Record? {
      StillTruthful(x.pc.status, s.log, e, x.task.id);
    }
    if x.pc.Check? || x.pc.Spend? {
      StillClosed(s.log, e, run, x.task.id, |s.log|);
      assert ClaimedThenClosed(s.log + [e], run, x.task.id, |s.log| + 1);
    }
  }

  lemma {:induction false} LogOkAppend(s: Shared, e: Entry)
    requires LogOk(s)
    requires e.PostedBy? ==> ClaimedThenClosed(s.log, e.run, e.id, |s.log|)
    requires !e.ClaimedBy?
    requires e.PutBy? ==> Holds(e.read, e.task) && e.body == Closed(e.read, e.note)
    ensures LogOk(s.(log := s.log + [e]))
  {
    var log := s.log + [e];
    forall k | 0 <= k < |log| && log[k].PostedBy? ensures ClaimedThenClosed(log, log[k].run, log[k].id, k) {
      if k < |s.log| {
        assert log[k] == s.log[k];
      }
      StillClosed(s.log, e, log[k].run, log[k].id, k);
    }
  }

  lemma {:induction false} JobsOkAppend(s: Shared, e: Entry)
    requires JobsOk(s) && !e.PostedBy?
    ensures JobsOk(s.(log := s.log + [e]))
  {
    forall id ensures Posts(s.log + [e], id) == Posts(s.log, id) {
      PostsAppend(s.log, e, id);
    }
    forall id | id in s.jobs ensures Truthful(s.jobs[id].status, s.log + [e], id) {
      StillTruthful(s.jobs[id].status, s.log, e, id);
    }
  }

  /** A switch seen closed, or a PUT: nothing is claimed or posted. */
  predicate Harmless(e: Entry) {
    e.ClosedBy? || (e.PutBy? && Holds(e.read, e.task) && e.body == Closed(e.read, e.note))
  }

  lemma {:induction false} HarmlessKeepsInv(w: World, e: Entry, config: PluginConfig)
    requires Inv(w) && Harmless(e)
    ensures Inv(w.(shared := w.shared.(config := config, log := w.shared.log + [e])))
  {
    LogOkAppend(w.shared, e);
    JobsOkAppend(w.shared, e);
    forall run | run in w.runs ensures RunOk(w.shared.(config := config, log := w.shared.log + [e]), run, w.runs[run]) {
      RunOkAppend(w.shared, e, run, w.runs[run]);
    }
  }

  /** Moving one run to another point keeps the rest; ownership may be kept or given up, not gained. */
  lemma {:induction false} MoveKeepsInv(w: World, run: nat, pc: Pc)
    requires Inv(w) && run in w.runs
    requires pc.Owns() ==> w.runs[run].pc.Owns()
    requires RunOk(w.shared, run, w.runs[run].(pc := pc))
    ensures Inv(w.(runs := w.runs[run := w.runs[run].(pc := pc)]))
  {
  }

  /** A new claim row and its log entry say nothing about any POST. */
  lemma {:induction false} ClaimKeepsTables(s: Shared, run: nat, id: int)
    requires LogOk(s) && JobsOk(s) && id !in s.jobs
    ensures var t := s.(jobs := s.jobs[id := Job(Claimed, Unknown)], log := s.log + [ClaimedBy(run, id)]);
            LogOk(t) && JobsOk(t)
  {
    var e := ClaimedBy(run, id);
    var t := s.(jobs := s.jobs[id := Job(Claimed, Unknown)], log := s.log + [e]);
    forall k ensures Posts(t.log, k) == Posts(s.log, k) {
      PostsAppend(s.log, e, k);
    }
    forall k | k in t.jobs ensures Truthful(t.jobs[k].status, t.log, k) {
      if k != id {
        StillTruthful(s.jobs[k].status, s.log, e, k);
      }
    }
    forall k | 0 <= k < |t.log| && t.log[k].PostedBy? ensures ClaimedThenClosed(t.log, t.log[k].run, t.log[k].id, k) {
      assert t.log[k] == s.log[k];
      StillClosed(s.log, e, s.log[k].run, s.log[k].id, k);
    }
  }

  lemma {:induction false} ClaimKeepsOtherRun(s: Shared, run: nat, id: int, r: nat, x: Executor)
    requires RunOk(s, r, x) && id !in s.jobs
    ensures RunOk(s.(jobs := s.jobs[id := Job(Claimed, Unknown)], log := s.log + [ClaimedBy(run, id)]), r, x)
  {
    RunOkAppend(s, ClaimedBy(run, id), r, x);
  }

  lemma {:induction false} ClaimStarts(s: Shared, run: nat, x: Executor)
    requires JobsOk(s) && x.task.id !in s.jobs && x.pc.Claim?
    ensures RunOk(s.(jobs := s.jobs[x.task.id := Job(Claimed, Unknown)], log := s.log + [ClaimedBy(run, x.task.id)]),
                  run, x.(pc := CloseRead(x.pc.dry)))
  {
    PostsAppend(s.log, ClaimedBy(run, x.task.id), x.task.id);
    assert (s.log + [ClaimedBy(run, x.task.id)])[|s.log|] == ClaimedBy(run, x.task.id);
  }

  lemma {:induction false} ClaimKeepsInv(w: World, run: nat)
    requires Inv(w) && run in w.runs && w.runs[run].pc.Claim? && w.runs[run].task.id !in w.shared.jobs
    ensures Inv(Moved(w, run))
  {
    var x := w.runs[run];
    var id := x.task.id;
    ClaimKeepsTables(w.shared, run, id);
    ClaimStarts(w.shared, run, x);
    var t := Moved(w, run).shared;
    forall r | r in w.runs && r != run ensures RunOk(t, r, w.runs[r]) {
      ClaimKeepsOtherRun(w.shared, run, id, r, w.runs[r]);
    }
    assert forall r | r in w.runs && w.runs[r].pc.Owns() :: RunOk(w.shared, r, w.runs[r]) && w.runs[r].task.id != id;
  }

  /** Giving up ownership, or keeping it, leaves the owners distinct. */
  lemma {:induction false} OwnersStayDistinct(runs: map<nat, Executor>, run: nat, pc: Pc)
    requires OneOwner(runs) && run in runs && (pc.Owns() ==> runs[run].pc.Owns())
    ensures OneOwner(runs[run := runs[run].(pc := pc)])
  {
  }

  lemma {:induction false} SpendKeepsJobs(s: Shared, run: nat, id: int, reported: bool)
    requires JobsOk(s) && id in s.jobs && s.jobs[id].status == Claimed && Posts(s.log, id) == 0
    ensures JobsOk(s.(log := s.log + [PostedBy(run, id, reported)]))
  {
    var e := PostedBy(run, id, reported);
    forall k ensures Posts(s.log + [e], k) == Posts(s.log, k) + if k == id then 1 else 0 {
      PostsAppend(s.log, e, k);
    }
    forall k | k in s.jobs ensures Truthful(s.jobs[k].status, s.log + [e], k) {
      if k != id {
        StillTruthful(s.jobs[k].status, s.log, e, k);
      }
    }
    forall k | Posts(s.log + [e], k) > 0 ensures Posts(s.log + [e], k) == 1 && k in s.jobs {
    }
  }

  lemma {:induction false} SpendKeepsOtherRuns(w: World, run: nat, e: Entry)
    requires RunsOk(w.shared, w.runs) && OneOwner(w.runs)
    requires run in w.runs && w.runs[run].pc.Owns() && e.PostedBy? && e.id == w.runs[run].task.id
    ensures forall r | r in w.runs && r != run :: RunOk(w.shared.(log := w.shared.log + [e]), r, w.runs[r])
  {
    forall r | r in w.runs && r != run ensures RunOk(w.shared.(log := w.shared.log + [e]), r, w.runs[r]) {
      RunOkAppend(w.shared, e, r, w.runs[r]);
    }
  }

  lemma {:induction false} SpendEnds(s: Shared, run: nat, x: Executor)
    requires RunOk(s, run, x) && x.pc.Spend?
    ensures RunOk(s.(log := s.log + [PostedBy(run, x.task.id, x.faults.reply.Reported?)]), run,
                  x.(pc := Spent(x.faults.reply)))
  {
    var e := PostedBy(run, x.task.id, x.faults.reply.Reported?);
    PostsAppend(s.log, e, x.task.id);
    assert (s.log + [e])[|s.log|] == e;
  }

  lemma {:induction false} SpendKeepsInv(w: World, run: nat)
    requires Inv(w) && run in w.runs && w.runs[run].pc.Spend?
    ensures Inv(Moved(w, run))
  {
    var x := w.runs[run];
    var e := PostedBy(run, x.task.id, x.faults.reply.Reported?);
    SpendMoves(w, run);
    assert RunOk(w.shared, run, x);
    LogOkAppend(w.shared, e);
    SpendKeepsJobs(w.shared, run, x.task.id, x.faults.reply.Reported?);
    SpendKeepsOtherRuns(w, run, e);
    SpendEnds(w.shared, run, x);
    OwnersStayDistinct(w.runs, run, Spent(x.faults.reply));
  }

  lemma {:induction false} SpendMoves(w: World, run: nat)
    requires run in w.runs && w.runs[run].pc.Spend?
    ensures var x := w.runs[run];
            Moved(w, run)
              == World(w.shared.(log := w.shared.log + [PostedBy(run, x.task.id, x.faults.reply.Reported?)]),
                       w.runs[run := x.(pc := Spent(x.faults.reply))])
  {
  }

  lemma {:induction false} RecordKeepsOtherRuns(w: World, run: nat, job: Job)
    requires RunsOk(w.shared, w.runs) && OneOwner(w.runs) && run in w.runs && w.runs[run].pc.Owns()
    ensures forall r | r in w.runs && r != run ::
      RunOk(w.shared.(jobs := w.shared.jobs[w.runs[run].task.id := job]), r, w.runs[r])
  {
    forall r | r in w.runs && r != run
      ensures RunOk(w.shared.(jobs := w.shared.jobs[w.runs[run].task.id := job]), r, w.runs[r])
    {
      assert RunOk(w.shared, r, w.runs[r]);
    }
  }

  lemma {:induction false} RecordKeepsTables(s: Shared, id: int, job: Job)
    requires LogOk(s) && JobsOk(s) && id in s.jobs && Truthful(job.status, s.log, id)
    ensures LogOk(s.(jobs := s.jobs[id := job])) && JobsOk(s.(jobs := s.jobs[id := job]))
  {
  }

  lemma {:induction false} RecordKeepsInv(w: World, run: nat)
    requires Inv(w) && run in w.runs && w.runs[run].pc.Record?
    ensures Inv(Moved(w, run))
  {
    var x := w.runs[run];
    var job := Job(x.pc.status, x.pc.note);
    assert RunOk(w.shared, run, x);
    RecordKeepsTables(w.shared, x.task.id, job);
    RecordKeepsOtherRuns(w, run, job);
    OwnersStayDistinct(w.runs, run, SyncRead(x.pc.status, x.pc.note));
    assert Moved(w, run) == World(w.shared.(jobs := w.shared.jobs[x.task.id := job]),
                                  w.runs[run := x.(pc := SyncRead(x.pc.status, x.pc.note))]);
  }

  lemma {:induction false} SyncPutKeepsInv(w: World, run: nat)
    requires Inv(w) && run in w.runs && w.runs[run].pc.SyncPut?
    ensures Inv(Moved(w, run))
  {
    var x := w.runs[run];
    assert RunOk(w.shared, run, x);
    var t := PutStep(w.shared, run, x.task, x.pc.note, x.pc.read, x.faults.finalPut);
    HarmlessKeepsInv(w, PutBy(run, x.task, x.pc.note, x.pc.read, Closed(x.pc.read, x.pc.note)), t.config);
    MoveKeepsInv(w.(shared := t), run, Step(w.shared, run, x).1);
  }

  /** The closing PUT on its own, before its outcome moves the run. */
  function AfterClosePut(w: World, run: nat): World
    requires run in w.runs && w.runs[run].pc.ClosePut?
  {
    var x := w.runs[run];
    w.(shared := PutStep(w.shared, run, x.task, Unknown, x.pc.read, x.faults.closePut))
  }

  /** The run has seen or made the switch closed. */
  function AtCheck(w: World, run: nat, dry: bool): World
    requires run in w.runs
  {
    var x := w.runs[run];
    World(w.shared.(log := w.shared.log + [ClosedBy(run, x.task.id)]), w.runs[run := x.(pc := Check(dry))])
  }

  function GivenUp(w: World, run: nat): World
    requires run in w.runs
  {
    w.(runs := w.runs[run := w.runs[run].(pc := Record(UnknownJob, Unknown))])
  }

  lemma {:induction false} ClosePutHarmless(w: World, run: nat)
    requires Inv(w) && run in w.runs && w.runs[run].pc.ClosePut?
    ensures Inv(AfterClosePut(w, run))
  {
    var x := w.runs[run];
    assert RunOk(w.shared, run, x);
    var t := PutStep(w.shared, run, x.task, Unknown, x.pc.read, x.faults.closePut);
    HarmlessKeepsInv(w, PutBy(run, x.task, Unknown, x.pc.read, Closed(x.pc.read, Unknown)), t.config);
  }

  lemma {:induction false} ClosePutKeepsInv(w: World, run: nat)
    requires Inv(w) && run in w.runs && w.runs[run].pc.ClosePut?
    ensures Inv(Moved(w, run))
  {
    ClosePutHarmless(w, run);
    ClosePutMoves(w, run);
    if w.runs[run].faults.closePut.Landed? {
      SeenClosed(AfterClosePut(w, run), run, w.runs[run].pc.dry);
    } else {
      GiveUpClosing(AfterClosePut(w, run), run);
    }
  }

  lemma {:induction false} ClosePutMoves(w: World, run: nat)
    requires run in w.runs && w.runs[run].pc.ClosePut?
    ensures var w1 := AfterClosePut(w, run);
            Moved(w, run)
              == if w.runs[run].faults.closePut.Landed? then AtCheck(w1, run, w.runs[run].pc.dry)
                 else GivenUp(w1, run)
  {
  }

  lemma {:induction false} GiveUpClosing(w: World, run: nat)
    requires Inv(w) && run in w.runs && w.runs[run].pc.Owns()
    ensures Inv(GivenUp(w, run))
  {
    assert RunOk(w.shared, run, w.runs[run]);
    MoveKeepsInv(w, run, Record(UnknownJob, Unknown));
  }

  /** Where `update_result` leaves a run that did not see the switch closed already. */
  lemma {:induction false} CloseReadElse(s: Shared, run: nat, x: Executor)
    requires RunOk(s, run, x) && x.pc.CloseRead?
    requires x.faults.closeReadFails || !Holds(s.config, x.task) || !ShowsClosed(s.config, Unknown)
    ensures Step(s, run, x).0 == s && RunOk(s, run, x.(pc := Step(s, run, x).1))
  {
  }

  lemma {:induction false} CloseReadKeepsInv(w: World, run: nat)
    requires Inv(w) && run in w.runs && w.runs[run].pc.CloseRead?
    ensures Inv(Moved(w, run))
  {
    var x := w.runs[run];
    if !x.faults.closeReadFails && Holds(w.shared.config, x.task) && ShowsClosed(w.shared.config, Unknown) {
      CloseReadSees(w, run);
      SeenClosed(w, run, x.pc.dry);
    } else {
      CloseReadOtherwise(w, run);
    }
  }

  lemma {:induction false} CloseReadSees(w: World, run: nat)
    requires run in w.runs && w.runs[run].pc.CloseRead? && !w.runs[run].faults.closeReadFails
    requires Holds(w.shared.config, w.runs[run].task) && ShowsClosed(w.shared.config, Unknown)
    ensures Moved(w, run) == AtCheck(w, run, w.runs[run].pc.dry)
  {
  }

  lemma {:induction false} CloseReadOtherwise(w: World, run: nat)
    requires Inv(w) && run in w.runs && w.runs[run].pc.CloseRead?
    requires var x := w.runs[run];
             x.faults.closeReadFails || !Holds(w.shared.config, x.task) || !ShowsClosed(w.shared.config, Unknown)
    ensures Inv(Moved(w, run))
  {
    var x := w.runs[run];
    assert RunOk(w.shared, run, x);
    CloseReadElse(w.shared, run, x);
    MoveKeepsInv(w, run, Step(w.shared, run, x).1);
  }

  lemma {:induction false} SeenClosed(w: World, run: nat, dry: bool)
    requires Inv(w) && run in w.runs && w.runs[run].pc.MayStillPost()
    ensures Inv(AtCheck(w, run, dry))
  {
    var x := w.runs[run];
    var id := x.task.id;
    var e := ClosedBy(run, id);
    HarmlessKeepsInv(w, e, w.shared.config);
    var w1 := w.(shared := w.shared.(log := w.shared.log + [e]));
    assert RunOk(w.shared, run, x);
    var i :| 0 <= i < |w.shared.log| && w.shared.log[i] == ClaimedBy(run, id);
    assert w1.shared.log[i] == ClaimedBy(run, id) && w1.shared.log[|w.shared.log|] == e;
    assert ClaimedThenClosed(w1.shared.log, run, id, |w1.shared.log|);
    assert RunOk(w1.shared, run, x);
    MoveKeepsInv(w1, run, Check(dry));
  }

  /** Where a step that writes nothing leaves its run. */
  lemma {:induction false} QuietStep(s: Shared, run: nat, x: Executor)
    requires RunOk(s, run, x)
    requires x.pc.Start? || x.pc.Find? || x.pc.SyncRead? || x.pc.Reread? || x.pc.Check? || x.pc.Halt?
             || (x.pc.Claim? && x.task.id in s.jobs)
    ensures var (t, pc) := Step(s, run, x);
            t == s && RunOk(s, run, x.(pc := pc)) && (pc.Owns() ==> x.pc.Owns())
  {
  }

  lemma {:induction false} QuietKeepsInv(w: World, run: nat)
    requires Inv(w) && run in w.runs
    requires var x := w.runs[run];
             x.pc.Start? || x.pc.Find? || x.pc.SyncRead? || x.pc.Reread? || x.pc.Check? || x.pc.Halt?
             || (x.pc.Claim? && x.task.id in w.shared.jobs)
    ensures Inv(Moved(w, run))
  {
    assert RunOk(w.shared, run, w.runs[run]);
    QuietStep(w.shared, run, w.runs[run]);
    MoveKeepsInv(w, run, Step(w.shared, run, w.runs[run]).1);
  }

  lemma {:induction false} GoKeepsInv(w: World, run: nat)
    requires Inv(w)
    ensures Inv(Act(w, Go(run)))
  {
    if run in w.runs {
      var x := w.runs[run];
      match x.pc
      case Claim(_) =>
        if x.task.id !in w.shared.jobs {
          ClaimKeepsInv(w, run);
        } else {
          QuietKeepsInv(w, run);
        }
      case Spend => SpendKeepsInv(w, run);
      case Record(_, _) => RecordKeepsInv(w, run);
      case ClosePut(_, _) => ClosePutKeepsInv(w, run);
      case SyncPut(_, _, _) => SyncPutKeepsInv(w, run);
      case CloseRead(_) => CloseReadKeepsInv(w, run);
      case _ => QuietKeepsInv(w, run);
    }
  }

  lemma {:induction false} SaveKeepsInv(w: World, config: PluginConfig)
    requires Inv(w)
    ensures Inv(w.(shared := w.shared.(config := config)))
  {
    forall r | r in w.runs ensures RunOk(w.shared.(config := config), r, w.runs[r]) {
      assert RunOk(w.shared, r, w.runs[r]);
    }
  }

  lemma {:induction false} LaunchKeepsInv(w: World, run: nat, x: Executor)
    requires Inv(w) && run !in w.runs && x.pc.Start?
    ensures Inv(w.(runs := w.runs[run := x]))
  {
  }

  lemma {:induction false} ActKeepsInv(w: World, a: Action)
    requires Inv(w)
    ensures Inv(Act(w, a))
  {
    match a
    case Go(run) => GoKeepsInv(w, run);
    case Die(run) =>
      if run in w.runs {
        MoveKeepsInv(w, run, Halt(Error));
      }
    case Launch(run, task, now, faults) =>
      if run !in w.runs {
        LaunchKeepsInv(w, run, Executor(task, now, faults, Start));
      }
    case Save(config) => SaveKeepsInv(w, config);
  }

  lemma {:induction false} RunKeepsInv(config: PluginConfig, trace: seq<Action>)
    ensures Inv(Run(Fresh(config), trace))
  {
    if trace != [] {
      RunKeepsInv(config, trace[..|trace| - 1]);
      ActKeepsInv(Run(Fresh(config), trace[..|trace| - 1]), trace[|trace| - 1]);
    }
  }

  // ----- the results -----

  /** For any interleaving of runs, crashes, lost replies and saves: at most one POST per task id. */
  lemma {:induction false} AtMostOnePost(config: PluginConfig, trace: seq<Action>, id: int)
    ensures Posts(Run(Fresh(config), trace).shared.log, id) <= 1
  {
    RunKeepsInv(config, trace);
  }

  /**
   Every POST was preceded, in its own run, by the durable claim of its task and then by the switch
   being seen or made closed; and no other run ever claimed that task.
   */
  lemma {:induction false} PostsAreClaimedThenClosed(config: PluginConfig, trace: seq<Action>, k: nat)
    requires var log := Run(Fresh(config), trace).shared.log; k < |log| && log[k].PostedBy?
    ensures var log := Run(Fresh(config), trace).shared.log;
            && ClaimedThenClosed(log, log[k].run, log[k].id, k)
            && forall i | 0 <= i < |log| && log[i].ClaimedBy? && log[i].id == log[k].id :: log[i].run == log[k].run
  {
    RunKeepsInv(config, trace);
    var log := Run(Fresh(config), trace).shared.log;
    var i, j :| 0 <= i < j < k <= |log|
      && log[i] == ClaimedBy(log[k].run, log[k].id) && log[j] == ClosedBy(log[k].run, log[k].id);
  }

  /** A step appends its mark of a closed switch last, when the host shows the run's task closed. */
  lemma {:induction false} ClosedStepShows(s: Shared, run: nat, x: Executor, k: nat)
    requires RunOk(s, run, x)
    requires var t := Step(s, run, x).0; |s.log| <= k < |t.log| && t.log[k].ClosedBy?
    ensures var t := Step(s, run, x).0;
            && |t.log| == k + 1 && t.log[k] == ClosedBy(run, x.task.id)
            && Holds(t.config, x.task) && ShowsClosed(t.config, Unknown)
  {
  }

  lemma {:induction false} LogGrows(w: World, a: Action)
    ensures w.shared.log <= Act(w, a).shared.log
  {
  }

  /** In this world, the run of the newest log entry has that entry's task, and the host shows it closed. */
  ghost predicate ShowsNewestClosed(w: World) {
    w.shared.log != [] && var e := w.shared.log[|w.shared.log| - 1];
    && e.ClosedBy? && e.run in w.runs && w.runs[e.run].task.id == e.id
    && Holds(w.shared.config, w.runs[e.run].task) && ShowsClosed(w.shared.config, Unknown)
  }

  /**
   The marks are true: at the moment each was made, the host's configuration held that run's task and
   showed it closed.
   */
  lemma {:induction false} ClosedWasShown(config: PluginConfig, trace: seq<Action>, k: nat) returns (n: nat)
    requires var log := Run(Fresh(config), trace).shared.log; k < |log| && log[k].ClosedBy?
    ensures n <= |trace| && ShowsNewestClosed(Run(Fresh(config), trace[..n]))
    ensures Run(Fresh(config), trace[..n]).shared.log == Run(Fresh(config), trace).shared.log[..k + 1]
  {
    assert trace != [];
    var m := |trace| - 1;
    var w := Run(Fresh(config), trace[..m]);
    LogGrows(w, trace[m]);
    if k < |w.shared.log| {
      n := ClosedWasShown(config, trace[..m], k);
      assert trace[..m][..n] == trace[..n];
    } else {
      n := |trace|;
      assert trace[..n] == trace;
      RunKeepsInv(config, trace[..m]);
      NewClosedShows(w, trace[m], k);
    }
  }

  lemma {:induction false} NewClosedShows(w: World, a: Action, k: nat)
    requires Inv(w) && |w.shared.log| <= k < |Act(w, a).shared.log| && Act(w, a).shared.log[k].ClosedBy?
    ensures |Act(w, a).shared.log| == k + 1 && ShowsNewestClosed(Act(w, a))
  {
    assert a.Go? && a.run in w.runs;
    assert RunOk(w.shared, a.run, w.runs[a.run]);
    ClosedStepShows(w.shared, a.run, w.runs[a.run], k);
  }

  /**
   Every POST was preceded, in its own run, by a moment at which the host's configuration held that
   run's task and showed it closed.
   */
  lemma {:induction false} PostsFollowAClosedHost(config: PluginConfig, trace: seq<Action>, k: nat) returns (n: nat)
    requires var log := Run(Fresh(config), trace).shared.log; k < |log| && log[k].PostedBy?
    ensures n <= |trace| && ShowsNewestClosed(Run(Fresh(config), trace[..n]))
    ensures var e := Run(Fresh(config), trace).shared.log[k];
            var log := Run(Fresh(config), trace[..n]).shared.log;
            |log| <= k && log[|log| - 1] == ClosedBy(e.run, e.id)
  {
    var log := Run(Fresh(config), trace).shared.log;
    PostsAreClaimedThenClosed(config, trace, k);
    var j := ClosedBefore(log, log[k].run, log[k].id, k);
    n := ClosedWasShown(config, trace, j);
  }

  lemma {:induction false} ClosedBefore(log: seq<Entry>, run: nat, id: int, k: nat) returns (j: nat)
    requires ClaimedThenClosed(log, run, id, k)
    ensures j < k <= |log| && log[j] == ClosedBy(run, id)
  {
    var i, m :| 0 <= i < m < k <= |log| && log[i] == ClaimedBy(run, id) && log[m] == ClosedBy(run, id);
    j := m;
  }

  /** Skipped or rehearsed: no POST. Success: exactly one, whose reply reported the reset. No row: no POST. */
  lemma {:induction false} StatusesAreTruthful(config: PluginConfig, trace: seq<Action>, id: int)
    ensures var s := Run(Fresh(config), trace).shared;
            if id in s.jobs then Truthful(s.jobs[id].status, s.log, id) else Posts(s.log, id) == 0
  {
    RunKeepsInv(config, trace);
  }

  /**
   Every PUT body is the configuration its run had read, with the switch of that same task closed and its
   note set.
   */
  lemma {:induction false} PutsOnlyCloseTheTask(config: PluginConfig, trace: seq<Action>, k: nat)
    requires var log := Run(Fresh(config), trace).shared.log; k < |log| && log[k].PutBy?
    ensures var e := Run(Fresh(config), trace).shared.log[k];
            && e.read.schedule.Some? && SameTask(e.read.schedule.value, e.task)
            && e.body == e.read.(schedule := Some(e.read.schedule.value.(enabled := false, note := e.note)))
  {
    RunKeepsInv(config, trace);
  }

  /** A row is never deleted and moves only from claimed to one final value. */
  predicate JobForward(a: map<int, Job>, b: map<int, Job>, id: int) {
    id in a ==> id in b && (b[id] == a[id] || (a[id].status == Claimed && b[id].status != Claimed))
  }

  lemma {:induction false} StepMovesJobsForward(s: Shared, run: nat, x: Executor, id: int)
    requires RunOk(s, run, x)
    ensures var t := Step(s, run, x).0;
            JobForward(s.jobs, t.jobs, id) && (id !in s.jobs && id in t.jobs ==> t.jobs[id].status == Claimed)
  {
  }

  lemma {:induction false} ActMovesJobsForward(config: PluginConfig, trace: seq<Action>, a: Action, id: int)
    ensures var w := Run(Fresh(config), trace);
            && JobForward(w.shared.jobs, Act(w, a).shared.jobs, id)
            && (id !in w.shared.jobs && id in Act(w, a).shared.jobs ==> Act(w, a).shared.jobs[id].status == Claimed)
  {
    RunKeepsInv(config, trace);
    var w := Run(Fresh(config), trace);
    if a.Go? && a.run in w.runs {
      StepMovesJobsForward(w.shared, a.run, w.runs[a.run], id);
    }
  }

  lemma {:induction false} JobForwardTransitive(a: map<int, Job>, b: map<int, Job>, c: map<int, Job>, id: int)
    requires JobForward(a, b, id) && JobForward(b, c, id)
    ensures JobForward(a, c, id)
  {
  }

  /** From any moment of any run on, each job row only moves forward: absent, claimed, one final value. */
  lemma {:induction false} JobsOnlyMoveForward(config: PluginConfig, a: seq<Action>, b: seq<Action>, id: int)
    ensures JobForward(Run(Fresh(config), a).shared.jobs, Run(Fresh(config), a + b).shared.jobs, id)
  {
    if b == [] {
      assert a + b == a;
    } else {
      var n := |b| - 1;
      var ab := a + b[..n];
      assert a + b == ab + [b[n]] && (a + b)[..|a + b| - 1] == ab;
      JobsOnlyMoveForward(config, a, b[..n], id);
      ActMovesJobsForward(config, ab, b[n], id);
      JobForwardTransitive(Run(Fresh(config), a).shared.jobs, Run(Fresh(config), ab).shared.jobs,
                           Run(Fresh(config), a + b).shared.jobs, id);
    }
  }

  lemma {:induction false} PutPostsNothing(s: Shared, run: nat, task: Schedule, note: Note, read: PluginConfig,
                                           fate: PutFate, id: int)
    ensures Posts(PutStep(s, run, task, note, read, fate).log, id) == Posts(s.log, id)
  {
    PostsAppend(s.log, PutBy(run, task, note, read, Closed(read, note)), id);
  }

  lemma {:induction false} StepPostsOnlyItsOwn(s: Shared, run: nat, x: Executor, id: int)
    ensures Posts(Step(s, run, x).0.log, id) == Posts(s.log, id) + if x.pc.Spend? && x.task.id == id then 1 else 0
  {
    match x.pc
    case Spend => PostsAppend(s.log, PostedBy(run, x.task.id, x.faults.reply.Reported?), id);
    case Claim(_) => PostsAppend(s.log, ClaimedBy(run, x.task.id), id);
    case CloseRead(_) => PostsAppend(s.log, ClosedBy(run, x.task.id), id);
    case SyncPut(_, note, read) => PutPostsNothing(s, run, x.task, note, read, x.faults.finalPut, id);
    case ClosePut(_, read) =>
      PutPostsNothing(s, run, x.task, Unknown, read, x.faults.closePut, id);
      PostsAppend(PutStep(s, run, x.task, Unknown, read, x.faults.closePut).log, ClosedBy(run, x.task.id), id);
    case _ =>
  }

  lemma {:induction false} FinishedTaskGetsNoPost(config: PluginConfig, trace: seq<Action>, a: Action, id: int)
    requires var s := Run(Fresh(config), trace).shared; id in s.jobs && s.jobs[id].status != Claimed
    ensures Posts(Act(Run(Fresh(config), trace), a).shared.log, id) == Posts(Run(Fresh(config), trace).shared.log, id)
  {
    RunKeepsInv(config, trace);
    var w := Run(Fresh(config), trace);
    if a.Go? && a.run in w.runs {
      assert RunOk(w.shared, a.run, w.runs[a.run]);
      StepPostsOnlyItsOwn(w.shared, a.run, w.runs[a.run], id);
    }
  }

  /**
   The jobs table is the barrier: once a task's row has its final value, no saves of that same task,
   switched on again or not, and no later runs ever post for it.
   */
  lemma {:induction false} FinishedTaskNeverPostsAgain(config: PluginConfig, a: seq<Action>, b: seq<Action>, id: int)
    requires var s := Run(Fresh(config), a).shared; id in s.jobs && s.jobs[id].status != Claimed
    ensures Posts(Run(Fresh(config), a + b).shared.log, id) == Posts(Run(Fresh(config), a).shared.log, id)
  {
    if b == [] {
      assert a + b == a;
    } else {
      var n := |b| - 1;
      var ab := a + b[..n];
      assert a + b == ab + [b[n]] && (a + b)[..|a + b| - 1] == ab;
      FinishedTaskNeverPostsAgain(config, a, b[..n], id);
      JobsOnlyMoveForward(config, a, b[..n], id);
      FinishedTaskGetsNoPost(config, ab, b[n], id);
    }
  }
}
