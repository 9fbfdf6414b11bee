/** The plugin's save step (`ApplyConfig`) and the gate a schedule passes there (`native/reset_card_schedule.go`). */
module ScheduleGate {
  import opened Common
  import opened CardSchedule
  import opened NativeConfig

  /** `validateNewResetCardSchedule`, against the schedule last saved. */
  predicate NewScheduleOk(previous: Option<Schedule>, next: Option<Schedule>, now: int) {
    next.Some? && next.value.enabled ==>
      if previous.Some? && previous.value.id == next.value.id
      then SameTask(previous.value, next.value) && previous.value.enabled
      else next.value.runAt > now
  }

  /** One save: the request, the clock, and whether writing the file fails. */
  datatype Attempt = Attempt(request: Request, now: int, writeFails: bool)

  function ScheduleOf(file: Option<Settings>): Option<Schedule> {
    if file.Some? then file.value.schedule else None
  }

  /** The request is acceptable, passes the gate against the schedule on file, and is written. */
  predicate Saves(file: Option<Settings>, a: Attempt, lower: string -> string) {
    && Normalized(a.request, lower).Ok? && !a.writeFails
    && NewScheduleOk(ScheduleOf(file), Normalized(a.request, lower).value.schedule, a.now)
  }

  function AfterSave(file: Option<Settings>, a: Attempt, lower: string -> string): Option<Settings> {
    if Saves(file, a, lower) then Some(Normalized(a.request, lower).value) else file
  }

  class PluginServer {
    var saved: Option<Settings>
    var config: Settings

    constructor (initial: Settings)
      ensures saved == None && config == initial
    {
      saved, config := None, initial;
    }

    /** Normalise, check the schedule against the saved file, write the file, then swap the configuration. */
    method ApplyConfig(r: Request, lower: string -> string, now: int, writeFails: bool) returns (applied: bool)
      modifies this
      ensures applied <==> Saves(old(saved), Attempt(r, now, writeFails), lower)
      ensures saved == AfterSave(old(saved), Attempt(r, now, writeFails), lower)
      ensures config == if applied then Normalized(r, lower).value else old(config)
      ensures applied <==>
        && Normalized(r, lower).Ok? && !writeFails
        && var next := r.settings.schedule;
           var held := if old(saved).Some? then old(saved).value.schedule else None;
           (next.Some? && next.value.enabled ==>
             if held.Some? && held.value.id == next.value.id then
               && held.value.enabled && held.value.accountId == next.value.accountId
               && held.value.runAt == next.value.runAt && held.value.creditExpiresAt == next.value.creditExpiresAt
             else now < next.value.runAt)
    {
      var normalized := NormalizeConfig(r, lower);
      if normalized.Err? {
        return false;
      }
      var next := normalized.value.schedule;
      if next.Some? && next.value.enabled {
        var previous := if saved.Some? then saved.value.schedule else None;
        if previous.Some? && previous.value.id == next.value.id {
          if !SameTask(previous.value, next.value) || !previous.value.enabled {
            return false;
          }
        } else if !(next.value.runAt > now) {
          return false;
        }
      }
      if writeFails {
        return false;
      }
      saved := Some(normalized.value);
      config := normalized.value;
      return true;
    }
  }

  /** The file after a sequence of save attempts. */
  function AfterSaves(file: Option<Settings>, attempts: seq<Attempt>, lower: string -> string): Option<Settings> {
    if attempts == [] then file else
      AfterSave(AfterSaves(file, attempts[..|attempts| - 1], lower), attempts[|attempts| - 1], lower)
  }

  predicate HoldsTask(file: Option<Settings>, id: int) {
    ScheduleOf(file).Some? && ScheduleOf(file).value.id == id
  }

  predicate TaskOn(file: Option<Settings>, id: int) {
    HoldsTask(file, id) && ScheduleOf(file).value.enabled
  }

  /** The task is closed on file: held, and not switched on. */
  predicate TaskClosed(file: Option<Settings>, id: int) {
    HoldsTask(file, id) && !ScheduleOf(file).value.enabled
  }

  /**
   An acceptable, written request for the task switched on with a time still to come, made while the file
   does not hold the task's id.
   */
  predicate Reopens(file: Option<Settings>, a: Attempt, id: int, lower: string -> string) {
    && !HoldsTask(file, id)
    && Normalized(a.request, lower).Ok? && !a.writeFails
    && a.request.settings.schedule.Some?
    && var next := a.request.settings.schedule.value;
    && next.id == id && next.enabled && next.runAt > a.now
  }

  /** While it is off, a task is switched on by exactly the saves that reopen it. */
  lemma {:induction false} SaveSwitchesOnIff(file: Option<Settings>, a: Attempt, id: int, lower: string -> string)
    requires !TaskOn(file, id)
    ensures TaskOn(AfterSave(file, a, lower), id) <==> Reopens(file, a, id, lower)
  {
  }

  ghost predicate EverOn(file: Option<Settings>, attempts: seq<Attempt>, id: int, lower: string -> string) {
    exists k :: 0 <= k <= |attempts| && TaskOn(AfterSaves(file, attempts[..k], lower), id)
  }

  ghost predicate EverReopens(file: Option<Settings>, attempts: seq<Attempt>, id: int, lower: string -> string) {
    exists k :: 0 <= k < |attempts| && Reopens(AfterSaves(file, attempts[..k], lower), attempts[k], id, lower)
  }

  /** The file before attempt k and after it. */
  lemma {:induction false} SavesStep(file: Option<Settings>, attempts: seq<Attempt>, k: nat, lower: string -> string)
    requires k < |attempts|
    ensures AfterSaves(file, attempts[..k + 1], lower)
         == AfterSave(AfterSaves(file, attempts[..k], lower), attempts[k], lower)
  {
    assert attempts[..k + 1][..k] == attempts[..k];
  }

  /** A task on after k attempts, but off at first, was reopened by one of them. */
  lemma {:induction false} OnWasReopened(file: Option<Settings>, attempts: seq<Attempt>, id: int, k: nat,
                                         lower: string -> string)
    requires !TaskOn(file, id) && k <= |attempts| && TaskOn(AfterSaves(file, attempts[..k], lower), id)
    ensures EverReopens(file, attempts, id, lower)
  {
    if k > 0 {
      SavesStep(file, attempts, k - 1, lower);
      var before := AfterSaves(file, attempts[..k - 1], lower);
      if TaskOn(before, id) {
        OnWasReopened(file, attempts, id, k - 1, lower);
      } else {
        SaveSwitchesOnIff(before, attempts[k - 1], id, lower);
      }
    }
  }

  /**
   Over any saves, a task that is closed on file is at some point on again if and only if one of them asks
   for it, switched on and with a time still to come, while the file does not hold its id.
   */
  lemma {:induction false} ClosedTaskReopensIff(file: Option<Settings>, attempts: seq<Attempt>, id: int,
                                                lower: string -> string)
    requires TaskClosed(file, id)
    ensures EverOn(file, attempts, id, lower) <==> EverReopens(file, attempts, id, lower)
  {
    if EverOn(file, attempts, id, lower) {
      var k :| 0 <= k <= |attempts| && TaskOn(AfterSaves(file, attempts[..k], lower), id);
      OnWasReopened(file, attempts, id, k, lower);
    }
    if EverReopens(file, attempts, id, lower) {
      var k :| 0 <= k < |attempts| && Reopens(AfterSaves(file, attempts[..k], lower), attempts[k], id, lower);
      SavesStep(file, attempts, k, lower);
      SaveSwitchesOnIff(AfterSaves(file, attempts[..k], lower), attempts[k], id, lower);
    }
  }

  /** So for as long as the file holds the id of a closed task, the task stays closed. */
  lemma {:induction false} ClosedTaskReopensOnlyAfterReplacement(file: Option<Settings>, attempts: seq<Attempt>,
                                                                 id: int, lower: string -> string)
    requires TaskClosed(file, id)
    requires forall k | 0 <= k <= |attempts| :: HoldsTask(AfterSaves(file, attempts[..k], lower), id)
    ensures TaskClosed(AfterSaves(file, attempts, lower), id)
  {
    assert attempts[..|attempts|] == attempts;
    ClosedTaskReopensIff(file, attempts, id, lower);
  }

  /** Two schedules name the same account, time and card. */
  predicate SameAppointment(a: Schedule, b: Schedule) {
    a.accountId == b.accountId && a.runAt == b.runAt && a.creditExpiresAt == b.creditExpiresAt
  }

  /** One save that finds a task on, and leaves it on, leaves its appointment alone. */
  lemma {:induction false} SaveKeepsAppointment(file: Option<Settings>, a: Attempt, id: int, lower: string -> string)
    requires TaskOn(file, id) && TaskOn(AfterSave(file, a, lower), id)
    ensures SameAppointment(ScheduleOf(file).value, ScheduleOf(AfterSave(file, a, lower)).value)
  {
  }

  /**
   An appointment cannot be edited under its id: over any saves while the file holds the id of a task that is on,
   either the task is off in the end, or its account, time and card are those it had.
   */
  lemma {:induction false} AppointmentsAreFixed(file: Option<Settings>, attempts: seq<Attempt>, id: int,
                                                lower: string -> string)
    requires TaskOn(file, id)
    requires forall k | 0 <= k <= |attempts| :: HoldsTask(AfterSaves(file, attempts[..k], lower), id)
    requires TaskOn(AfterSaves(file, attempts, lower), id)
    ensures SameAppointment(ScheduleOf(file).value, ScheduleOf(AfterSaves(file, attempts, lower)).value)
  {
    if attempts != [] {
      var n := |attempts| - 1;
      var front := attempts[..n];
      assert attempts[..|attempts|] == attempts;
      forall k | 0 <= k <= |front| ensures HoldsTask(AfterSaves(file, front[..k], lower), id) {
        assert front[..k] == attempts[..k];
      }
      var before := AfterSaves(file, front, lower);
      assert HoldsTask(before, id);
      if !TaskOn(before, id) {
        SaveSwitchesOnIff(before, attempts[n], id, lower);
        assert false;
      }
      AppointmentsAreFixed(file, front, id, lower);
      SaveKeepsAppointment(before, attempts[n], id, lower);
    }
  }

  function WithSchedule(r: Request, s: Schedule): Request {
    r.(settings := r.settings.(schedule := Some(s)))
  }

  /** Acceptance does not depend on the id, and the schedule saved is the one asked for. */
  lemma {:induction false} AcceptedUnderAnyId(r: Request, task: Schedule, other: int, lower: string -> string)
    requires Normalized(WithSchedule(r, task), lower).Ok?
    ensures Normalized(WithSchedule(r, task), lower).value.schedule == Some(task)
    ensures Normalized(WithSchedule(r, task.(id := other)), lower).Ok?
    ensures Normalized(WithSchedule(r, task.(id := other)), lower).value.schedule == Some(task.(id := other))
  {
  }

  /**
   And replacement does reopen it: any closed task whose request the plugin accepts, with a time still to
   come, through one save of another id.
   */
  lemma {:induction false} ReplacementReopens(file: Option<Settings>, r: Request, task: Schedule, other: int,
                                              now: int, lower: string -> string)
    requires TaskClosed(file, task.id) && other != task.id && task.runAt > now
    requires Normalized(WithSchedule(r, task.(enabled := true)), lower).Ok?
    ensures var attempts := [Attempt(WithSchedule(r, task.(id := other, enabled := true)), now, false),
                             Attempt(WithSchedule(r, task.(enabled := true)), now, false)];
            ScheduleOf(AfterSaves(file, attempts, lower)) == Some(task.(enabled := true))
  {
    var first := Attempt(WithSchedule(r, task.(id := other, enabled := true)), now, false);
    var second := Attempt(WithSchedule(r, task.(enabled := true)), now, false);
    var attempts := [first, second];
    assert attempts[..0] == [] && attempts[..2] == attempts;
    AcceptedUnderAnyId(r, task.(enabled := true), other, lower);
    SavesStep(file, attempts, 0, lower);
    SavesStep(file, attempts, 1, lower);
  }
}
