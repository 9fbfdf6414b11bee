/**
 The host side of a subscription reset: `AdminResetQuotaForCycle` of the host patch, and the
 sidecar's mirror of its already-applied test, `cycle_windows_applied`.
 */
module HostCycle {
  import opened Common
  import opened CycleDetector
  import opened StateStore

  datatype Subscription = Subscription(
    groupId: int,
    active: bool,
    deleted: bool,
    expiresAt: int,
    dailyStart: Option<int>,
    weeklyStart: Option<int>,
    monthlyStart: Option<int>,
    dailyUsage: real,
    weeklyUsage: real,
    monthlyUsage: real)

  datatype Reply = Updated(sub: Subscription) | InvalidCycle | Expired

  /** A window that starts at the cycle's own start, or at or after its end. */
  predicate WindowApplied(start: Option<int>, cycle: int) {
    start.Some? && (start.value == cycle - WEEK || start.value >= cycle)
  }

  /** The host's test, vacuous for a window that is not selected. */
  predicate AlreadyApplied(sub: Subscription, w: Windows, cycle: int) {
    && (!w.weekly || WindowApplied(sub.weeklyStart, cycle))
    && (!w.monthly || WindowApplied(sub.monthlyStart, cycle))
  }

  /** `cycle_windows_applied`: the sidecar collects the selected windows first. */
  method CycleWindowsApplied(sub: Subscription, w: Windows, cycle: int) returns (applied: bool)
    ensures applied <==> Applied(sub, w, cycle)
    ensures applied <==>
      && (w.weekly || w.monthly)
      && (w.weekly ==>
            sub.weeklyStart.Some? && (sub.weeklyStart.value == cycle - 7 * DAY || sub.weeklyStart.value >= cycle))
      && (w.monthly ==>
            sub.monthlyStart.Some? && (sub.monthlyStart.value == cycle - 7 * DAY || sub.monthlyStart.value >= cycle))
  {
    var selected: seq<bool> := [];
    if w.weekly {
      selected := selected + [WindowApplied(sub.weeklyStart, cycle)];
    }
    if w.monthly {
      selected := selected + [WindowApplied(sub.monthlyStart, cycle)];
    }
    applied := selected != [] && forall i | 0 <= i < |selected| :: selected[i];
    assert w.weekly ==> selected[0] == WindowApplied(sub.weeklyStart, cycle);
    assert w.monthly ==> selected[|selected| - 1] == WindowApplied(sub.monthlyStart, cycle);
  }

  /** At least one periodic window is selected and every selected one is applied. */
  predicate Applied(sub: Subscription, w: Windows, cycle: int) {
    (w.weekly || w.monthly) && AlreadyApplied(sub, w, cycle)
  }

  predicate BoundaryAccepted(w: Windows, cycle: int, now: int) {
    (w.weekly || w.monthly) && now < cycle <= now + WEEK + BOUNDARY_TOLERANCE
  }

  function Cleared(sub: Subscription, w: Windows, cycle: int, dayStart: int): Subscription {
    var s1 := if w.daily then sub.(dailyUsage := 0.0, dailyStart := Some(dayStart)) else sub;
    var s2 := if w.weekly then s1.(weeklyUsage := 0.0, weeklyStart := Some(cycle - WEEK)) else s1;
    if w.monthly then s2.(monthlyUsage := 0.0, monthlyStart := Some(cycle - WEEK)) else s2
  }

  /** The row after the locked transaction, the reply, and whether usage was cleared. */
  function ResetForCycle(sub: Subscription, w: Windows, cycle: int, now: int, dayStart: int)
    : (result: (Subscription, Reply, bool))
  {
    if !BoundaryAccepted(w, cycle, now) then (sub, InvalidCycle, false)
    else if !sub.active || sub.expiresAt <= now then (sub, Expired, false)
    else if AlreadyApplied(sub, w, cycle) then (sub, Updated(sub), false)
    else
      var after := Cleared(sub, w, cycle, dayStart);
      (after, Updated(after), true)
  }

  /** A window that is selected is empty and starts at the cycle's start; another is as before. */
  predicate Restarted(selected: bool, before: (real, Option<int>), after: (real, Option<int>), start: int) {
    after == if selected then (0.0, Some(start)) else before
  }

  class SubscriptionRow {
    var row: Subscription
    ghost var clears: nat

    constructor (sub: Subscription)
      ensures row == sub && clears == 0
    {
      row, clears := sub, 0;
    }

    method ResetUsageWindows(w: Windows, dayStart: int, start: int)
      modifies this
      ensures row == Cleared(old(row), w, start + WEEK, dayStart)
      ensures Restarted(w.daily, (old(row).dailyUsage, old(row).dailyStart), (row.dailyUsage, row.dailyStart), dayStart)
      ensures Restarted(w.weekly, (old(row).weeklyUsage, old(row).weeklyStart),
                        (row.weeklyUsage, row.weeklyStart), start)
      ensures Restarted(w.monthly, (old(row).monthlyUsage, old(row).monthlyStart),
                        (row.monthlyUsage, row.monthlyStart), start)
      ensures row.groupId == old(row).groupId && row.active == old(row).active && row.deleted == old(row).deleted
           && row.expiresAt == old(row).expiresAt
      ensures clears == old(clears) + 1
    {
      if w.daily {
        row := row.(dailyUsage := 0.0, dailyStart := Some(dayStart));
      }
      if w.weekly {
        row := row.(weeklyUsage := 0.0, weeklyStart := Some(start));
      }
      if w.monthly {
        row := row.(monthlyUsage := 0.0, monthlyStart := Some(start));
      }
      clears := clears + 1;
    }

    method AdminResetQuotaForCycle(w: Windows, nextReset: int, now: int, dayStart: int) returns (reply: Reply)
      modifies this
      ensures (row, reply, clears > old(clears)) == ResetForCycle(old(row), w, nextReset, now, dayStart)
      ensures old(clears) <= clears <= old(clears) + 1
      ensures reply.InvalidCycle? <==>
        !(w.weekly || w.monthly) || nextReset <= now || nextReset > now + 7 * DAY + 5 * MINUTE
      ensures reply.Expired? <==> !reply.InvalidCycle? && (!old(row).active || old(row).expiresAt <= now)
    {
      if (!w.weekly && !w.monthly) || !(nextReset > now) || nextReset > now + WEEK + BOUNDARY_TOLERANCE {
        return InvalidCycle;
      }
      var anchor := nextReset - WEEK;
      if !row.active || !(row.expiresAt > now) {
        return Expired;
      }
      var applied := AlreadyApplied(row, w, nextReset);
      if !applied {
        ResetUsageWindows(w, dayStart, anchor);
      }
      return Updated(row);
    }
  }

  // ----- agreement, alignment, acceptance -----

  ghost predicate TestsAgree(w: Windows) {
    forall sub, cycle :: Applied(sub, w, cycle) <==> AlreadyApplied(sub, w, cycle)
  }

  /** Sidecar and host agree on every row and cycle exactly when a periodic window is selected. */
  lemma {:induction false} TestsAgreeIffPeriodic(w: Windows)
    ensures TestsAgree(w) <==> w.weekly || w.monthly
  {
    var sub := Subscription(0, true, false, 0, None, None, None, 0.0, 0.0, 0.0);
    assert AlreadyApplied(sub, Windows(w.daily, false, false), 0);
    assert !Applied(sub, Windows(w.daily, false, false), 0);
  }

  /** An answered reset leaves the row aligned, so repeating it clears nothing; a refusal changes nothing. */
  lemma {:induction false} ResetAlignsOnce(sub: Subscription, w: Windows, cycle: int, now: int, later: int,
                                           dayStart: int)
    ensures var (after, reply, cleared) := ResetForCycle(sub, w, cycle, now, dayStart);
            && (reply.Updated? ==> reply.sub == after && Applied(after, w, cycle))
            && (cleared <==> reply.Updated? && !Applied(sub, w, cycle))
            && (!cleared ==> after == sub)
            && (reply.Updated? ==> !ResetForCycle(after, w, cycle, later, dayStart).2)
  {
  }

  /** Rollover of selected windows to starts at or after the cycle keeps a row aligned. */
  predicate RolledOver(before: Option<int>, after: Option<int>, cycle: int) {
    after == before || (after.Some? && after.value >= cycle)
  }

  lemma {:induction false} RolloverKeepsAlignment(before: Subscription, after: Subscription, w: Windows, cycle: int)
    requires Applied(before, w, cycle)
    requires w.weekly ==> RolledOver(before.weeklyStart, after.weeklyStart, cycle)
    requires w.monthly ==> RolledOver(before.monthlyStart, after.monthlyStart, cycle)
    ensures Applied(after, w, cycle)
  {
  }

  /**
   The boundary of a reset verdict, as the host sees it: accepted at every clock reading from the
   sample until five minutes after it; never too far ahead from the sample on; and, once its own
   time has come, refused for good.
   */
  lemma {:induction false} HostAcceptsDetectedCycle(st: State, sn: Snapshot, c: Thresholds, w: Windows, now: int)
    requires c.Accepted() && Decide(Some(st), sn, c).Reset? && (w.weekly || w.monthly)
    ensures sn.sampleAt <= now <= sn.sampleAt + BOUNDARY_TOLERANCE ==> BoundaryAccepted(w, sn.resetAt, now)
    ensures now >= sn.sampleAt ==> (BoundaryAccepted(w, sn.resetAt, now) <==> now < sn.resetAt)
  {
    AcceptedResetIsSound(st, sn, c);
  }
}
