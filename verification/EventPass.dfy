/**
 A whole pass over the pending events (`process_pending_events`, `process_balance_event`), and what
 it can and cannot change: durable progress, counts, completion.
 */
module EventPass {
  import opened Common
  import opened StateStore
  import opened HostCycle
  import opened RetryEngine

  // ----- the pass -----

  /** A user attribute as the batch read reports it. */
  datatype RawValue = Absent | Blank | NotNumeric | NotFinite | Number(value: real)

  /** `parse_balance_value`: only a positive number is a balance. */
  function ParseBalance(raw: RawValue): Option<real> {
    if raw.Number? && raw.value > 0.0 then Some(raw.value) else None
  }

  /** `set_user_balance` answered, answered 404, or raised (applied or not: the operation is a `set`). */
  datatype SetReply = SetOk | UserMissing | SetFailed

  /** `attributes` is None when the definition lookup or the batch read raised. */
  datatype BalanceFaults = BalanceFaults(attributes: Option<map<int, RawValue>>, replies: map<int, SetReply>)

  datatype Counts = Counts(done: nat, skipped: nat, failed: nat) {
    function Plus(other: Counts): Counts {
      Counts(done + other.done, skipped + other.skipped, failed + other.failed)
    }
  }

  const ZERO := Counts(0, 0, 0)

  datatype Outside = Outside(visits: (nat, int) -> Faults, balances: nat -> BalanceFaults)

  function PendingIds(e: Event): seq<int> {
    SortedIds(set id | id in e.resetTargets && !e.resetTargets[id].Terminal())
  }

  function PendingUsers(e: Event): seq<int> {
    SortedIds(set user | user in e.balanceTargets && !e.balanceTargets[user].status.Terminal())
  }

  function PendingEvents(events: seq<Event>): seq<nat> {
    if events == [] then [] else
      var n := |events| - 1;
      PendingEvents(events[..n]) + if events[n].complete then [] else [n]
  }

  function VisitTargets(s: Sys, event: nat, ids: seq<int>, o: Outside): Sys {
    if ids == [] then s else
      var n := |ids| - 1;
      var before := VisitTargets(s, event, ids[..n], o);
      if HasTarget(before, event, ids[n])
      then VisitTarget(before, event, ids[n], o.visits(event, ids[n])) else before
  }

  function FreshTarget(row: BalanceRow, user: int, attributes: map<int, RawValue>): real {
    var given := ParseBalance(if user in attributes then attributes[user] else Absent);
    if given.Some? then given.value else row.target
  }

  function Verdict(user: int, replies: map<int, SetReply>): TargetStatus {
    if user !in replies then Failed else
    match replies[user] case SetOk => Done case UserMissing => Skipped case SetFailed => Failed
  }

  function Tally(status: TargetStatus): Counts {
    match status case Done => Counts(1, 0, 0) case Skipped => Counts(0, 1, 0) case _ => Counts(0, 0, 1)
  }

  predicate HasUser(s: Sys, event: nat, user: int) {
    event < |s.db.events| && user in s.db.events[event].balanceTargets
  }

  /** Re-read the target, mark it processing, set the balance, mark the outcome. */
  function SettleUser(s: Sys, event: nat, user: int, attributes: map<int, RawValue>, status: TargetStatus): Sys
    requires HasUser(s, event, user)
  {
    var target := FreshTarget(s.db.events[event].balanceTargets[user], user, attributes);
    s.(db := WithBalanceRow(s.db, event, user, BalanceRow(target, status)),
       sets := s.sets + [SetCall(event, user, target)])
  }

  function SettleUsers(s: Sys, event: nat, users: seq<int>, attributes: map<int, RawValue>,
                       replies: map<int, SetReply>): Sys {
    if users == [] then s else
      var n := |users| - 1;
      var before := SettleUsers(s, event, users[..n], attributes, replies);
      if HasUser(before, event, users[n])
      then SettleUser(before, event, users[n], attributes, Verdict(users[n], replies)) else before
  }

  function TallyUsers(users: seq<int>, replies: map<int, SetReply>): Counts {
    if users == [] then ZERO else
      TallyUsers(users[..|users| - 1], replies).Plus(Tally(Verdict(users[|users| - 1], replies)))
  }

  function FailUsers(s: Sys, event: nat, users: seq<int>): Sys {
    if users == [] then s else
      var n := |users| - 1;
      var before := FailUsers(s, event, users[..n]);
      if HasUser(before, event, users[n])
      then before.(db := WithBalanceRow(before.db, event, users[n],
                           before.db.events[event].balanceTargets[users[n]].(status := Failed)))
      else before
  }

  function FinishAt(s: Sys, event: nat, e: Event): Sys
    requires event < |s.db.events|
  {
    s.(db := s.db.(events := s.db.events[event := e]))
  }

  function SubscriptionsProcessed(s: Sys, event: nat, o: Outside): Sys
    requires event < |s.db.events|
  {
    var t := VisitTargets(s, event, PendingIds(s.db.events[event]), o);
    if event < |t.db.events| then FinishAt(t, event, Finished(t.db.events[event])) else t
  }

  function BalancesSettled(s: Sys, event: nat, b: BalanceFaults): Sys
    requires event < |s.db.events|
  {
    var users := PendingUsers(s.db.events[event]);
    if b.attributes.None? then FailUsers(s, event, users)
    else SettleUsers(s, event, users, b.attributes.value, b.replies)
  }

  function BalancesProcessed(s: Sys, event: nat, b: BalanceFaults): Sys
    requires event < |s.db.events|
  {
    var t := BalancesSettled(s, event, b);
    if event < |t.db.events| then FinishAt(t, event, BalanceFinished(t.db.events[event])) else t
  }

  function BalanceCounts(e: Event, b: BalanceFaults): Counts {
    var users := PendingUsers(e);
    if b.attributes.None? then Counts(0, 0, |users|) else TallyUsers(users, b.replies)
  }

  function EventProcessed(s: Sys, event: nat, o: Outside): Sys
    requires event < |s.db.events|
  {
    if s.db.events[event].balanceTargets != map[] then BalancesProcessed(s, event, o.balances(event))
    else SubscriptionsProcessed(s, event, o)
  }

  function EventsProcessed(s: Sys, events: seq<nat>, o: Outside): Sys {
    if events == [] then s else
      var n := |events| - 1;
      var before := EventsProcessed(s, events[..n], o);
      if events[n] < |before.db.events| then EventProcessed(before, events[n], o) else before
  }

  function Pass(s: Sys, o: Outside): Sys {
    EventsProcessed(s, PendingEvents(s.db.events), o)
  }

  // ----- durable progress -----

  ghost predicate Positive(e: Event) {
    forall user | user in e.balanceTargets :: e.balanceTargets[user].target > 0.0
  }

  predicate SameFrozen(e: Event, f: Event) {
    e.accountId == f.accountId && e.cycleResetAt == f.cycleResetAt && e.groupIds == f.groupIds && e.windows == f.windows
  }

  /** Frozen fields and target sets stay; a terminal target keeps its row; positive balances stay positive. */
  ghost predicate EventProgressed(e: Event, f: Event) {
    && SameFrozen(e, f)
    && f.resetTargets.Keys == e.resetTargets.Keys
    && f.balanceTargets.Keys == e.balanceTargets.Keys
    && (forall id | id in e.resetTargets && e.resetTargets[id].Terminal() :: f.resetTargets[id] == e.resetTargets[id])
    && (forall user | user in e.balanceTargets && e.balanceTargets[user].status.Terminal() ::
          f.balanceTargets[user] == e.balanceTargets[user])
    && (Positive(e) ==> Positive(f))
  }

  /** A POST for an open target, with the windows and the cycle frozen in its event. */
  ghost predicate PostJustified(s: Sys, c: PostCall) {
    && HasTarget(s, c.event, c.id)
    && var e := s.db.events[c.event];
    && !e.resetTargets[c.id].Terminal()
    && c.windows == e.windows && c.cycle == e.cycleResetAt
  }

  /** A set call for an open target, never to zero or below. */
  ghost predicate SetJustified(s: Sys, c: SetCall) {
    && HasUser(s, c.event, c.user)
    && var e := s.db.events[c.event];
    && !e.balanceTargets[c.user].status.Terminal()
    && (Positive(e) ==> c.balance > 0.0)
  }

  ghost predicate Progressed(s: Sys, t: Sys) {
    && t.db.accounts == s.db.accounts
    && |t.db.events| == |s.db.events|
    && (forall i | 0 <= i < |s.db.events| :: EventProgressed(s.db.events[i], t.db.events[i]))
    && s.posts <= t.posts && s.sets <= t.sets
    && (forall k | |s.posts| <= k < |t.posts| :: PostJustified(s, t.posts[k]))
    && (forall k | |s.sets| <= k < |t.sets| :: SetJustified(s, t.sets[k]))
  }

  lemma {:induction false} ProgressedTransitive(s: Sys, t: Sys, u: Sys)
    requires Progressed(s, t) && Progressed(t, u)
    ensures Progressed(s, u)
  {
    forall i | 0 <= i < |s.db.events| ensures EventProgressed(s.db.events[i], u.db.events[i]) {
      assert EventProgressed(s.db.events[i], t.db.events[i]);
      assert EventProgressed(t.db.events[i], u.db.events[i]);
    }
    forall k | |s.posts| <= k < |u.posts| ensures PostJustified(s, u.posts[k]) {
      if k < |t.posts| {
        assert u.posts[k] == t.posts[k];
      } else {
        assert PostJustified(t, u.posts[k]);
        assert EventProgressed(s.db.events[u.posts[k].event], t.db.events[u.posts[k].event]);
      }
    }
    forall k | |s.sets| <= k < |u.sets| ensures SetJustified(s, u.sets[k]) {
      if k < |t.sets| {
        assert u.sets[k] == t.sets[k];
      } else {
        assert SetJustified(t, u.sets[k]);
        assert EventProgressed(s.db.events[u.sets[k].event], t.db.events[u.sets[k].event]);
      }
    }
  }

  lemma {:induction false} CutVisitProgresses(s: Sys, event: nat, id: int, f: Faults, k: nat)
    requires HasTarget(s, event, id) && !s.db.events[event].resetTargets[id].Terminal()
    ensures Progressed(s, CutVisit(s, event, id, f, k))
  {
  }

  lemma {:induction false} VisitProgresses(s: Sys, event: nat, id: int, f: Faults)
    requires HasTarget(s, event, id) && !s.db.events[event].resetTargets[id].Terminal()
    ensures Progressed(s, VisitTarget(s, event, id, f))
  {
  }

  lemma {:induction false} SettleProgresses(s: Sys, event: nat, user: int, attributes: map<int, RawValue>,
                                            status: TargetStatus)
    requires HasUser(s, event, user) && !s.db.events[event].balanceTargets[user].status.Terminal()
    ensures Progressed(s, SettleUser(s, event, user, attributes, status))
  {
  }

  /** Every event other than `event` is left exactly as it was. */
  ghost predicate OthersKept(s: Sys, t: Sys, event: nat) {
    && |t.db.events| == |s.db.events|
    && forall i | 0 <= i < |s.db.events| && i != event :: t.db.events[i] == s.db.events[i]
  }

  ghost predicate OpenIds(e: Event, ids: seq<int>) {
    && StrictlyIncreasing(ids)
    && forall id | id in ids :: id in e.resetTargets && !e.resetTargets[id].Terminal()
  }

  ghost predicate OpenUsers(e: Event, users: seq<int>) {
    && StrictlyIncreasing(users)
    && forall user | user in users :: user in e.balanceTargets && !e.balanceTargets[user].status.Terminal()
  }

  lemma {:induction false} DropLast(ids: seq<int>)
    requires StrictlyIncreasing(ids) && ids != []
    ensures StrictlyIncreasing(ids[..|ids| - 1]) && ids[|ids| - 1] !in ids[..|ids| - 1]
    ensures forall id :: id in ids <==> id in ids[..|ids| - 1] || id == ids[|ids| - 1]
  {
    assert ids == ids[..|ids| - 1] + [ids[|ids| - 1]];
  }

  lemma {:induction false} VisitsProgress(s: Sys, event: nat, ids: seq<int>, o: Outside)
    requires event < |s.db.events| && OpenIds(s.db.events[event], ids)
    ensures var t := VisitTargets(s, event, ids, o);
            && Progressed(s, t) && OthersKept(s, t, event)
            && t.db.events[event].balanceTargets == s.db.events[event].balanceTargets
            && forall id | id in s.db.events[event].resetTargets && id !in ids ::
                 t.db.events[event].resetTargets[id] == s.db.events[event].resetTargets[id]
  {
    if ids != [] {
      DropLast(ids);
      var n := |ids| - 1;
      VisitsProgress(s, event, ids[..n], o);
      var before := VisitTargets(s, event, ids[..n], o);
      assert EventProgressed(s.db.events[event], before.db.events[event]);
      VisitProgresses(before, event, ids[n], o.visits(event, ids[n]));
      ProgressedTransitive(s, before, VisitTarget(before, event, ids[n], o.visits(event, ids[n])));
    }
  }

  lemma {:induction false} SettlesProgress(s: Sys, event: nat, users: seq<int>, attributes: map<int, RawValue>,
                                           replies: map<int, SetReply>)
    requires event < |s.db.events| && OpenUsers(s.db.events[event], users)
    ensures var t := SettleUsers(s, event, users, attributes, replies);
            && Progressed(s, t) && OthersKept(s, t, event)
            && t.db.events[event].resetTargets == s.db.events[event].resetTargets
            && (forall user | user in users :: t.db.events[event].balanceTargets[user]
                  == BalanceRow(FreshTarget(s.db.events[event].balanceTargets[user], user, attributes),
                                Verdict(user, replies)))
            && forall user | user in s.db.events[event].balanceTargets && user !in users ::
                 t.db.events[event].balanceTargets[user] == s.db.events[event].balanceTargets[user]
  {
    if users != [] {
      DropLast(users);
      var n := |users| - 1;
      SettlesProgress(s, event, users[..n], attributes, replies);
      var before := SettleUsers(s, event, users[..n], attributes, replies);
      assert EventProgressed(s.db.events[event], before.db.events[event]);
      var after := SettleUser(before, event, users[n], attributes, Verdict(users[n], replies));
      SettleProgresses(before, event, users[n], attributes, Verdict(users[n], replies));
      ProgressedTransitive(s, before, after);
    }
  }

  lemma {:induction false} FailProgresses(s: Sys, event: nat, user: int)
    requires HasUser(s, event, user) && !s.db.events[event].balanceTargets[user].status.Terminal()
    ensures var row := s.db.events[event].balanceTargets[user].(status := Failed);
            var t := s.(db := WithBalanceRow(s.db, event, user, row));
            && Progressed(s, t) && OthersKept(s, t, event)
            && t.db.events[event]
                 == s.db.events[event].(balanceTargets := s.db.events[event].balanceTargets[user := row])
  {
  }

  lemma {:induction false} FailsProgress(s: Sys, event: nat, users: seq<int>)
    requires event < |s.db.events| && OpenUsers(s.db.events[event], users)
    ensures var t := FailUsers(s, event, users);
            && Progressed(s, t) && OthersKept(s, t, event)
            && t.db.events[event].resetTargets == s.db.events[event].resetTargets
            && forall user | user in s.db.events[event].balanceTargets ::
                 t.db.events[event].balanceTargets[user]
                   == if user in users then s.db.events[event].balanceTargets[user].(status := Failed)
                      else s.db.events[event].balanceTargets[user]
  {
    if users != [] {
      DropLast(users);
      var n := |users| - 1;
      FailsProgress(s, event, users[..n]);
      var before := FailUsers(s, event, users[..n]);
      assert EventProgressed(s.db.events[event], before.db.events[event]);
      assert users[n] in users && users[n] in before.db.events[event].balanceTargets.Keys;
      FailProgresses(before, event, users[n]);
      ProgressedTransitive(s, before, FailUsers(s, event, users));
    }
  }

  lemma {:induction false} BalancesSettledProgress(s: Sys, event: nat, b: BalanceFaults)
    requires event < |s.db.events|
    ensures var t := BalancesSettled(s, event, b);
            && Progressed(s, t) && OthersKept(s, t, event)
            && t.db.events[event].resetTargets == s.db.events[event].resetTargets
  {
    var users := PendingUsers(s.db.events[event]);
    if b.attributes.None? {
      FailsProgress(s, event, users);
    } else {
      SettlesProgress(s, event, users, b.attributes.value, b.replies);
    }
  }

  lemma {:induction false} FinishProgresses(s: Sys, event: nat, e: Event)
    requires event < |s.db.events|
    requires e == s.db.events[event].(complete := e.complete)
    ensures Progressed(s, FinishAt(s, event, e)) && OthersKept(s, FinishAt(s, event, e), event)
  {
  }

  /** All targets of the event's own kind are terminal. */
  predicate Settled(e: Event) {
    if e.balanceTargets != map[] then AllSettled(e.balanceTargets) else AllTerminal(e.resetTargets)
  }

  lemma {:induction false} EventProcessedProgress(s: Sys, event: nat, o: Outside)
    requires event < |s.db.events|
    ensures var t := EventProcessed(s, event, o);
            && Progressed(s, t) && OthersKept(s, t, event)
            && (t.db.events[event].complete <==> Settled(t.db.events[event]))
  {
    var e := s.db.events[event];
    if e.balanceTargets != map[] {
      BalancesSettledProgress(s, event, o.balances(event));
      var mid := BalancesSettled(s, event, o.balances(event));
      assert EventProgressed(e, mid.db.events[event]);
      FinishProgresses(mid, event, BalanceFinished(mid.db.events[event]));
      ProgressedTransitive(s, mid, EventProcessed(s, event, o));
      assert mid.db.events[event].balanceTargets.Keys != {};
    } else {
      VisitsProgress(s, event, PendingIds(e), o);
      var mid := VisitTargets(s, event, PendingIds(e), o);
      FinishProgresses(mid, event, Finished(mid.db.events[event]));
      ProgressedTransitive(s, mid, EventProcessed(s, event, o));
    }
  }

  lemma {:induction false} PendingEventsMembers(events: seq<Event>, k: int)
    ensures k in PendingEvents(events) <==> 0 <= k < |events| && !events[k].complete
  {
    if events != [] {
      PendingEventsMembers(events[..|events| - 1], k);
    }
  }

  predicate AscendBelow(ids: seq<nat>, bound: nat) {
    && (forall i | 0 <= i < |ids| :: ids[i] < bound)
    && (forall i, j | 0 <= i < j < |ids| :: ids[i] < ids[j])
  }

  lemma {:induction false} PendingEventsAscend(events: seq<Event>)
    ensures AscendBelow(PendingEvents(events), |events|)
  {
    if events != [] {
      PendingEventsAscend(events[..|events| - 1]);
    }
  }

  lemma {:induction false} PendingEventsOrdered(events: seq<Event>)
    ensures var ids := PendingEvents(events);
            && (forall i, j | 0 <= i < j < |ids| :: ids[i] < ids[j])
            && (forall k :: k in ids <==> 0 <= k < |events| && !events[k].complete)
  {
    PendingEventsAscend(events);
    forall k ensures k in PendingEvents(events) <==> 0 <= k < |events| && !events[k].complete {
      PendingEventsMembers(events, k);
    }
  }

  lemma {:induction false} EventsProcessedProgress(s: Sys, events: seq<nat>, o: Outside)
    requires forall i, j | 0 <= i < j < |events| :: events[i] < events[j]
    requires forall k | k in events :: k < |s.db.events|
    ensures var t := EventsProcessed(s, events, o);
            && Progressed(s, t)
            && (forall k | 0 <= k < |s.db.events| && k !in events :: t.db.events[k] == s.db.events[k])
            && (forall k | k in events :: t.db.events[k].complete <==> Settled(t.db.events[k]))
  {
    if events != [] {
      var n := |events| - 1;
      assert events == events[..n] + [events[n]];
      assert forall k :: k in events <==> k in events[..n] || k == events[n];
      EventsProcessedProgress(s, events[..n], o);
      var before := EventsProcessed(s, events[..n], o);
      assert events[n] in events && events[n] !in events[..n];
      EventProcessedProgress(before, events[n], o);
      ProgressedTransitive(s, before, EventProcessed(before, events[n], o));
    }
  }

  /**
   One pass, whatever fails in it: terminal targets keep their rows and receive no write call, no
   target becomes open, every call carries the windows and cycle frozen at creation, and each
   pending event ends complete exactly when all its targets are terminal; complete events are untouched.
   */
  lemma {:induction false} PassProgress(s: Sys, o: Outside)
    ensures Progressed(s, Pass(s, o))
    ensures var t := Pass(s, o);
            forall k | 0 <= k < |s.db.events| ::
              if s.db.events[k].complete then t.db.events[k] == s.db.events[k]
              else t.db.events[k].complete <==> Settled(t.db.events[k])
  {
    PendingEventsOrdered(s.db.events);
    EventsProcessedProgress(s, PendingEvents(s.db.events), o);
  }

  /** The open targets of an event are among those open before: their number never rises. */
  lemma {:induction false} OpenTargetsNeverRise(e: Event, f: Event)
    requires EventProgressed(e, f)
    ensures var open := (set id | id in e.resetTargets && !e.resetTargets[id].Terminal());
            var left := (set id | id in f.resetTargets && !f.resetTargets[id].Terminal());
            left <= open && |left| <= |open|
    ensures var open := (set user | user in e.balanceTargets && !e.balanceTargets[user].status.Terminal());
            var left := (set user | user in f.balanceTargets && !f.balanceTargets[user].status.Terminal());
            left <= open && |left| <= |open|
  {
    var open := set id | id in e.resetTargets && !e.resetTargets[id].Terminal();
    var left := set id | id in f.resetTargets && !f.resetTargets[id].Terminal();
    forall id | id in left ensures id in open {
      assert id in e.resetTargets.Keys;
    }
    SubsetSize(left, open);
    var openUsers := set user | user in e.balanceTargets && !e.balanceTargets[user].status.Terminal();
    var leftUsers := set user | user in f.balanceTargets && !f.balanceTargets[user].status.Terminal();
    forall user | user in leftUsers ensures user in openUsers {
      assert user in e.balanceTargets.Keys;
    }
    SubsetSize(leftUsers, openUsers);
  }

  lemma {:induction false} SubsetSize(a: set<int>, b: set<int>)
    requires a <= b
    ensures |a| <= |b|
  {
    assert b == a + (b - a);
  }

  // ----- which visits settle, and which events a pass completes -----

  /** The host carries the reset out: the request arrived, in time, for a row it takes for active. */
  predicate HostResets(row: Subscription, e: Event, f: Faults) {
    && !f.delivery.NotSent? && BoundaryAccepted(e.windows, e.cycleResetAt, f.hostNow)
    && row.active && row.expiresAt > f.hostNow
  }

  /**
   One uninterrupted visit from end to end: when it posts, when the host clears, and when the target
   ends done, skipped or failed, each with its exact condition. The row is served if it was read, lies in one
   of the event's groups, and is active, not deleted and not expired.
   */
  lemma {:induction false} VisitOutcome(status: TargetStatus, row: Option<Subscription>, e: Event, f: Faults)
    ensures var v := RunVisit(FreshVisit(status, row), e, f);
            var seen := && !f.getFails && row.Some?
                        && row.value.groupId in e.groupIds && row.value.active && !row.value.deleted
                        && row.value.expiresAt > f.now;
            var aligned := row.Some? && Applied(row.value, e.windows, e.cycleResetAt);
            var shown := f.delivery.Delivered? || (f.delivery.WindowsOmitted? && !f.againFails);
            && (v.posted <==> seen && !aligned)
            && (v.cleared <==> seen && !aligned && HostResets(row.value, e, f))
            && v.host == (if v.cleared then Some(Cleared(row.value, e.windows, e.cycleResetAt, f.dayStart)) else row)
            && (v.status == Skipped <==> !f.getFails && !seen)
            && (v.status == Done <==> seen && (aligned || (HostResets(row.value, e, f) && shown)))
            && (v.status.Terminal() || v.status == Failed)
  {
    StepsReachEnd(FreshVisit(status, row), e, f, 7);
    var v1 := VisitStep(FreshVisit(status, row), e, f);
    var v2 := VisitStep(v1, e, f);
    var v3 := VisitStep(v2, e, f);
    var v4 := VisitStep(v3, e, f);
    var v5 := VisitStep(v4, e, f);
    assert Steps(FreshVisit(status, row), e, f, 7) == Steps(v5, e, f, 2);
  }

  /** The target is settled by a visit that finds this row. */
  predicate VisitSettles(row: Option<Subscription>, e: Event, f: Faults) {
    && !f.getFails
    && (|| row.None? || !Eligible(row.value, e.groupIds, f.now) || Applied(row.value, e.windows, e.cycleResetAt)
        || (HostResets(row.value, e, f) && (f.delivery.Delivered? || (f.delivery.WindowsOmitted? && !f.againFails))))
  }

  /**
   With both reads working and the request answered, the visit ends terminal exactly when the target is
   gone, ineligible or already aligned, or the host, by its own clock, is inside the cycle and takes the
   row for unexpired.
   */
  lemma {:induction false} AnsweredVisitIsTerminalIff(status: TargetStatus, row: Option<Subscription>, e: Event,
                                                      f: Faults)
    requires !f.getFails && !f.againFails && f.delivery.Answered()
    ensures var v := RunVisit(FreshVisit(status, row), e, f);
            v.status.Terminal() <==>
              || row.None? || !Eligible(row.value, e.groupIds, f.now)
              || Applied(row.value, e.windows, e.cycleResetAt)
              || (BoundaryAccepted(e.windows, e.cycleResetAt, f.hostNow) && row.value.expiresAt > f.hostNow)
  {
    VisitOutcome(status, row, e, f);
  }

  /** Only the visits of the listed ids touch their rows: every other row is as before. */
  lemma {:induction false} VisitsTouchTheirRows(s: Sys, event: nat, ids: seq<int>, o: Outside, id: int)
    requires id !in ids
    ensures Lookup(VisitTargets(s, event, ids, o).subs, id) == Lookup(s.subs, id)
  {
    if ids != [] {
      var n := |ids| - 1;
      assert ids == ids[..n] + [ids[n]];
      VisitsTouchTheirRows(s, event, ids[..n], o, id);
    }
  }

  /** The last visit settles its own target by the row it finds, and leaves the others' rows in the table. */
  lemma {:induction false} LastOfVisits(s: Sys, event: nat, ids: seq<int>, o: Outside)
    requires event < |s.db.events| && ids != [] && OpenIds(s.db.events[event], ids)
    ensures var n := |ids| - 1;
            var before, t := VisitTargets(s, event, ids[..n], o), VisitTargets(s, event, ids, o);
            && HasTarget(before, event, ids[n]) && HasTarget(t, event, ids[n])
            && (t.db.events[event].resetTargets[ids[n]].Terminal() <==>
                  VisitSettles(Lookup(before.subs, ids[n]), s.db.events[event], o.visits(event, ids[n])))
            && forall id | id in before.db.events[event].resetTargets && id != ids[n] ::
                 id in t.db.events[event].resetTargets
                 && t.db.events[event].resetTargets[id] == before.db.events[event].resetTargets[id]
  {
    DropLast(ids);
    var n := |ids| - 1;
    VisitsProgress(s, event, ids[..n], o);
    var before := VisitTargets(s, event, ids[..n], o);
    assert EventProgressed(s.db.events[event], before.db.events[event]);
    assert ids[n] in ids && ids[n] in before.db.events[event].resetTargets.Keys;
    LastVisitSettlesIff(before, event, ids[n], o.visits(event, ids[n]));
  }

  /** Each visited target ends terminal exactly when a visit finding the row it had at the start settles it. */
  lemma {:induction false} VisitsSettleIff(s: Sys, event: nat, ids: seq<int>, o: Outside, id: int)
    requires event < |s.db.events| && OpenIds(s.db.events[event], ids) && id in ids
    ensures var t := VisitTargets(s, event, ids, o);
            && event < |t.db.events| && id in t.db.events[event].resetTargets
            && (t.db.events[event].resetTargets[id].Terminal() <==>
                  VisitSettles(Lookup(s.subs, id), s.db.events[event], o.visits(event, id)))
  {
    DropLast(ids);
    var n := |ids| - 1;
    LastOfVisits(s, event, ids, o);
    if id == ids[n] {
      VisitsTouchTheirRows(s, event, ids[..n], o, id);
    } else {
      VisitsSettleIff(s, event, ids[..n], o, id);
    }
  }

  lemma {:induction false} LastVisitSettlesIff(s: Sys, event: nat, id: int, f: Faults)
    requires HasTarget(s, event, id)
    ensures var t := VisitTarget(s, event, id, f);
            && HasTarget(t, event, id)
            && (t.db.events[event].resetTargets[id].Terminal() <==>
                  VisitSettles(Lookup(s.subs, id), s.db.events[event], f))
  {
    var e := s.db.events[event];
    VisitOutcome(e.resetTargets[id], Lookup(s.subs, id), e, f);
  }

  /** Every open target of the event is settled in this turn, given the host rows at its start. */
  ghost predicate TurnSettles(s: Sys, event: nat, o: Outside)
    requires event < |s.db.events|
  {
    var e := s.db.events[event];
    if e.balanceTargets != map[] then
      forall user | user in PendingUsers(e) ::
        o.balances(event).attributes.Some? && Verdict(user, o.balances(event).replies) != Failed
    else forall id | id in PendingIds(e) :: VisitSettles(Lookup(s.subs, id), e, o.visits(event, id))
  }

  lemma {:induction false} SubscriptionTurnIff(s: Sys, event: nat, o: Outside)
    requires event < |s.db.events| && s.db.events[event].balanceTargets == map[]
    ensures |EventProcessed(s, event, o).db.events| == |s.db.events|
    ensures EventProcessed(s, event, o).db.events[event].complete <==> TurnSettles(s, event, o)
  {
    var e := s.db.events[event];
    var ids := PendingIds(e);
    VisitsProgress(s, event, ids, o);
    var f := VisitTargets(s, event, ids, o).db.events[event];
    assert EventProgressed(e, f) && f.resetTargets.Keys == e.resetTargets.Keys;
    forall id | id in f.resetTargets
      ensures f.resetTargets[id].Terminal()
         <==> (id in ids ==> VisitSettles(Lookup(s.subs, id), e, o.visits(event, id)))
    {
      assert id in e.resetTargets;
      if id in ids {
        VisitsSettleIff(s, event, ids, o, id);
      }
    }
    assert forall id | id in ids :: id in f.resetTargets.Keys;
  }

  lemma {:induction false} BalanceTurnIff(s: Sys, event: nat, o: Outside)
    requires event < |s.db.events| && s.db.events[event].balanceTargets != map[]
    ensures |EventProcessed(s, event, o).db.events| == |s.db.events|
    ensures EventProcessed(s, event, o).db.events[event].complete <==> TurnSettles(s, event, o)
  {
    var e := s.db.events[event];
    var users := PendingUsers(e);
    var b := o.balances(event);
    BalancesSettledProgress(s, event, b);
    var f := BalancesSettled(s, event, b).db.events[event];
    assert EventProgressed(e, f) && f.balanceTargets.Keys == e.balanceTargets.Keys;
    forall user | user in f.balanceTargets
      ensures f.balanceTargets[user].status.Terminal()
         <==> (user in users ==> b.attributes.Some? && Verdict(user, b.replies) != Failed)
    {
      assert user in e.balanceTargets;
      if b.attributes.Some? {
        SettlesProgress(s, event, users, b.attributes.value, b.replies);
      } else {
        FailsProgress(s, event, users);
      }
    }
    assert forall user | user in users :: user in f.balanceTargets.Keys;
  }

  /** The system when the turn of the pending event k comes. */
  function BeforeTurn(s: Sys, k: nat, o: Outside): Sys
    requires k < |s.db.events|
  {
    EventsProcessed(s, PendingEvents(s.db.events[..k]), o)
  }

  lemma {:induction false} PendingSplits(events: seq<Event>, k: nat) returns (rest: seq<nat>)
    requires k < |events| && !events[k].complete
    ensures PendingEvents(events) == PendingEvents(events[..k]) + [k] + rest && k !in rest
  {
    if k == |events| - 1 {
      rest := [];
      assert PendingEvents(events) == PendingEvents(events[..k]) + [k] + [];
    } else {
      var n := |events| - 1;
      var before := PendingSplits(events[..n], k);
      assert events[..n][..k] == events[..k];
      rest := before + if events[n].complete then [] else [n];
      assert PendingEvents(events) == PendingEvents(events[..k]) + [k] + rest;
    }
  }

  lemma {:induction false} EventsProcessedConcat(s: Sys, a: seq<nat>, b: seq<nat>, o: Outside)
    ensures EventsProcessed(s, a + b, o) == EventsProcessed(EventsProcessed(s, a, o), b, o)
  {
    if b == [] {
      assert a + b == a;
    } else {
      assert (a + b)[..|a + b| - 1] == a + b[..|b| - 1];
      EventsProcessedConcat(s, a, b[..|b| - 1], o);
    }
  }

  lemma {:induction false} AscendingParts(a: seq<nat>, b: seq<nat>, bound: nat)
    requires AscendBelow(a + b, bound)
    ensures AscendBelow(a, bound) && AscendBelow(b, bound)
  {
    assert forall i | 0 <= i < |a| :: (a + b)[i] == a[i];
    assert forall i | 0 <= i < |b| :: (a + b)[|a| + i] == b[i];
  }

  /** Processing other events afterwards leaves event k as it is. */
  lemma {:induction false} LaterTurnsKeep(s: Sys, rest: seq<nat>, k: nat, o: Outside)
    requires k < |s.db.events| && k !in rest && AscendBelow(rest, |s.db.events|)
    ensures var t := EventsProcessed(s, rest, o);
            |t.db.events| == |s.db.events| && t.db.events[k] == s.db.events[k]
  {
    EventsProcessedProgress(s, rest, o);
  }

  /**
   Whatever fails in a pass: a pending event ends it complete if and only if each of its open targets is
   settled in its turn, given the host rows that the turns before have left.
   */
  lemma {:induction false} PassCompletesIff(s: Sys, o: Outside, k: nat)
    requires k < |s.db.events| && !s.db.events[k].complete
    ensures |Pass(s, o).db.events| == |s.db.events| == |BeforeTurn(s, k, o).db.events|
    ensures BeforeTurn(s, k, o).db.events[k] == s.db.events[k]
    ensures Pass(s, o).db.events[k].complete <==> TurnSettles(BeforeTurn(s, k, o), k, o)
  {
    var earlier := PendingEvents(s.db.events[..k]);
    var rest := PendingSplits(s.db.events, k);
    PendingEventsAscend(s.db.events);
    AscendingParts(earlier + [k], rest, |s.db.events|);
    AscendingParts(earlier, [k], |s.db.events|);
    PendingEventsOrdered(s.db.events[..k]);
    EventsProcessedProgress(s, earlier, o);
    EventsProcessedConcat(s, earlier + [k], rest, o);
    var before := EventsProcessed(s, earlier, o);
    EventProcessedProgress(before, k, o);
    LaterTurnsKeep(EventProcessed(before, k, o), rest, k, o);
    assert before.db.events[k] == s.db.events[k];
    assert (earlier + [k])[..|earlier|] == earlier;
    if s.db.events[k].balanceTargets != map[] {
      BalanceTurnIff(before, k, o);
    } else {
      SubscriptionTurnIff(before, k, o);
    }
  }

  ghost predicate HealthyVisit(e: Event, f: Faults) {
    && !f.getFails && !f.againFails && f.delivery.Answered() && f.hostNow <= f.now
    && BoundaryAccepted(e.windows, e.cycleResetAt, f.hostNow)
  }

  ghost predicate HealthyBalances(e: Event, b: BalanceFaults) {
    && b.attributes.Some?
    && forall user | user in e.balanceTargets :: user in b.replies && !b.replies[user].SetFailed?
  }

  ghost predicate HealthyEvent(e: Event, event: nat, o: Outside) {
    if e.balanceTargets != map[] then HealthyBalances(e, o.balances(event))
    else forall id | id in e.resetTargets :: HealthyVisit(e, o.visits(event, id))
  }

  lemma {:induction false} HealthyEventCompletes(s: Sys, o: Outside, k: nat)
    requires k < |s.db.events| && !s.db.events[k].complete && HealthyEvent(s.db.events[k], k, o)
    ensures k < |Pass(s, o).db.events| && Pass(s, o).db.events[k].complete
  {
    PassCompletesIff(s, o, k);
  }

  /** One pass in which every call is answered inside the cycle completes every event, with targets or without. */
  lemma {:induction false} HealthyPassCompletes(s: Sys, o: Outside)
    requires forall k | 0 <= k < |s.db.events| && !s.db.events[k].complete :: HealthyEvent(s.db.events[k], k, o)
    ensures |Pass(s, o).db.events| == |s.db.events|
    ensures forall k | 0 <= k < |s.db.events| :: Pass(s, o).db.events[k].complete
  {
    PassProgress(s, o);
    forall k | 0 <= k < |s.db.events| ensures Pass(s, o).db.events[k].complete {
      if !s.db.events[k].complete {
        HealthyEventCompletes(s, o, k);
      }
    }
  }
}
