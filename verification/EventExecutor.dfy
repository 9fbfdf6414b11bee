/** The pass as the executor runs it, in place, and the counts it reports. */
module EventExecutor {
  import opened Common
  import opened StateStore
  import opened RetryEngine
  import opened EventPass

  method VisitPending(store: Store, host: AdminHost, event: nat, o: Outside)
    requires event < |store.events|
    modifies store, host
    ensures System(store, host) == SubscriptionsProcessed(old(System(store, host)), event, o)
  {
    ghost var start := System(store, host);
    var ids := PendingIds(store.events[event]);
    VisitAll(store, host, event, ids, o);
    VisitsShape(start, event, ids, |ids|, o);
    assert ids[..|ids|] == ids;
    store.FinishEvent(event);
  }

  method VisitAll(store: Store, host: AdminHost, event: nat, ids: seq<int>, o: Outside)
    requires event < |store.events| && OpenIds(store.events[event], ids)
    modifies store`events, host`subs, host`posts
    ensures System(store, host) == VisitTargets(old(System(store, host)), event, ids, o)
  {
    ghost var start := System(store, host);
    for i := 0 to |ids|
      invariant System(store, host) == VisitTargets(start, event, ids[..i], o)
    {
      assert ids[..i + 1][..i] == ids[..i];
      VisitsShape(start, event, ids, i, o);
      ProcessTarget(store, host, event, ids[i], o.visits(event, ids[i]));
    }
    assert ids[..|ids|] == ids;
  }

  lemma {:induction false} VisitsShape(s: Sys, event: nat, ids: seq<int>, i: nat, o: Outside)
    requires event < |s.db.events| && OpenIds(s.db.events[event], ids) && i <= |ids|
    ensures var t := VisitTargets(s, event, ids[..i], o);
            && |t.db.events| == |s.db.events|
            && (i < |ids| ==> HasTarget(t, event, ids[i]))
  {
    assert forall id | id in ids[..i] :: id in ids;
    VisitsProgress(s, event, ids[..i], o);
    assert EventProgressed(s.db.events[event], VisitTargets(s, event, ids[..i], o).db.events[event]);
    if i < |ids| {
      assert ids[i] in ids && ids[i] in s.db.events[event].resetTargets.Keys;
    }
  }

  lemma {:induction false} SettlesShape(s: Sys, event: nat, users: seq<int>, i: nat, attributes: map<int, RawValue>,
                                        replies: map<int, SetReply>)
    requires event < |s.db.events| && OpenUsers(s.db.events[event], users) && i <= |users|
    ensures var t := SettleUsers(s, event, users[..i], attributes, replies);
            && |t.db.events| == |s.db.events|
            && (i < |users| ==> HasUser(t, event, users[i]))
  {
    assert forall user | user in users[..i] :: user in users;
    SettlesProgress(s, event, users[..i], attributes, replies);
    assert EventProgressed(s.db.events[event], SettleUsers(s, event, users[..i], attributes, replies).db.events[event]);
    if i < |users| {
      assert users[i] in users && users[i] in s.db.events[event].balanceTargets.Keys;
    }
  }

  lemma {:induction false} FailsShape(s: Sys, event: nat, users: seq<int>, i: nat)
    requires event < |s.db.events| && OpenUsers(s.db.events[event], users) && i <= |users|
    ensures var t := FailUsers(s, event, users[..i]);
            && |t.db.events| == |s.db.events|
            && (i < |users| ==> HasUser(t, event, users[i]))
  {
    assert forall user | user in users[..i] :: user in users;
    FailsProgress(s, event, users[..i]);
    assert EventProgressed(s.db.events[event], FailUsers(s, event, users[..i]).db.events[event]);
    if i < |users| {
      assert users[i] in users && users[i] in s.db.events[event].balanceTargets.Keys;
    }
  }

  lemma {:induction false} PassShape(s: Sys, i: nat, o: Outside)
    requires i <= |PendingEvents(s.db.events)|
    ensures var t := EventsProcessed(s, PendingEvents(s.db.events)[..i], o);
            && |t.db.events| == |s.db.events|
            && (i < |PendingEvents(s.db.events)| ==> PendingEvents(s.db.events)[i] < |s.db.events|)
  {
    PendingEventsOrdered(s.db.events);
    var pending := PendingEvents(s.db.events);
    assert forall k | k in pending[..i] :: k in pending;
    EventsProcessedProgress(s, pending[..i], o);
    assert i < |pending| ==> pending[i] in pending;
  }

  method SettleOne(store: Store, host: AdminHost, event: nat, user: int, attributes: map<int, RawValue>,
                   replies: map<int, SetReply>)
    returns (outcome: TargetStatus)
    requires HasUser(System(store, host), event, user)
    modifies store`events, host`sets
    ensures outcome == Verdict(user, replies)
    ensures System(store, host) == SettleUser(old(System(store, host)), event, user, attributes, outcome)
  {
    var target := store.events[event].balanceTargets[user].target;
    var given := ParseBalance(if user in attributes then attributes[user] else Absent);
    if given.Some? && given.value != target {
      store.RetargetBalance(event, user, given.value);
      target := given.value;
    }
    store.MarkBalanceTarget(event, user, Processing);
    host.sets := host.sets + [SetCall(event, user, target)];
    outcome := Verdict(user, replies);
    store.MarkBalanceTarget(event, user, outcome);
    assert store.events[event] == old(store.events)[event].(
      balanceTargets := old(store.events)[event].balanceTargets[user := BalanceRow(target, outcome)]);
    assert store.events == old(store.events)[event := store.events[event]];
  }

  method FailAll(store: Store, host: AdminHost, event: nat, users: seq<int>)
    requires event < |store.events| && OpenUsers(store.events[event], users)
    modifies store`events
    ensures System(store, host) == FailUsers(old(System(store, host)), event, users)
  {
    ghost var start := System(store, host);
    for i := 0 to |users|
      invariant System(store, host) == FailUsers(start, event, users[..i])
    {
      assert users[..i + 1][..i] == users[..i];
      FailsShape(start, event, users, i);
      store.MarkBalanceTarget(event, users[i], Failed);
    }
    assert users[..|users|] == users;
  }

  method SettleAll(store: Store, host: AdminHost, event: nat, users: seq<int>, attributes: map<int, RawValue>,
                   replies: map<int, SetReply>)
    returns (counts: Counts)
    requires event < |store.events| && OpenUsers(store.events[event], users)
    modifies store`events, host`sets
    ensures System(store, host) == SettleUsers(old(System(store, host)), event, users, attributes, replies)
    ensures counts == TallyUsers(users, replies)
  {
    ghost var start := System(store, host);
    counts := ZERO;
    for i := 0 to |users|
      invariant System(store, host) == SettleUsers(start, event, users[..i], attributes, replies)
      invariant counts == TallyUsers(users[..i], replies)
    {
      assert users[..i + 1][..i] == users[..i];
      SettlesShape(start, event, users, i, attributes, replies);
      var outcome := SettleOne(store, host, event, users[i], attributes, replies);
      counts := counts.Plus(Tally(outcome));
    }
    assert users[..|users|] == users;
  }

  method ProcessBalanceEvent(store: Store, host: AdminHost, event: nat, b: BalanceFaults) returns (counts: Counts)
    requires event < |store.events|
    modifies store, host
    ensures System(store, host) == BalancesProcessed(old(System(store, host)), event, b)
    ensures counts == BalanceCounts(old(store.events)[event], b)
  {
    ghost var start := System(store, host);
    var users := PendingUsers(store.events[event]);
    match b.attributes {
      case None =>
        FailAll(store, host, event, users);
        counts := Counts(0, 0, |users|);
      case Some(attributes) =>
        counts := SettleAll(store, host, event, users, attributes, b.replies);
    }
    assert System(store, host) == BalancesSettled(start, event, b);
    BalancesSettledProgress(start, event, b);
    store.FinishBalanceEvent(event);
  }

  function EventCounts(e: Event, b: BalanceFaults): Counts {
    if e.balanceTargets != map[] then BalanceCounts(e, b) else ZERO
  }

  function EventsCounts(s: Sys, events: seq<nat>, o: Outside): Counts {
    if events == [] then ZERO else
      var n := |events| - 1;
      var before := EventsProcessed(s, events[..n], o);
      EventsCounts(s, events[..n], o).Plus(
        if events[n] < |before.db.events| then EventCounts(before.db.events[events[n]], o.balances(events[n]))
        else ZERO)
  }

  /** One pending event, of either kind. */
  method ProcessEvent(store: Store, host: AdminHost, event: nat, o: Outside) returns (counts: Counts)
    requires event < |store.events|
    modifies store, host
    ensures System(store, host) == EventProcessed(old(System(store, host)), event, o)
    ensures counts == EventCounts(old(store.events)[event], o.balances(event))
  {
    if store.events[event].balanceTargets != map[] {
      counts := ProcessBalanceEvent(store, host, event, o.balances(event));
    } else {
      VisitPending(store, host, event, o);
      counts := ZERO;
    }
  }

  /** The next event of a pass, after i of them. */
  lemma {:induction false} PassStep(s: Sys, i: nat, o: Outside)
    requires i < |PendingEvents(s.db.events)|
    ensures var events := PendingEvents(s.db.events);
            var before := EventsProcessed(s, events[..i], o);
            && events[i] < |before.db.events|
            && EventsProcessed(s, events[..i + 1], o) == EventProcessed(before, events[i], o)
            && EventsCounts(s, events[..i + 1], o)
                 == EventsCounts(s, events[..i], o).Plus(
                      EventCounts(before.db.events[events[i]], o.balances(events[i])))
  {
    PassShape(s, i, o);
    var events := PendingEvents(s.db.events);
    assert events[..i + 1][..i] == events[..i];
  }

  method ProcessPendingEvents(store: Store, host: AdminHost, o: Outside) returns (counts: Counts)
    modifies store, host
    ensures System(store, host) == Pass(old(System(store, host)), o)
    ensures counts == EventsCounts(old(System(store, host)), PendingEvents(old(store.events)), o)
  {
    ghost var start := System(store, host);
    var events := PendingEvents(store.events);
    counts := ZERO;
    for i := 0 to |events|
      invariant System(store, host) == EventsProcessed(start, events[..i], o)
      invariant counts == EventsCounts(start, events[..i], o)
    {
      PassStep(start, i, o);
      var more := ProcessEvent(store, host, events[i], o);
      counts := counts.Plus(more);
    }
    assert events[..|events|] == events;
  }

  // ----- what the counts mean -----

  lemma {:induction false} SortedLength(s: seq<int>, ids: set<int>)
    requires StrictlyIncreasing(s) && forall x :: x in s <==> x in ids
    ensures |s| == |ids|
  {
    if s == [] {
      assert forall x :: x !in ids;
      EmptyOrInhabited(ids);
    } else {
      DropLast(s);
      SortedLength(s[..|s| - 1], ids - {s[|s| - 1]});
    }
  }

  function Among(users: seq<int>, replies: map<int, SetReply>, status: TargetStatus): set<int> {
    set user | user in users && Verdict(user, replies) == status
  }

  lemma {:induction false} AmongSnoc(front: seq<int>, user: int, replies: map<int, SetReply>, status: TargetStatus)
    ensures Among(front + [user], replies, status)
         == Among(front, replies, status) + if Verdict(user, replies) == status then {user} else {}
  {
  }

  lemma {:induction false} AmongGrows(front: seq<int>, user: int, replies: map<int, SetReply>, status: TargetStatus)
    requires user !in front
    ensures |Among(front + [user], replies, status)|
         == |Among(front, replies, status)| + if Verdict(user, replies) == status then 1 else 0
  {
    AmongSnoc(front, user, replies, status);
    assert user !in Among(front, replies, status);
  }

  /** The part of a tally that counts one verdict. */
  function TallyOf(c: Counts, status: TargetStatus): nat {
    match status case Done => c.done case Skipped => c.skipped case _ => c.failed
  }

  lemma {:induction false} TallySnoc(front: seq<int>, user: int, replies: map<int, SetReply>, status: TargetStatus)
    requires status.Terminal() || status == Failed
    ensures TallyOf(TallyUsers(front + [user], replies), status)
         == TallyOf(TallyUsers(front, replies), status) + if Verdict(user, replies) == status then 1 else 0
  {
    assert (front + [user])[..|front|] == front;
  }

  lemma {:induction false} TallyCounts(users: seq<int>, replies: map<int, SetReply>, status: TargetStatus)
    requires StrictlyIncreasing(users) && (status.Terminal() || status == Failed)
    ensures TallyOf(TallyUsers(users, replies), status) == |Among(users, replies, status)|
  {
    if users == [] {
      assert Among(users, replies, status) == {};
    } else {
      var front, user := users[..|users| - 1], users[|users| - 1];
      assert users == front + [user] && user !in front by {
        DropLast(users);
      }
      TallyCounts(front, replies, status);
      AmongGrows(front, user, replies, status);
      TallySnoc(front, user, replies, status);
    }
  }

  lemma {:induction false} TallyTotals(users: seq<int>, replies: map<int, SetReply>)
    ensures var c := TallyUsers(users, replies); c.done + c.skipped + c.failed == |users|
  {
    if users != [] {
      TallyTotals(users[..|users| - 1], replies);
    }
  }

  lemma {:induction false} TallyExact(users: seq<int>, replies: map<int, SetReply>)
    requires StrictlyIncreasing(users)
    ensures var c := TallyUsers(users, replies);
            && c.done + c.skipped + c.failed == |users|
            && c.done == |Among(users, replies, Done)|
            && c.skipped == |Among(users, replies, Skipped)|
            && c.failed == |Among(users, replies, Failed)|
  {
    TallyTotals(users, replies);
    TallyCounts(users, replies, Done);
    TallyCounts(users, replies, Skipped);
    TallyCounts(users, replies, Failed);
  }

  function OpenUserSet(e: Event): set<int> {
    set user | user in e.balanceTargets && !e.balanceTargets[user].status.Terminal()
  }

  /** The users still open after an event is processed: those the pass found open and could not settle. */
  lemma {:induction false} OpenAfter(s: Sys, event: nat, b: BalanceFaults)
    requires event < |s.db.events|
    ensures |BalancesProcessed(s, event, b).db.events| == |s.db.events|
    ensures var users := PendingUsers(s.db.events[event]);
            OpenUserSet(BalancesProcessed(s, event, b).db.events[event])
              == if b.attributes.None? then OpenUserSet(s.db.events[event]) else Among(users, b.replies, Failed)
  {
    var e := s.db.events[event];
    var users := PendingUsers(e);
    BalancesSettledProgress(s, event, b);
    var f := BalancesSettled(s, event, b).db.events[event];
    assert EventProgressed(e, f);
    assert forall user :: user in f.balanceTargets.Keys <==> user in e.balanceTargets.Keys;
    if b.attributes.None? {
      FailsProgress(s, event, users);
      forall user ensures user in OpenUserSet(f) <==> user in OpenUserSet(e) {
        if user in users {
          assert user in e.balanceTargets;
        } else if user in e.balanceTargets {
          assert f.balanceTargets[user] == e.balanceTargets[user];
        }
      }
    } else {
      SettlesProgress(s, event, users, b.attributes.value, b.replies);
      forall user ensures user in OpenUserSet(f) <==> user in Among(users, b.replies, Failed) {
        if user in users {
          assert user in e.balanceTargets;
        } else if user in e.balanceTargets {
          assert f.balanceTargets[user] == e.balanceTargets[user];
        }
      }
    }
  }

  /** The users among these that the event now holds at a status. */
  function HeldAt(users: seq<int>, e: Event, status: TargetStatus): set<int> {
    set user | user in users && user in e.balanceTargets && e.balanceTargets[user].status == status
  }

  lemma {:induction false} HeldAfterSettling(s: Sys, event: nat, users: seq<int>, attributes: map<int, RawValue>,
                                             replies: map<int, SetReply>, status: TargetStatus)
    requires event < |s.db.events| && OpenUsers(s.db.events[event], users)
    ensures |SettleUsers(s, event, users, attributes, replies).db.events| == |s.db.events|
    ensures HeldAt(users, SettleUsers(s, event, users, attributes, replies).db.events[event], status)
         == Among(users, replies, status)
  {
    SettlesProgress(s, event, users, attributes, replies);
    var f := SettleUsers(s, event, users, attributes, replies).db.events[event];
    assert EventProgressed(s.db.events[event], f);
    forall user | user in users ensures user in f.balanceTargets {
      assert user in s.db.events[event].balanceTargets.Keys;
    }
  }

  lemma {:induction false} HeldAfterFailing(s: Sys, event: nat, users: seq<int>, status: TargetStatus)
    requires event < |s.db.events| && OpenUsers(s.db.events[event], users)
    ensures |FailUsers(s, event, users).db.events| == |s.db.events|
    ensures HeldAt(users, FailUsers(s, event, users).db.events[event], status)
         == if status == Failed then (set user | user in users) else {}
  {
    FailsProgress(s, event, users);
    var f := FailUsers(s, event, users).db.events[event];
    assert EventProgressed(s.db.events[event], f);
    forall user | user in users ensures user in f.balanceTargets && f.balanceTargets[user].status == Failed {
      assert user in s.db.events[event].balanceTargets.Keys;
    }
  }

  lemma {:induction false} HeldAfter(s: Sys, event: nat, b: BalanceFaults, status: TargetStatus)
    requires event < |s.db.events|
    ensures |BalancesProcessed(s, event, b).db.events| == |s.db.events|
    ensures var users := PendingUsers(s.db.events[event]);
            HeldAt(users, BalancesProcessed(s, event, b).db.events[event], status)
              == if b.attributes.Some? then Among(users, b.replies, status)
                 else if status == Failed then (set user | user in users) else {}
  {
    var users := PendingUsers(s.db.events[event]);
    if b.attributes.Some? {
      HeldAfterSettling(s, event, users, b.attributes.value, b.replies, status);
    } else {
      HeldAfterFailing(s, event, users, status);
    }
  }

  /**
   set, skipped and failed are the numbers of targets, open at the start, that the event now holds as
   done, skipped and failed; together they are all of those, and failed is the number still open.
   */
  lemma {:induction false} BalanceCountsExact(s: Sys, event: nat, b: BalanceFaults)
    requires event < |s.db.events|
    ensures |BalancesProcessed(s, event, b).db.events| == |s.db.events|
    ensures var users := PendingUsers(s.db.events[event]);
            var after := BalancesProcessed(s, event, b).db.events[event];
            var c := BalanceCounts(s.db.events[event], b);
            && c.done == |HeldAt(users, after, Done)|
            && c.skipped == |HeldAt(users, after, Skipped)|
            && c.failed == |HeldAt(users, after, Failed)| == |PendingUsers(after)|
            && c.done + c.skipped + c.failed == |users|
  {
    OpenAfter(s, event, b);
    HeldAfter(s, event, b, Done);
    HeldAfter(s, event, b, Skipped);
    HeldAfter(s, event, b, Failed);
    assert (set user | user in PendingUsers(s.db.events[event])) == OpenUserSet(s.db.events[event]);
    var e := s.db.events[event];
    var f := BalancesProcessed(s, event, b).db.events[event];
    SortedLength(PendingUsers(e), OpenUserSet(e));
    SortedLength(PendingUsers(f), OpenUserSet(f));
    if b.attributes.Some? {
      TallyExact(PendingUsers(e), b.replies);
    }
  }

  /** Open balance targets over a list of events. */
  function OpenBalances(events: seq<Event>, ids: seq<nat>): nat {
    if ids == [] then 0 else
      OpenBalances(events, ids[..|ids| - 1])
      + if ids[|ids| - 1] < |events| && events[ids[|ids| - 1]].balanceTargets != map[]
        then |PendingUsers(events[ids[|ids| - 1]])| else 0
  }

  lemma {:induction false} OpenBalancesLocal(a: seq<Event>, b: seq<Event>, ids: seq<nat>)
    requires |a| == |b| && forall k | k in ids && k < |a| :: a[k] == b[k]
    ensures OpenBalances(a, ids) == OpenBalances(b, ids)
  {
    if ids != [] {
      assert ids[|ids| - 1] in ids;
      assert forall k | k in ids[..|ids| - 1] :: k in ids;
      OpenBalancesLocal(a, b, ids[..|ids| - 1]);
    }
  }

  /** Processing one event changes the open balance targets of that event only, by what it counts. */
  lemma {:induction false} EventCountsExact(s: Sys, event: nat, o: Outside)
    requires event < |s.db.events|
    ensures var t := EventProcessed(s, event, o);
            && |t.db.events| == |s.db.events|
            && (forall i | 0 <= i < |s.db.events| && i != event :: t.db.events[i] == s.db.events[i])
            && (s.db.events[event].balanceTargets == map[] <==> t.db.events[event].balanceTargets == map[])
            && (s.db.events[event].balanceTargets != map[] ==>
                  var c := BalanceCounts(s.db.events[event], o.balances(event));
                  && c.done + c.skipped + c.failed == |PendingUsers(s.db.events[event])|
                  && c.failed == |PendingUsers(t.db.events[event])|)
  {
    EventProcessedProgress(s, event, o);
    var t := EventProcessed(s, event, o);
    assert EventProgressed(s.db.events[event], t.db.events[event]);
    assert t.db.events[event].balanceTargets.Keys == s.db.events[event].balanceTargets.Keys;
    assert forall m: map<int, BalanceRow> :: m == map[] <==> m.Keys == {};
    if s.db.events[event].balanceTargets != map[] {
      BalanceCountsExact(s, event, o.balances(event));
    }
  }

  lemma {:induction false} EventsCountsExact(s: Sys, events: seq<nat>, o: Outside)
    requires forall i, j | 0 <= i < j < |events| :: events[i] < events[j]
    requires forall k | k in events :: k < |s.db.events|
    ensures var t := EventsProcessed(s, events, o);
            var c := EventsCounts(s, events, o);
            && |t.db.events| == |s.db.events|
            && (forall k | 0 <= k < |s.db.events| && k !in events :: t.db.events[k] == s.db.events[k])
            && c.done + c.skipped + c.failed == OpenBalances(s.db.events, events)
            && c.failed == OpenBalances(t.db.events, events)
  {
    if events != [] {
      var n := |events| - 1;
      var k := events[n];
      assert events == events[..n] + [k];
      assert forall x :: x in events <==> x in events[..n] || x == k;
      EventsCountsExact(s, events[..n], o);
      var before := EventsProcessed(s, events[..n], o);
      assert k in events && k !in events[..n];
      EventCountsExact(before, k, o);
      OpenBalancesLocal(before.db.events, EventProcessed(before, k, o).db.events, events[..n]);
    }
  }

  /** The counts a whole pass reports. */
  lemma {:induction false} PassCountsExact(s: Sys, o: Outside)
    ensures var pending := PendingEvents(s.db.events);
            var c := EventsCounts(s, pending, o);
            && c.done + c.skipped + c.failed == OpenBalances(s.db.events, pending)
            && c.failed == OpenBalances(Pass(s, o).db.events, pending)
  {
    PendingEventsOrdered(s.db.events);
    EventsCountsExact(s, PendingEvents(s.db.events), o);
  }
}
