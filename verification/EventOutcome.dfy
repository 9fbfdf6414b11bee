/**
 What a queued event holds, and what its turn in a pass comes to: for each of its targets exactly which call is
 made, what it carries, and what becomes of the target.
 */
module EventOutcome {
  import opened Common
  import opened StateStore
  import opened HostCycle
  import opened RetryEngine
  import opened EventPass
  import opened EventExecutor

  // ----- what a queued event holds -----

  lemma {:induction false} QueuedRows(rows: seq<(int, real)>)
    requires NoDuplicates(Users(rows))
    ensures forall user :: user in BalanceRows(rows) <==> user in Users(rows)
    ensures forall i | 0 <= i < |rows| ::
      rows[i].0 in BalanceRows(rows) && BalanceRows(rows)[rows[i].0] == BalanceRow(rows[i].1, Pending)
  {
    if rows != [] {
      var n := |rows| - 1;
      var front := rows[..n];
      assert Users(rows) == Users(front) + [rows[n].0];
      QueuedRows(front);
      forall i | 0 <= i < |rows|
        ensures rows[i].0 in BalanceRows(rows) && BalanceRows(rows)[rows[i].0] == BalanceRow(rows[i].1, Pending)
      {
        if i < n {
          assert Users(rows)[i] != Users(rows)[n] && front[i] == rows[i];
        }
      }
    }
  }

  /** An event as its poll planned it: nothing done, every listed target pending with its own balance, no other. */
  ghost predicate AsPlanned(e: Event, p: Poll) {
    && e.accountId == p.accountId && e.cycleResetAt == p.snapshot.resetAt && !e.complete
    && !p.plan.Withhold? && e.groupIds == p.plan.groupIds
    && e.windows.daily == p.plan.windows.daily && e.windows.weekly == p.plan.windows.weekly
    && e.windows.monthly == p.plan.windows.monthly
    && (p.plan.QueueSubscriptions? ==>
          && e.balanceTargets == map[]
          && (forall id :: id in e.resetTargets <==> id in p.plan.ids)
          && forall id | id in e.resetTargets :: e.resetTargets[id] == Pending)
    && (p.plan.QueueBalances? ==>
          && e.resetTargets == map[]
          && (forall user | user in e.balanceTargets :: exists i :: 0 <= i < |p.plan.rows| && p.plan.rows[i].0 == user)
          && forall i | 0 <= i < |p.plan.rows| ::
               && p.plan.rows[i].0 in e.balanceTargets
               && e.balanceTargets[p.plan.rows[i].0] == BalanceRow(p.plan.rows[i].1, Pending))
  }

  /** A poll adds no event, or one at the end, which holds what was planned. */
  lemma {:induction false} QueuedEventAsPlanned(db: Db, p: Poll)
    ensures var after := Polled(db, p).events;
            || after == db.events
            || (|after| == |db.events| + 1 && after[..|db.events|] == db.events && AsPlanned(after[|db.events|], p))
  {
    if !p.plan.Withhold? && Insertable(db, p.accountId, p.snapshot, p.plan) {
      if p.plan.QueueBalances? {
        QueuedRows(p.plan.rows);
        forall user | user in BalanceRows(p.plan.rows)
          ensures exists i :: 0 <= i < |p.plan.rows| && p.plan.rows[i].0 == user
        {
          var i :| 0 <= i < |Users(p.plan.rows)| && Users(p.plan.rows)[i] == user;
          assert p.plan.rows[i].0 == user;
        }
      }
    }
  }

  // ----- the set calls of a pass -----

  /** The balances that the calls for one user of one event set, in order. */
  function SetsFor(sets: seq<SetCall>, event: nat, user: int): seq<real> {
    if sets == [] then [] else
      var last := sets[|sets| - 1];
      SetsFor(sets[..|sets| - 1], event, user) + if last.event == event && last.user == user then [last.balance] else []
  }

  lemma {:induction false} SetsForSnoc(sets: seq<SetCall>, c: SetCall, event: nat, user: int)
    ensures SetsFor(sets + [c], event, user)
         == SetsFor(sets, event, user) + if c.event == event && c.user == user then [c.balance] else []
  {
    assert (sets + [c])[..|sets|] == sets;
  }

  predicate Unsettled(status: TargetStatus) {
    status != Done && status != Skipped
  }

  /** The positive number just read for the user, or the balance on file. */
  function Amount(row: BalanceRow, user: int, attributes: map<int, RawValue>): real {
    if user in attributes && attributes[user].Number? && attributes[user].value > 0.0
    then attributes[user].value else row.target
  }

  /** What a reply to the set call makes of a target. */
  predicate FollowsReply(status: TargetStatus, user: int, replies: map<int, SetReply>) {
    && (status == Done <==> user in replies && replies[user].SetOk?)
    && (status == Skipped <==> user in replies && replies[user].UserMissing?)
    && (status == Failed <==> user !in replies || replies[user].SetFailed?)
  }

  /** The set calls for some users of an event: one each, in this order, to their amounts. */
  ghost predicate AmountsSet(calls: seq<SetCall>, event: nat, e: Event, users: seq<int>, attributes: map<int, RawValue>)
  {
    && |calls| == |users|
    && forall k | 0 <= k < |users| ::
         && users[k] in e.balanceTargets
         && calls[k] == SetCall(event, users[k], Amount(e.balanceTargets[users[k]], users[k], attributes))
  }

  lemma {:induction false} AmountsSnoc(calls: seq<SetCall>, event: nat, e: Event, users: seq<int>, user: int,
                                       attributes: map<int, RawValue>)
    requires AmountsSet(calls, event, e, users, attributes) && user in e.balanceTargets
    ensures AmountsSet(calls + [SetCall(event, user, Amount(e.balanceTargets[user], user, attributes))], event, e,
                       users + [user], attributes)
  {
  }

  lemma {:induction false} SettleCalls(s: Sys, event: nat, user: int, attributes: map<int, RawValue>,
                                       status: TargetStatus)
    requires HasUser(s, event, user)
    ensures var t, row := SettleUser(s, event, user, attributes, status), s.db.events[event].balanceTargets[user];
            && t.posts == s.posts && t.subs == s.subs
            && t.sets == s.sets + [SetCall(event, user, Amount(row, user, attributes))]
  {
  }

  /** The rows of the users after the first n are still as they were. */
  lemma {:induction false} StillUntouched(s: Sys, event: nat, users: seq<int>, n: nat, attributes: map<int, RawValue>,
                                          replies: map<int, SetReply>)
    requires event < |s.db.events| && OpenUsers(s.db.events[event], users) && n < |users|
    ensures var before := SettleUsers(s, event, users[..n], attributes, replies);
            && users[n] in s.db.events[event].balanceTargets && HasUser(before, event, users[n])
            && before.db.events[event].balanceTargets[users[n]] == s.db.events[event].balanceTargets[users[n]]
  {
    assert users[n] in users && users[n] !in users[..n];
    assert forall user | user in users[..n] :: user in users;
    SettlesShape(s, event, users, n, attributes, replies);
    SettlesProgress(s, event, users[..n], attributes, replies);
  }

  /** The calls of one balance event, in order. */
  lemma {:induction false} SettlesCall(s: Sys, event: nat, users: seq<int>, attributes: map<int, RawValue>,
                                       replies: map<int, SetReply>)
    returns (calls: seq<SetCall>)
    requires event < |s.db.events| && OpenUsers(s.db.events[event], users)
    ensures var t := SettleUsers(s, event, users, attributes, replies);
            t.posts == s.posts && t.subs == s.subs && t.sets == s.sets + calls
    ensures AmountsSet(calls, event, s.db.events[event], users, attributes)
  {
    if users == [] {
      calls := [];
    } else {
      DropLast(users);
      var n := |users| - 1;
      calls := SettlesCall(s, event, users[..n], attributes, replies);
      StillUntouched(s, event, users, n, attributes, replies);
      var before, e := SettleUsers(s, event, users[..n], attributes, replies), s.db.events[event];
      SettleCalls(before, event, users[n], attributes, Verdict(users[n], replies));
      AmountsSnoc(calls, event, e, users[..n], users[n], attributes);
      assert users == users[..n] + [users[n]];
      calls := calls + [SetCall(event, users[n], Amount(e.balanceTargets[users[n]], users[n], attributes))];
    }
  }

  lemma {:induction false} FailsCallNobody(s: Sys, event: nat, users: seq<int>)
    ensures var t := FailUsers(s, event, users); t.posts == s.posts && t.subs == s.subs && t.sets == s.sets
  {
    if users != [] {
      FailsCallNobody(s, event, users[..|users| - 1]);
    }
  }

  /** What becomes of one balance row in its event's turn. */
  ghost predicate RowOutcome(before: BalanceRow, after: BalanceRow, user: int, b: BalanceFaults) {
    if !Unsettled(before.status) then after == before
    else if b.attributes.None? then after == BalanceRow(before.target, Failed)
    else
      && after.target == Amount(before, user, b.attributes.value)
      && FollowsReply(after.status, user, b.replies)
  }

  /** The set calls for some users of an event: one each, in this order, to the balance kept in the row. */
  ghost predicate OneCallEach(calls: seq<SetCall>, event: nat, e: Event, users: seq<int>) {
    && |calls| == |users|
    && forall k | 0 <= k < |users| ::
         users[k] in e.balanceTargets && calls[k] == SetCall(event, users[k], e.balanceTargets[users[k]].target)
  }

  /** Exactly the targets still open, in ascending order. */
  ghost predicate ListsOpen(users: seq<int>, e: Event) {
    && StrictlyIncreasing(users)
    && forall user :: user in users <==> user in e.balanceTargets && Unsettled(e.balanceTargets[user].status)
  }

  /** The balance rows of the event, each as its reply says. */
  ghost predicate RowsOutcome(e: Event, f: Event, b: BalanceFaults) {
    && f.resetTargets == e.resetTargets && f.balanceTargets.Keys == e.balanceTargets.Keys
    && forall user | user in e.balanceTargets :: RowOutcome(e.balanceTargets[user], f.balanceTargets[user], user, b)
  }

  lemma {:induction false} SettledRows(s: Sys, event: nat, b: BalanceFaults)
    requires event < |s.db.events|
    ensures event < |BalancesSettled(s, event, b).db.events|
    ensures RowsOutcome(s.db.events[event], BalancesSettled(s, event, b).db.events[event], b)
  {
    var e := s.db.events[event];
    var users := PendingUsers(e);
    BalancesSettledProgress(s, event, b);
    var f := BalancesSettled(s, event, b).db.events[event];
    assert EventProgressed(e, f);
    forall user | user in e.balanceTargets
      ensures RowOutcome(e.balanceTargets[user], f.balanceTargets[user], user, b)
    {
      if b.attributes.Some? {
        SettlesProgress(s, event, users, b.attributes.value, b.replies);
      } else {
        FailsProgress(s, event, users);
      }
    }
  }

  lemma {:induction false} SettledCalls(s: Sys, event: nat, b: BalanceFaults) returns (calls: seq<SetCall>)
    requires event < |s.db.events|
    ensures var t := BalancesSettled(s, event, b);
            && t.posts == s.posts && t.subs == s.subs && t.sets == s.sets + calls && event < |t.db.events|
            && OneCallEach(calls, event, t.db.events[event],
                           if b.attributes.Some? then PendingUsers(s.db.events[event]) else [])
  {
    var users := PendingUsers(s.db.events[event]);
    SettledRows(s, event, b);
    if b.attributes.Some? {
      calls := SettlesCall(s, event, users, b.attributes.value, b.replies);
    } else {
      calls := [];
      FailsCallNobody(s, event, users);
    }
  }

  /**
   One balance event in its turn: if the attributes were read, exactly one call per open target, in
   ascending order of user, to the positive number read or else the balance on file, which the row then
   keeps; and no call if they were not. Each row ends as its reply says, and nothing else changes.
   */
  lemma {:induction false} BalanceEventOutcome(s: Sys, event: nat, b: BalanceFaults)
    returns (users: seq<int>, calls: seq<SetCall>)
    requires event < |s.db.events|
    ensures ListsOpen(users, s.db.events[event])
    ensures var t := BalancesProcessed(s, event, b);
            && t.posts == s.posts && t.subs == s.subs && t.db.accounts == s.db.accounts
            && OthersKept(s, t, event) && t.sets == s.sets + calls
    ensures var f := BalancesProcessed(s, event, b).db.events[event];
            && SameFrozen(s.db.events[event], f) && RowsOutcome(s.db.events[event], f, b)
            && OneCallEach(calls, event, f, if b.attributes.Some? then users else [])
            && (f.complete <==> forall user | user in f.balanceTargets :: !Unsettled(f.balanceTargets[user].status))
  {
    users := PendingUsers(s.db.events[event]);
    BalancesSettledProgress(s, event, b);
    SettledRows(s, event, b);
    calls := SettledCalls(s, event, b);
    assert EventProgressed(s.db.events[event], BalancesSettled(s, event, b).db.events[event]);
  }

  // ----- the visits of a pass -----

  /** The requests for one subscription of one event, in order. */
  function PostsFor(posts: seq<PostCall>, event: nat, id: int): seq<PostCall> {
    if posts == [] then [] else
      var last := posts[|posts| - 1];
      PostsFor(posts[..|posts| - 1], event, id) + if last.event == event && last.id == id then [last] else []
  }

  lemma {:induction false} PostsForSnoc(posts: seq<PostCall>, c: PostCall, event: nat, id: int)
    ensures PostsFor(posts + [c], event, id)
         == PostsFor(posts, event, id) + if c.event == event && c.id == id then [c] else []
  {
    assert (posts + [c])[..|posts|] == posts;
  }

  /** The row was read, and is in one of the event's groups, active, not deleted and not expired. */
  predicate Served(row: Option<Subscription>, e: Event, f: Faults) {
    && !f.getFails && row.Some?
    && row.value.groupId in e.groupIds && row.value.active && !row.value.deleted && row.value.expiresAt > f.now
  }

  predicate Posting(row: Option<Subscription>, e: Event, f: Faults) {
    Served(row, e, f) && !Applied(row.value, e.windows, e.cycleResetAt)
  }

  /** The row after the visit: cleared by the host, or as it was. */
  function RowAfter(row: Option<Subscription>, e: Event, f: Faults): Option<Subscription> {
    if Posting(row, e, f) && HostResets(row.value, e, f)
    then Some(Cleared(row.value, e.windows, e.cycleResetAt, f.dayStart)) else row
  }

  /** What becomes of the target. */
  predicate TargetOutcome(status: TargetStatus, row: Option<Subscription>, e: Event, f: Faults) {
    var shown := f.delivery.Delivered? || (f.delivery.WindowsOmitted? && !f.againFails);
    && (status == Skipped <==> !f.getFails && !Served(row, e, f))
    && (status == Done <==> Served(row, e, f) && (Posting(row, e, f) ==> HostResets(row.value, e, f) && shown))
    && (status == Failed <==> f.getFails || (Posting(row, e, f) && !(HostResets(row.value, e, f) && shown)))
  }

  function PostOf(event: nat, id: int, e: Event): PostCall {
    PostCall(event, id, e.windows, e.cycleResetAt)
  }

  /** One visit: its request, its row and its target, and no other row. */
  lemma {:induction false} OneVisit(s: Sys, event: nat, id: int, f: Faults)
    requires HasTarget(s, event, id)
    ensures var t, e, row := VisitTarget(s, event, id, f), s.db.events[event], Lookup(s.subs, id);
            && t.posts == s.posts + (if Posting(row, e, f) then [PostOf(event, id, e)] else [])
            && Lookup(t.subs, id) == RowAfter(row, e, f)
            && (forall x | x != id :: Lookup(t.subs, x) == Lookup(s.subs, x))
            && HasTarget(t, event, id) && TargetOutcome(t.db.events[event].resetTargets[id], row, e, f)
  {
    VisitOutcome(s.db.events[event].resetTargets[id], Lookup(s.subs, id), s.db.events[event], f);
  }

  /** Visits are all for the listed ids of their event. */
  lemma {:induction false} VisitsPostFor(s: Sys, event: nat, ids: seq<int>, o: Outside)
    ensures var t := VisitTargets(s, event, ids, o);
            && s.posts <= t.posts && t.sets == s.sets
            && forall j | |s.posts| <= j < |t.posts| :: t.posts[j].event == event && t.posts[j].id in ids
  {
    if ids != [] {
      var n := |ids| - 1;
      assert ids == ids[..n] + [ids[n]];
      VisitsPostFor(s, event, ids[..n], o);
      var before := VisitTargets(s, event, ids[..n], o);
      if HasTarget(before, event, ids[n]) {
        OneVisit(before, event, ids[n], o.visits(event, ids[n]));
      }
    }
  }

  lemma {:induction false} NoneForOthers(posts: seq<PostCall>, n: nat, event: nat, id: int)
    requires n <= |posts| && forall j | n <= j < |posts| :: posts[j].event != event || posts[j].id != id
    ensures PostsFor(posts, event, id) == PostsFor(posts[..n], event, id)
  {
    if |posts| == n {
      assert posts[..n] == posts;
    } else {
      var m := |posts| - 1;
      NoneForOthers(posts[..m], n, event, id);
      assert posts[..m][..n] == posts[..n];
      PostsForSnoc(posts[..m], posts[m], event, id);
      assert posts == posts[..m] + [posts[m]];
    }
  }

  /** What one turn of an event does for one of its open targets, given the row it finds. */
  ghost predicate TargetServed(s: Sys, t: Sys, event: nat, id: int, e: Event, f: Faults) {
    var row := Lookup(s.subs, id);
    && PostsFor(t.posts, event, id)
         == PostsFor(s.posts, event, id) + (if Posting(row, e, f) then [PostOf(event, id, e)] else [])
    && Lookup(t.subs, id) == RowAfter(row, e, f)
    && HasTarget(t, event, id) && TargetOutcome(t.db.events[event].resetTargets[id], row, e, f)
  }

  /** The frozen fields are all that a visit takes from its event. */
  lemma {:induction false} FrozenIsEnough(row: Option<Subscription>, e: Event, d: Event, f: Faults)
    requires SameFrozen(e, d)
    ensures Posting(row, e, f) <==> Posting(row, d, f)
    ensures RowAfter(row, e, f) == RowAfter(row, d, f)
    ensures forall status :: TargetOutcome(status, row, e, f) <==> TargetOutcome(status, row, d, f)
  {
  }

  /** Before the last visit nothing of its target has been touched. */
  lemma {:induction false} LastIsUntouched(s: Sys, event: nat, ids: seq<int>, o: Outside)
    requires event < |s.db.events| && ids != [] && OpenIds(s.db.events[event], ids)
    ensures var id, before := ids[|ids| - 1], VisitTargets(s, event, ids[..|ids| - 1], o);
            && HasTarget(before, event, id) && SameFrozen(s.db.events[event], before.db.events[event])
            && Lookup(before.subs, id) == Lookup(s.subs, id)
            && PostsFor(before.posts, event, id) == PostsFor(s.posts, event, id)
  {
    DropLast(ids);
    var n := |ids| - 1;
    var front := ids[..n];
    LastOfVisits(s, event, ids, o);
    VisitsPostFor(s, event, front, o);
    assert VisitTargets(s, event, front, o).posts[..|s.posts|] == s.posts;
    NoneForOthers(VisitTargets(s, event, front, o).posts, |s.posts|, event, ids[n]);
    VisitsTouchTheirRows(s, event, front, o, ids[n]);
    VisitsProgress(s, event, front, o);
    assert EventProgressed(s.db.events[event], VisitTargets(s, event, front, o).db.events[event]);
  }

  /** The target visited last. */
  lemma {:induction false} LastIsServed(s: Sys, event: nat, ids: seq<int>, o: Outside)
    requires event < |s.db.events| && ids != [] && OpenIds(s.db.events[event], ids)
    ensures var id := ids[|ids| - 1];
            TargetServed(s, VisitTargets(s, event, ids, o), event, id, s.db.events[event], o.visits(event, id))
  {
    LastIsUntouched(s, event, ids, o);
    var id, e, f := ids[|ids| - 1], s.db.events[event], o.visits(event, ids[|ids| - 1]);
    var before := VisitTargets(s, event, ids[..|ids| - 1], o);
    OneVisit(before, event, id, f);
    FrozenIsEnough(Lookup(s.subs, id), e, before.db.events[event], f);
    PostsForSnoc(before.posts, PostOf(event, id, e), event, id);
  }

  /** A target visited before stays as its own visit left it. */
  lemma {:induction false} EarlierIsKept(s: Sys, event: nat, ids: seq<int>, o: Outside, id: int)
    requires event < |s.db.events| && ids != [] && OpenIds(s.db.events[event], ids) && id in ids[..|ids| - 1]
    requires TargetServed(s, VisitTargets(s, event, ids[..|ids| - 1], o), event, id, s.db.events[event],
                          o.visits(event, id))
    ensures TargetServed(s, VisitTargets(s, event, ids, o), event, id, s.db.events[event], o.visits(event, id))
  {
    DropLast(ids);
    var n := |ids| - 1;
    var before := VisitTargets(s, event, ids[..n], o);
    LastOfVisits(s, event, ids, o);
    OneVisit(before, event, ids[n], o.visits(event, ids[n]));
    PostsForSnoc(before.posts, PostOf(event, ids[n], before.db.events[event]), event, id);
  }

  lemma {:induction false} EachIsServed(s: Sys, event: nat, ids: seq<int>, o: Outside, id: int)
    requires event < |s.db.events| && OpenIds(s.db.events[event], ids) && id in ids
    ensures TargetServed(s, VisitTargets(s, event, ids, o), event, id, s.db.events[event], o.visits(event, id))
  {
    DropLast(ids);
    if id == ids[|ids| - 1] {
      LastIsServed(s, event, ids, o);
    } else {
      EachIsServed(s, event, ids[..|ids| - 1], o, id);
      EarlierIsKept(s, event, ids, o, id);
    }
  }

  /**
   One subscription event in its turn: for each open target exactly one request if the row it finds is served
   and not aligned yet, carrying the windows and the cycle of the event, and none otherwise; the row is cleared
   exactly if the host carries that out; and the target ends skipped, done or failed, each for its exact cause.
   */
  lemma {:induction false} SubscriptionEventOutcome(s: Sys, event: nat, o: Outside, id: int)
    requires event < |s.db.events| && id in s.db.events[event].resetTargets
    requires Unsettled(s.db.events[event].resetTargets[id])
    ensures TargetServed(s, SubscriptionsProcessed(s, event, o), event, id, s.db.events[event], o.visits(event, id))
  {
    var ids := PendingIds(s.db.events[event]);
    EachIsServed(s, event, ids, o, id);
  }

  // ----- a visit over a host that changes -----

  /** The request got through and the host, holding this row, answered that it is aligned now. */
  predicate AnsweredAligned(row: Option<Subscription>, e: Event, f: Faults) {
    row.Some? && f.delivery.Answered() && HostResets(row.value, e, f)
  }

  /**
   One visit while the row changes: `first` is what the first read finds, `posted` what the request meets, and
   `last` what the second read finds. It posts exactly if the first read finds the row served and not aligned;
   and then the target ends done, skipped or failed by what the request and the second read met.
   */
  lemma {:induction false} ChangingHostOutcome(status: TargetStatus, first: Option<Subscription>,
                                               posted: Option<Subscription>, last: Option<Subscription>, e: Event,
                                               f: Faults)
    ensures var judged := Steps(FreshVisit(status, first), e, f, 2);
            && (judged.pc.Post? <==> Posting(first, e, f))
            && (!judged.pc.Post? ==> TargetOutcome(RunVisit(judged, e, f).status, first, e, f))
            && (judged.pc.Post? ==>
                  var checked := Steps(judged.(host := posted), e, f, 2);
                  var end := RunVisit(checked.(host := last), e, f).status;
                  var read := AnsweredAligned(posted, e, f) && f.delivery.WindowsOmitted? && !f.againFails;
                  && (end == Done <==>
                        || (AnsweredAligned(posted, e, f) && f.delivery.Delivered?)
                        || (read && last.Some? && Applied(last.value, e.windows, e.cycleResetAt)))
                  && (end == Skipped <==>
                        || (read && last.None?)
                        || (posted.None? && f.delivery.Answered()
                            && BoundaryAccepted(e.windows, e.cycleResetAt, f.hostNow)))
                  && (end == Done || end == Skipped || end == Failed))
  {
    var judged := Steps(FreshVisit(status, first), e, f, 2);
    assert judged == VisitStep(VisitStep(FreshVisit(status, first), e, f), e, f);
    if judged.pc.Post? {
      PostedOutcome(judged.(host := posted), last, e, f);
    } else {
      assert judged.host == first;
      VisitOutcome(status, first, e, f);
      assert RunVisit(judged, e, f) == RunVisit(FreshVisit(status, first), e, f);
    }
  }

  lemma {:induction false} PostedOutcome(v: Visit, last: Option<Subscription>, e: Event, f: Faults)
    requires v.pc.Post?
    ensures var checked := Steps(v, e, f, 2);
            var end := RunVisit(checked.(host := last), e, f).status;
            var read := AnsweredAligned(v.host, e, f) && f.delivery.WindowsOmitted? && !f.againFails;
            && (end == Done <==>
                  || (AnsweredAligned(v.host, e, f) && f.delivery.Delivered?)
                  || (read && last.Some? && Applied(last.value, e.windows, e.cycleResetAt)))
            && (end == Skipped <==>
                  || (read && last.None?)
                  || (v.host.None? && f.delivery.Answered()
                      && BoundaryAccepted(e.windows, e.cycleResetAt, f.hostNow)))
            && (end == Done || end == Skipped || end == Failed)
  {
    var v1 := VisitStep(v, e, f);
    var v2 := VisitStep(v1, e, f);
    assert Steps(v, e, f, 2) == v2;
    if v2.pc.Over? {
    } else if v2.pc.Commit? {
      CommitEnds(v2.(host := last), e, f);
    } else {
      var w := VisitStep(v2.(host := last), e, f);
      assert RunVisit(v2.(host := last), e, f) == RunVisit(w, e, f);
      if w.pc.Commit? {
        CommitEnds(w, e, f);
      } else {
        CommitEnds(VisitStep(w, e, f), e, f);
      }
    }
  }
}
