/**
 From the poll that queues an event to the calls that serve it: a whole pass, target by target, and the rows
 that a pass leaves alone.
 */
module PassOutcome {
  import opened Common
  import opened StateStore
  import opened HostCycle
  import opened RetryEngine
  import opened EventPass
  import opened EventOutcome

  // ----- a whole pass -----

  /** Every call made in between is for one of these events. */
  ghost predicate CallsAreFor(s: Sys, t: Sys, events: seq<nat>) {
    && s.posts <= t.posts && s.sets <= t.sets
    && (forall j | |s.posts| <= j < |t.posts| :: t.posts[j].event in events)
    && (forall j | |s.sets| <= j < |t.sets| :: t.sets[j].event in events)
  }

  lemma {:induction false} TurnCallsFor(s: Sys, event: nat, o: Outside)
    requires event < |s.db.events|
    ensures CallsAreFor(s, EventProcessed(s, event, o), [event])
  {
    if s.db.events[event].balanceTargets != map[] {
      var _, _ := BalanceEventOutcome(s, event, o.balances(event));
    } else {
      VisitsPostFor(s, event, PendingIds(s.db.events[event]), o);
    }
  }

  lemma {:induction false} TurnsCallFor(s: Sys, events: seq<nat>, o: Outside)
    ensures CallsAreFor(s, EventsProcessed(s, events, o), events)
  {
    if events != [] {
      var n := |events| - 1;
      assert events == events[..n] + [events[n]];
      TurnsCallFor(s, events[..n], o);
      var before := EventsProcessed(s, events[..n], o);
      if events[n] < |before.db.events| {
        TurnCallsFor(before, events[n], o);
      }
    }
  }

  lemma {:induction false} NoSetsForOthers(sets: seq<SetCall>, n: nat, event: nat, user: int)
    requires n <= |sets| && forall j | n <= j < |sets| :: sets[j].event != event || sets[j].user != user
    ensures SetsFor(sets, event, user) == SetsFor(sets[..n], event, user)
  {
    if |sets| == n {
      assert sets[..n] == sets;
    } else {
      var m := |sets| - 1;
      NoSetsForOthers(sets[..m], n, event, user);
      assert sets[..m][..n] == sets[..n];
      SetsForSnoc(sets[..m], sets[m], event, user);
      assert sets == sets[..m] + [sets[m]];
    }
  }

  /** The calls for event k are the same in both. */
  ghost predicate SameCallsFor(s: Sys, t: Sys, k: nat) {
    && (forall id :: PostsFor(t.posts, k, id) == PostsFor(s.posts, k, id))
    && (forall user :: SetsFor(t.sets, k, user) == SetsFor(s.sets, k, user))
  }

  lemma {:induction false} OtherTurnsCallNothing(s: Sys, events: seq<nat>, o: Outside, k: nat)
    requires k !in events
    ensures SameCallsFor(s, EventsProcessed(s, events, o), k)
  {
    var t := EventsProcessed(s, events, o);
    TurnsCallFor(s, events, o);
    assert t.posts[..|s.posts|] == s.posts && t.sets[..|s.sets|] == s.sets;
    forall id ensures PostsFor(t.posts, k, id) == PostsFor(s.posts, k, id) {
      NoneForOthers(t.posts, |s.posts|, k, id);
    }
    forall user ensures SetsFor(t.sets, k, user) == SetsFor(s.sets, k, user) {
      NoSetsForOthers(t.sets, |s.sets|, k, user);
    }
  }

  /** A pass is, for one pending event, its turn: the turns before and after it make no call for it. */
  lemma {:induction false} PassIsItsTurn(s: Sys, o: Outside, k: nat)
    requires k < |s.db.events| && !s.db.events[k].complete
    ensures var before := BeforeTurn(s, k, o);
            && k < |before.db.events| && before.db.events[k] == s.db.events[k]
            && SameCallsFor(s, before, k)
    ensures var turn, t := EventProcessed(BeforeTurn(s, k, o), k, o), Pass(s, o);
            && |t.db.events| == |turn.db.events| == |s.db.events|
            && t.db.events[k] == turn.db.events[k] && SameCallsFor(turn, t, k)
  {
    var earlier := PendingEvents(s.db.events[..k]);
    var rest := PendingSplits(s.db.events, k);
    PendingEventsAscend(s.db.events);
    AscendingParts(earlier + [k], rest, |s.db.events|);
    AscendingParts(earlier, [k], |s.db.events|);
    PendingEventsOrdered(s.db.events[..k]);
    var before := EventsProcessed(s, earlier, o);
    EventsProcessedProgress(s, earlier, o);
    OtherTurnsCallNothing(s, earlier, o, k);
    EventProcessedProgress(before, k, o);
    EventsProcessedConcat(s, earlier + [k], rest, o);
    assert (earlier + [k])[..|earlier|] == earlier;
    LaterTurnsKeep(EventProcessed(before, k, o), rest, k, o);
    OtherTurnsCallNothing(EventProcessed(before, k, o), rest, o, k);
  }

  lemma {:induction false} CompleteGetsNoCall(s: Sys, o: Outside, k: nat)
    requires k < |s.db.events| && s.db.events[k].complete
    ensures |Pass(s, o).db.events| == |s.db.events| && Pass(s, o).db.events[k] == s.db.events[k]
    ensures SameCallsFor(s, Pass(s, o), k)
  {
    PassProgress(s, o);
    PendingEventsOrdered(s.db.events);
    OtherTurnsCallNothing(s, PendingEvents(s.db.events), o, k);
  }

  /**
   A whole pass, for one target of one subscription event: it is asked for exactly once if its event is
   pending, it is open, and the row that its turn finds is served and not aligned, with the windows and the
   cycle of its event; otherwise not at all; and it ends skipped, done or failed for its exact cause.
   */
  lemma {:induction false} PassServesTarget(s: Sys, o: Outside, k: nat, id: int)
    requires k < |s.db.events| && id in s.db.events[k].resetTargets && s.db.events[k].balanceTargets == map[]
    ensures var e, t := s.db.events[k], Pass(s, o);
            var open := !e.complete && Unsettled(e.resetTargets[id]);
            var row, f := Lookup(BeforeTurn(s, k, o).subs, id), o.visits(k, id);
            && PostsFor(t.posts, k, id)
                 == PostsFor(s.posts, k, id) + (if open && Posting(row, e, f) then [PostOf(k, id, e)] else [])
            && HasTarget(t, k, id)
            && if open then TargetOutcome(t.db.events[k].resetTargets[id], row, e, f)
               else t.db.events[k].resetTargets[id] == e.resetTargets[id]
  {
    if s.db.events[k].complete {
      CompleteGetsNoCall(s, o, k);
    } else {
      PassIsItsTurn(s, o, k);
      var before := BeforeTurn(s, k, o);
      if Unsettled(s.db.events[k].resetTargets[id]) {
        SubscriptionEventOutcome(before, k, o, id);
      } else {
        ClosedGetsNoRequest(before, k, o, id);
      }
    }
  }

  /** A done or skipped target is not asked for in its event's turn, and stays. */
  lemma {:induction false} ClosedGetsNoRequest(s: Sys, event: nat, o: Outside, id: int)
    requires event < |s.db.events| && id in s.db.events[event].resetTargets
    requires !Unsettled(s.db.events[event].resetTargets[id])
    ensures var t := SubscriptionsProcessed(s, event, o);
            && PostsFor(t.posts, event, id) == PostsFor(s.posts, event, id)
            && HasTarget(t, event, id) && t.db.events[event].resetTargets[id] == s.db.events[event].resetTargets[id]
  {
    var ids := PendingIds(s.db.events[event]);
    var t := VisitTargets(s, event, ids, o);
    VisitsPostFor(s, event, ids, o);
    assert t.posts[..|s.posts|] == s.posts;
    NoneForOthers(t.posts, |s.posts|, event, id);
    VisitsProgress(s, event, ids, o);
    assert EventProgressed(s.db.events[event], t.db.events[event]);
  }

  /** The calls of one balance event for one of its users. */
  lemma {:induction false} CallsForUser(sets: seq<SetCall>, calls: seq<SetCall>, event: nat, e: Event,
                                        users: seq<int>, user: int)
    requires OneCallEach(calls, event, e, users) && StrictlyIncreasing(users)
    ensures SetsFor(sets + calls, event, user) == SetsFor(sets, event, user)
      + if user in users && user in e.balanceTargets then [e.balanceTargets[user].target] else []
  {
    if users == [] {
      assert sets + calls == sets;
    } else {
      var n := |users| - 1;
      DropLast(users);
      CallsForUser(sets, calls[..n], event, e, users[..n], user);
      assert sets + calls == sets + calls[..n] + [calls[n]];
      SetsForSnoc(sets + calls[..n], calls[n], event, user);
    }
  }

  /**
   A whole pass, for one target of one balance event: its balance is set exactly once if its event is pending,
   it is open and the attributes were read, to the positive number read for the user or else the balance on
   file, which the row keeps; otherwise not at all; and the row ends as the reply says. So a target that a pass
   turns done has had its call in that pass.
   */
  lemma {:induction false} PassSetsBalance(s: Sys, o: Outside, k: nat, user: int)
    requires k < |s.db.events| && user in s.db.events[k].balanceTargets
    ensures var e, t, b := s.db.events[k], Pass(s, o), o.balances(k);
            var row, open := e.balanceTargets[user], !e.complete && Unsettled(e.balanceTargets[user].status);
            && SetsFor(t.sets, k, user) == SetsFor(s.sets, k, user)
                 + (if open && b.attributes.Some? then [Amount(row, user, b.attributes.value)] else [])
            && HasUser(t, k, user)
            && if open then RowOutcome(row, t.db.events[k].balanceTargets[user], user, b)
               else t.db.events[k].balanceTargets[user] == row
  {
    if s.db.events[k].complete {
      CompleteGetsNoCall(s, o, k);
    } else {
      PassIsItsTurn(s, o, k);
      var before := BeforeTurn(s, k, o);
      var b := o.balances(k);
      var users, calls := BalanceEventOutcome(before, k, b);
      var f := BalancesProcessed(before, k, b).db.events[k];
      CallsForUser(before.sets, calls, k, f, if b.attributes.Some? then users else [], user);
    }
  }

  // ----- rows that a pass must not touch -----

  /** Event k does not serve the row: it has nothing open for it, or the row is gone, elsewhere, inactive or over. */
  ghost predicate Unserved(s: Sys, k: nat, o: Outside, id: int)
    requires k < |s.db.events|
  {
    var e := s.db.events[k];
    e.balanceTargets == map[] && id in e.resetTargets && Unsettled(e.resetTargets[id]) ==>
      !Served(Lookup(s.subs, id), e, o.visits(k, id))
  }

  /** No request for the row, and the row as it was. */
  ghost predicate LeftAlone(s: Sys, t: Sys, id: int) {
    && Lookup(t.subs, id) == Lookup(s.subs, id)
    && forall k: nat :: PostsFor(t.posts, k, id) == PostsFor(s.posts, k, id)
  }

  lemma {:induction false} TurnLeavesAlone(s: Sys, event: nat, o: Outside, id: int)
    requires event < |s.db.events| && Unserved(s, event, o, id)
    ensures LeftAlone(s, EventProcessed(s, event, o), id)
  {
    var t, e := EventProcessed(s, event, o), s.db.events[event];
    TurnCallsFor(s, event, o);
    assert t.posts[..|s.posts|] == s.posts;
    forall k: nat | k != event ensures PostsFor(t.posts, k, id) == PostsFor(s.posts, k, id) {
      NoneForOthers(t.posts, |s.posts|, k, id);
    }
    if e.balanceTargets != map[] {
      var _, _ := BalanceEventOutcome(s, event, o.balances(event));
    } else if id in PendingIds(e) {
      SubscriptionEventOutcome(s, event, o, id);
    } else {
      VisitsTouchTheirRows(s, event, PendingIds(e), o, id);
      VisitsPostFor(s, event, PendingIds(e), o);
      NoneForOthers(t.posts, |s.posts|, event, id);
    }
  }

  lemma {:induction false} TurnsLeaveAlone(s: Sys, events: seq<nat>, o: Outside, id: int)
    requires AscendBelow(events, |s.db.events|)
    requires forall k | k in events :: Unserved(s, k, o, id)
    ensures LeftAlone(s, EventsProcessed(s, events, o), id)
  {
    if events != [] {
      var n := |events| - 1;
      assert events == events[..n] + [events[n]];
      TurnsLeaveAlone(s, events[..n], o, id);
      EventsProcessedProgress(s, events[..n], o);
      assert events[n] in events && events[n] !in events[..n];
      TurnLeavesAlone(EventsProcessed(s, events[..n], o), events[n], o, id);
    }
  }

  /**
   A whole pass leaves a row alone, its usage and windows included, and asks for nothing on it, if every
   pending event that has it for an open target finds it outside its groups, inactive, deleted, expired or gone,
   or cannot read it.
   */
  lemma {:induction false} PassLeavesOutsidersAlone(s: Sys, o: Outside, id: int)
    requires forall k | 0 <= k < |s.db.events| && !s.db.events[k].complete :: Unserved(s, k, o, id)
    ensures Lookup(Pass(s, o).subs, id) == Lookup(s.subs, id)
    ensures forall k: nat :: PostsFor(Pass(s, o).posts, k, id) == PostsFor(s.posts, k, id)
  {
    PendingEventsAscend(s.db.events);
    PendingEventsOrdered(s.db.events);
    TurnsLeaveAlone(s, PendingEvents(s.db.events), o, id);
  }

  // ----- from the poll to the calls -----

  /** A poll that queued its event. */
  predicate Queued(db: Db, p: Poll) {
    |Polled(db, p).events| == |db.events| + 1
  }

  /**
   The pass after a poll that queued a subscription event: each listed id whose row is served and not aligned
   when its turn comes is asked for exactly once, for the planned windows and the sampled boundary; no other is.
   */
  lemma {:induction false} QueuedTargetIsServed(s: Sys, p: Poll, o: Outside, id: int)
    requires Queued(s.db, p) && p.plan.QueueSubscriptions?
    ensures var k, s1 := |s.db.events|, s.(db := Polled(s.db, p));
            && k < |s1.db.events|
            && var row, e, f := Lookup(BeforeTurn(s1, k, o).subs, id), s1.db.events[k], o.visits(k, id);
            && PostsFor(Pass(s1, o).posts, k, id) == PostsFor(s.posts, k, id)
                 + (if id in p.plan.ids && Posting(row, e, f)
                    then [PostCall(k, id, p.plan.windows, p.snapshot.resetAt)] else [])
            && (id in p.plan.ids ==>
                  HasTarget(Pass(s1, o), k, id)
                  && TargetOutcome(Pass(s1, o).db.events[k].resetTargets[id], row, e, f))
  {
    QueuedEventAsPlanned(s.db, p);
    var k, s1 := |s.db.events|, s.(db := Polled(s.db, p));
    if id in p.plan.ids {
      PassServesTarget(s1, o, k, id);
    } else {
      NoTargetNoRequest(s1, o, k, id);
    }
  }

  lemma {:induction false} NoTargetNoRequest(s: Sys, o: Outside, k: nat, id: int)
    requires k < |s.db.events| && !s.db.events[k].complete && s.db.events[k].balanceTargets == map[]
    requires id !in s.db.events[k].resetTargets
    ensures PostsFor(Pass(s, o).posts, k, id) == PostsFor(s.posts, k, id)
  {
    PassIsItsTurn(s, o, k);
    var before := BeforeTurn(s, k, o);
    var ids := PendingIds(s.db.events[k]);
    var t := VisitTargets(before, k, ids, o);
    VisitsPostFor(before, k, ids, o);
    assert t.posts[..|before.posts|] == before.posts;
    NoneForOthers(t.posts, |before.posts|, k, id);
  }

  /**
   The pass after a poll that queued a balance event: if it reads the attributes, each listed user's balance is
   set exactly once, to the positive number read or else the planned balance, and the row ends as the reply says.
   */
  lemma {:induction false} QueuedBalanceIsSet(s: Sys, p: Poll, o: Outside, i: nat)
    requires Queued(s.db, p) && p.plan.QueueBalances? && i < |p.plan.rows|
    ensures var k, s1, user := |s.db.events|, s.(db := Polled(s.db, p)), p.plan.rows[i].0;
            var b, row := o.balances(k), BalanceRow(p.plan.rows[i].1, Pending);
            && SetsFor(Pass(s1, o).sets, k, user) == SetsFor(s.sets, k, user)
                 + (if b.attributes.Some? then [Amount(row, user, b.attributes.value)] else [])
            && HasUser(Pass(s1, o), k, user)
            && RowOutcome(row, Pass(s1, o).db.events[k].balanceTargets[user], user, b)
  {
    QueuedEventAsPlanned(s.db, p);
    PassSetsBalance(s.(db := Polled(s.db, p)), o, |s.db.events|, p.plan.rows[i].0);
  }
}
