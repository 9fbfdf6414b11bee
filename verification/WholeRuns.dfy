/**
 Whole passes, and whole runs of the executor, are among the runs cut at any commit: what holds of those in every
 state holds of these.
 */
module WholeRuns {
  import opened Common
  import opened StateStore
  import opened RetryEngine
  import opened EventPass
  import opened EventExecutor
  import opened EventOutcome
  import opened EventRuns

  /** These actions, on their own, lead from s to t. */
  predicate Leads(s: Sys, acts: seq<Act>, t: Sys) {
    RunActs(Live(s, None), acts) == Live(t, None)
  }

  lemma {:induction false} LeadsOn(s: Sys, a: seq<Act>, t: Sys, b: seq<Act>, u: Sys)
    requires Leads(s, a, t) && Leads(t, b, u)
    ensures Leads(s, a + b, u)
  {
    RunActsConcat(Live(s, None), a, b);
  }

  lemma {:induction false} OneAct(s: Sys, a: Act)
    requires !a.Begin? && !a.Advance? && !a.Crash? && !a.HostChanges?
    ensures Leads(s, [a], Worked(s, a))
  {
    assert [a][..0] == [];
  }

  // ----- one event -----

  lemma {:induction false} StillOpen(s: Sys, event: nat, ids: seq<int>, n: nat, o: Outside)
    requires event < |s.db.events| && OpenIds(s.db.events[event], ids) && n < |ids|
    ensures Open(VisitTargets(s, event, ids[..n], o), event, ids[n])
  {
    assert ids[n] in ids && ids[n] !in ids[..n];
    assert forall id | id in ids[..n] :: id in ids;
    VisitsShape(s, event, ids, n, o);
    VisitsProgress(s, event, ids[..n], o);
  }

  lemma {:induction false} VisitsAreARun(s: Sys, event: nat, ids: seq<int>, o: Outside) returns (acts: seq<Act>)
    requires event < |s.db.events| && OpenIds(s.db.events[event], ids)
    ensures Leads(s, acts, VisitTargets(s, event, ids, o))
  {
    if ids == [] {
      acts := [];
    } else {
      var n := |ids| - 1;
      DropLast(ids);
      var front := VisitsAreARun(s, event, ids[..n], o);
      var before, f := VisitTargets(s, event, ids[..n], o), o.visits(event, ids[n]);
      StillOpen(s, event, ids, n, o);
      var visit := [Begin(event, ids[n])] + Advances(f, 7);
      VisitsAreRuns(before, event, ids[n], f, 7);
      LeadsOn(s, front, before, visit, VisitTargets(s, event, ids, o));
      acts := front + visit;
    }
  }

  /** The reply that decides a target's verdict. */
  function ReplyFor(user: int, replies: map<int, SetReply>): SetReply {
    if user in replies then replies[user] else SetFailed
  }

  lemma {:induction false} SettleIsAnAct(s: Sys, event: nat, user: int, attributes: map<int, RawValue>,
                                         replies: map<int, SetReply>)
    requires OpenUser(s, event, user)
    ensures Worked(s, Settle(event, user, attributes, ReplyFor(user, replies), Outcome))
         == SettleUser(s, event, user, attributes, Verdict(user, replies))
  {
  }

  lemma {:induction false} SettlesAreARun(s: Sys, event: nat, users: seq<int>, attributes: map<int, RawValue>,
                                          replies: map<int, SetReply>)
    returns (acts: seq<Act>)
    requires event < |s.db.events| && OpenUsers(s.db.events[event], users)
    ensures Leads(s, acts, SettleUsers(s, event, users, attributes, replies))
  {
    if users == [] {
      acts := [];
    } else {
      var n := |users| - 1;
      DropLast(users);
      var front := SettlesAreARun(s, event, users[..n], attributes, replies);
      var before := SettleUsers(s, event, users[..n], attributes, replies);
      assert users[n] in users;
      StillUntouched(s, event, users, n, attributes, replies);
      var a := Settle(event, users[n], attributes, ReplyFor(users[n], replies), Outcome);
      OneAct(before, a);
      SettleIsAnAct(before, event, users[n], attributes, replies);
      LeadsOn(s, front, before, [a], SettleUsers(s, event, users, attributes, replies));
      acts := front + [a];
    }
  }

  lemma {:induction false} StillUnfailed(s: Sys, event: nat, users: seq<int>, n: nat)
    requires event < |s.db.events| && OpenUsers(s.db.events[event], users) && n < |users|
    ensures OpenUser(FailUsers(s, event, users[..n]), event, users[n])
  {
    assert users[n] in users && users[n] !in users[..n];
    assert forall user | user in users[..n] :: user in users;
    FailsShape(s, event, users, n);
    FailsProgress(s, event, users[..n]);
  }

  lemma {:induction false} FailsAreARun(s: Sys, event: nat, users: seq<int>) returns (acts: seq<Act>)
    requires event < |s.db.events| && OpenUsers(s.db.events[event], users)
    ensures Leads(s, acts, FailUsers(s, event, users))
  {
    if users == [] {
      acts := [];
    } else {
      var n := |users| - 1;
      DropLast(users);
      var front := FailsAreARun(s, event, users[..n]);
      var before := FailUsers(s, event, users[..n]);
      StillUnfailed(s, event, users, n);
      OneAct(before, GiveUp(event, users[n]));
      LeadsOn(s, front, before, [GiveUp(event, users[n])], FailUsers(s, event, users));
      acts := front + [GiveUp(event, users[n])];
    }
  }

  /** Neither visits nor settlements say that their event is complete. */
  lemma {:induction false} VisitsLeaveCompletion(s: Sys, event: nat, ids: seq<int>, o: Outside)
    requires event < |s.db.events|
    ensures var t := VisitTargets(s, event, ids, o);
            event < |t.db.events| && t.db.events[event].complete == s.db.events[event].complete
  {
    if ids != [] {
      VisitsLeaveCompletion(s, event, ids[..|ids| - 1], o);
    }
  }

  lemma {:induction false} SettlesLeaveCompletion(s: Sys, event: nat, users: seq<int>, attributes: map<int, RawValue>,
                                                  replies: map<int, SetReply>)
    requires event < |s.db.events|
    ensures var t := SettleUsers(s, event, users, attributes, replies);
            event < |t.db.events| && t.db.events[event].complete == s.db.events[event].complete
  {
    if users != [] {
      SettlesLeaveCompletion(s, event, users[..|users| - 1], attributes, replies);
    }
  }

  lemma {:induction false} FailsLeaveCompletion(s: Sys, event: nat, users: seq<int>)
    requires event < |s.db.events|
    ensures var t := FailUsers(s, event, users);
            event < |t.db.events| && t.db.events[event].complete == s.db.events[event].complete
  {
    if users != [] {
      FailsLeaveCompletion(s, event, users[..|users| - 1]);
    }
  }

  lemma {:induction false} BalancesAreARun(s: Sys, event: nat, b: BalanceFaults) returns (acts: seq<Act>)
    requires event < |s.db.events|
    ensures Leads(s, acts, BalancesSettled(s, event, b))
    ensures var t := BalancesSettled(s, event, b);
            && event < |t.db.events| && t.db.events[event].complete == s.db.events[event].complete
            && t.db.events[event].balanceTargets.Keys == s.db.events[event].balanceTargets.Keys
  {
    var users := PendingUsers(s.db.events[event]);
    if b.attributes.Some? {
      acts := SettlesAreARun(s, event, users, b.attributes.value, b.replies);
      SettlesLeaveCompletion(s, event, users, b.attributes.value, b.replies);
    } else {
      acts := FailsAreARun(s, event, users);
      FailsLeaveCompletion(s, event, users);
    }
    BalancesSettledProgress(s, event, b);
    assert EventProgressed(s.db.events[event], BalancesSettled(s, event, b).db.events[event]);
  }

  lemma {:induction false} SubscriptionsAreARun(s: Sys, event: nat, o: Outside) returns (acts: seq<Act>)
    requires event < |s.db.events| && s.db.events[event].balanceTargets == map[]
    ensures var t := VisitTargets(s, event, PendingIds(s.db.events[event]), o);
            && Leads(s, acts, t) && event < |t.db.events|
            && t.db.events[event].complete == s.db.events[event].complete
            && t.db.events[event].balanceTargets == map[]
  {
    var ids := PendingIds(s.db.events[event]);
    acts := VisitsAreARun(s, event, ids, o);
    VisitsLeaveCompletion(s, event, ids, o);
    VisitsProgress(s, event, ids, o);
  }

  /** The last act of a turn. */
  lemma {:induction false} FinishIsAnAct(s: Sys, event: nat)
    requires event < |s.db.events| && !s.db.events[event].complete
    ensures var e := s.db.events[event];
            Leads(s, [Finish(event)],
                  FinishAt(s, event, if e.balanceTargets != map[] then BalanceFinished(e) else Finished(e)))
  {
    OneAct(s, Finish(event));
  }

  lemma {:induction false} TurnIsARun(s: Sys, event: nat, o: Outside) returns (acts: seq<Act>)
    requires event < |s.db.events| && !s.db.events[event].complete
    ensures Leads(s, acts, EventProcessed(s, event, o))
  {
    var mid: Sys;
    if s.db.events[event].balanceTargets != map[] {
      acts := BalancesAreARun(s, event, o.balances(event));
      mid := BalancesSettled(s, event, o.balances(event));
      SameEmptiness(s.db.events[event].balanceTargets, mid.db.events[event].balanceTargets);
    } else {
      acts := SubscriptionsAreARun(s, event, o);
      mid := VisitTargets(s, event, PendingIds(s.db.events[event]), o);
    }
    FinishIsAnAct(mid, event);
    LeadsOn(s, acts, mid, [Finish(event)], EventProcessed(s, event, o));
    acts := acts + [Finish(event)];
  }

  // ----- a pass, and a run -----

  lemma {:induction false} StillPending(s: Sys, events: seq<nat>, n: nat, o: Outside)
    requires n < |events| && AscendBelow(events, |s.db.events|)
    ensures var before := EventsProcessed(s, events[..n], o);
            events[n] < |before.db.events| && before.db.events[events[n]] == s.db.events[events[n]]
  {
    assert events[n] !in events[..n];
    EventsProcessedProgress(s, events[..n], o);
  }

  lemma {:induction false} TurnsAreARun(s: Sys, events: seq<nat>, o: Outside) returns (acts: seq<Act>)
    requires AscendBelow(events, |s.db.events|)
    requires forall k | 0 <= k < |events| :: !s.db.events[events[k]].complete
    ensures Leads(s, acts, EventsProcessed(s, events, o))
  {
    if events == [] {
      acts := [];
    } else {
      var n := |events| - 1;
      var front := TurnsAreARun(s, events[..n], o);
      var before := EventsProcessed(s, events[..n], o);
      StillPending(s, events, n, o);
      var turn := TurnIsARun(before, events[n], o);
      LeadsOn(s, front, before, turn, EventsProcessed(s, events, o));
      acts := front + turn;
    }
  }

  /** Every pass, whatever fails in it, is one of the runs. */
  lemma {:induction false} PassIsARun(s: Sys, o: Outside) returns (acts: seq<Act>)
    ensures Leads(s, acts, Pass(s, o))
  {
    var events := PendingEvents(s.db.events);
    PendingEventsAscend(s.db.events);
    PendingEventsOrdered(s.db.events);
    forall k | 0 <= k < |events| ensures !s.db.events[events[k]].complete {
      assert events[k] in events;
    }
    acts := TurnsAreARun(s, events, o);
  }

  lemma {:induction false} PollsAreARun(s: Sys, polls: seq<Poll>) returns (acts: seq<Act>)
    ensures Leads(s, acts, s.(db := AllPolled(s.db, polls)))
    ensures PollsOf(Live(s, None), acts) == polls
  {
    if polls == [] {
      acts := [];
      assert s.(db := AllPolled(s.db, [])) == s;
    } else {
      var n := |polls| - 1;
      var front := PollsAreARun(s, polls[..n]);
      var before := s.(db := AllPolled(s.db, polls[..n]));
      OneAct(before, PollAccount(polls[n]));
      LeadsOn(s, front, before, [PollAccount(polls[n])], s.(db := AllPolled(s.db, polls)));
      acts := front + [PollAccount(polls[n])];
      assert acts[..|acts| - 1] == front;
      assert polls == polls[..n] + [polls[n]];
    }
  }

  /**
   Every run of the executor, a pass, the accounts and a second pass, is one of the runs: so every result about
   their states holds before it, after it, and wherever it is cut.
   */
  lemma {:induction false} ExecutorRunIsARun(s: Sys, first: Outside, polls: seq<Poll>, second: Outside)
    returns (acts: seq<Act>)
    ensures var between := Pass(s, first);
            var polled := between.(db := AllPolled(between.db, polls));
            Leads(s, acts, Pass(polled, second))
  {
    var between := Pass(s, first);
    var polled := between.(db := AllPolled(between.db, polls));
    var a := PassIsARun(s, first);
    var b := PollsAreARun(between, polls);
    var c := PassIsARun(polled, second);
    LeadsOn(s, a, between, b, polled);
    LeadsOn(s, a + b, polled, c, Pass(polled, second));
    acts := a + b + c;
  }
}
