/** One run of the executor: a pass, the accounts, and a second pass, with the counts of both in one report. */
module ExecutorRun {
  import opened Common
  import opened StateStore
  import opened HostCycle
  import opened RetryEngine
  import opened EventPass
  import opened EventExecutor
  import EventRuns

  function AccountsPolled(s: Sys, polls: seq<Poll>): Sys {
    s.(db := AllPolled(s.db, polls))
  }

  function PassCounts(s: Sys, o: Outside): Counts {
    EventsCounts(s, PendingEvents(s.db.events), o)
  }

  /** `main` between opening the store and writing the report. */
  method RunExecutor(store: Store, host: AdminHost, dryRun: bool, first: Outside, polls: seq<Poll>, second: Outside)
    returns (counts: Counts)
    modifies store, host
    ensures var s := old(System(store, host));
            var u := AccountsPolled(Pass(s, first), polls);
            if dryRun then System(store, host) == AccountsPolled(s, polls) && counts == ZERO
            else System(store, host) == Pass(u, second) && counts == PassCounts(s, first).Plus(PassCounts(u, second))
  {
    counts := ZERO;
    if !dryRun {
      counts := ProcessPendingEvents(store, host, first);
    }
    PollAccounts(store, polls);
    if !dryRun {
      var again := ProcessPendingEvents(store, host, second);
      counts := counts.Plus(again);
    }
  }

  // ----- what the report says -----

  /** The balance targets still pending in an event. */
  function OpenIn(e: Event): nat {
    if e.balanceTargets != map[] then |PendingUsers(e)| else 0
  }

  function OpenUpTo(events: seq<Event>, n: nat): nat
    requires n <= |events|
  {
    if n == 0 then 0 else OpenUpTo(events, n - 1) + OpenIn(events[n - 1])
  }

  /** All balance targets still pending. */
  function StillPending(s: Sys): nat {
    OpenUpTo(s.db.events, |s.db.events|)
  }

  /** As in every reachable store: a complete event has no open balance target. */
  ghost predicate CompleteIsSettled(s: Sys) {
    forall k | 0 <= k < |s.db.events| && s.db.events[k].complete :: AllSettled(s.db.events[k].balanceTargets)
  }

  lemma {:induction false} SettledHasNoneOpen(e: Event)
    requires AllSettled(e.balanceTargets)
    ensures OpenIn(e) == 0
  {
    SortedLength(PendingUsers(e), OpenUserSet(e));
    assert OpenUserSet(e) == {};
  }

  /** Events that were complete hold nothing open, so the pending ones hold all of it. */
  lemma {:induction false} PendingHoldAll(before: seq<Event>, after: seq<Event>, n: nat)
    requires n <= |before| == |after|
    requires forall k | 0 <= k < |before| && before[k].complete :: AllSettled(after[k].balanceTargets)
    ensures OpenBalances(after, PendingEvents(before[..n])) == OpenUpTo(after, n)
  {
    if n > 0 {
      PendingHoldAll(before, after, n - 1);
      assert before[..n][..n - 1] == before[..n - 1];
      var earlier := PendingEvents(before[..n - 1]);
      if before[n - 1].complete {
        SettledHasNoneOpen(after[n - 1]);
        assert PendingEvents(before[..n]) == earlier + [] == earlier;
      } else {
        assert (earlier + [n - 1])[..|earlier|] == earlier;
      }
    }
  }

  /** The counts of one pass, over all events. */
  lemma {:induction false} PassReports(s: Sys, o: Outside)
    requires CompleteIsSettled(s)
    ensures CompleteIsSettled(Pass(s, o))
    ensures var c := PassCounts(s, o);
            c.done + c.skipped + c.failed == StillPending(s) && c.failed == StillPending(Pass(s, o))
  {
    var t := Pass(s, o);
    PassProgress(s, o);
    PassCountsExact(s, o);
    forall k | 0 <= k < |s.db.events| && s.db.events[k].complete ensures AllSettled(t.db.events[k].balanceTargets) {
    }
    PendingHoldAll(s.db.events, s.db.events, |s.db.events|);
    PendingHoldAll(s.db.events, t.db.events, |s.db.events|);
    assert s.db.events[..|s.db.events|] == s.db.events;
    forall k | 0 <= k < |t.db.events| && t.db.events[k].complete ensures AllSettled(t.db.events[k].balanceTargets) {
      assert !s.db.events[k].complete ==> Settled(t.db.events[k]);
    }
  }

  lemma {:induction false} PollKeepsSettled(s: Sys, p: Poll)
    requires CompleteIsSettled(s)
    ensures CompleteIsSettled(s.(db := Polled(s.db, p)))
  {
  }

  lemma {:induction false} PollsKeepSettled(s: Sys, polls: seq<Poll>)
    requires CompleteIsSettled(s)
    ensures CompleteIsSettled(AccountsPolled(s, polls))
  {
    if polls != [] {
      PollsKeepSettled(s, polls[..|polls| - 1]);
      PollKeepsSettled(AccountsPolled(s, polls[..|polls| - 1]), polls[|polls| - 1]);
    }
  }

  /**
   The report of a run counts a target that failed in the first pass again in the second. So the failures it
   reports are the targets still pending at its end plus those pending between the passes, and are exactly
   the targets still pending if and only if the first pass left none.
   */
  lemma {:induction false} ReportedFailuresArePendingIff(s: Sys, first: Outside, polls: seq<Poll>, second: Outside)
    requires CompleteIsSettled(s)
    ensures var between := Pass(s, first);
            var u := AccountsPolled(between, polls);
            var c := PassCounts(s, first).Plus(PassCounts(u, second));
            && c.done + c.skipped + c.failed == StillPending(s) + StillPending(u)
            && c.failed == StillPending(Pass(u, second)) + StillPending(between)
            && (c.failed == StillPending(Pass(u, second)) <==> StillPending(between) == 0)
  {
    PassReports(s, first);
    PollsKeepSettled(Pass(s, first), polls);
    PassReports(AccountsPolled(Pass(s, first), polls), second);
  }

  /** What the results above assume holds of every state a run over any host, cut anywhere, can leave. */
  lemma {:induction false} ReachableIsSettled(subs: map<int, Subscription>, acts: seq<EventRuns.Act>)
    requires forall i | 0 <= i < |acts| && acts[i].PollAccount? :: EventRuns.PositivePlan(acts[i].poll.plan)
    ensures CompleteIsSettled(EventRuns.RunActs(EventRuns.Start(subs), acts).sys)
  {
    EventRuns.EventsAlwaysWellFormed(subs, acts);
    var s := EventRuns.RunActs(EventRuns.Start(subs), acts).sys;
    forall k | 0 <= k < |s.db.events| && s.db.events[k].complete ensures AllSettled(s.db.events[k].balanceTargets) {
      assert EventRuns.WellFormed(s.db.events[k]);
    }
  }

  // ----- a target that is reported twice -----

  /** An event with one balance target. */
  function One(user: int, target: real, status: TargetStatus): Event {
    Event(1, 0, [], Windows(false, true, false), map[], map[user := BalanceRow(target, status)], status.Terminal())
  }

  lemma {:induction false} SortedOne(x: int)
    ensures SortedIds({x}) == [x]
  {
    assert {x} - {x} == {};
    assert SortedIds({}) == [];
  }

  lemma {:induction false} OnePending(user: int, target: real, status: TargetStatus)
    requires !status.Terminal()
    ensures |PendingUsers(One(user, target, status))| == 1 && PendingUsers(One(user, target, status))[0] == user
    ensures PendingEvents([One(user, target, status)]) == [0]
  {
    var e := One(user, target, status);
    assert (set u | u in e.balanceTargets && !e.balanceTargets[u].status.Terminal()) == {user};
    SortedOne(user);
    assert [e][..0] == [];
    assert PendingEvents([e]) == PendingEvents([]) + [0];
  }

  lemma {:induction false} SettlesAlone(s: Sys, users: seq<int>, replies: map<int, SetReply>)
    requires |users| == 1 && HasUser(s, 0, users[0])
    ensures SettleUsers(s, 0, users, map[], replies) == SettleUser(s, 0, users[0], map[], Verdict(users[0], replies))
  {
    var none := users[..0];
    assert SettleUsers(s, 0, none, map[], replies) == s;
  }

  lemma {:induction false} TalliesAlone(users: seq<int>, replies: map<int, SetReply>)
    requires |users| == 1
    ensures TallyUsers(users, replies) == Tally(Verdict(users[0], replies))
  {
    var none := users[..0];
    assert TallyUsers(none, replies) == ZERO;
  }

  /** Its row, settled with no new attribute, and the event finished. */
  lemma {:induction false} SettledRow(s: Sys, user: int, target: real, status: TargetStatus, v: TargetStatus)
    requires s.db.events == [One(user, target, status)] && !status.Terminal()
    ensures var t := SettleUser(s, 0, user, map[], v);
            |t.db.events| == 1 && FinishAt(t, 0, BalanceFinished(t.db.events[0])).db.events == [One(user, target, v)]
  {
    var e := s.db.events[0];
    var t := SettleUser(s, 0, user, map[], v);
    assert e.balanceTargets[user := BalanceRow(target, v)] == map[user := BalanceRow(target, v)];
    assert t.db.events == [e.(balanceTargets := map[user := BalanceRow(target, v)])];
    assert AllSettled(map[user := BalanceRow(target, v)]) <==> v.Terminal();
    assert BalanceFinished(t.db.events[0]) == One(user, target, v);
  }

  /** What its turn makes of it: the verdict on its reply. */
  lemma {:induction false} OneSettles(s: Sys, user: int, target: real, status: TargetStatus,
                                      replies: map<int, SetReply>)
    requires s.db.events == [One(user, target, status)] && !status.Terminal()
    ensures BalancesProcessed(s, 0, BalanceFaults(Some(map[]), replies)).db.events
         == [One(user, target, Verdict(user, replies))]
  {
    OnePending(user, target, status);
    SettlesAlone(s, PendingUsers(s.db.events[0]), replies);
    SettledRow(s, user, target, status, Verdict(user, replies));
  }

  /** Counted once. */
  lemma {:induction false} OneCounts(user: int, target: real, status: TargetStatus, replies: map<int, SetReply>)
    requires !status.Terminal()
    ensures BalanceCounts(One(user, target, status), BalanceFaults(Some(map[]), replies))
         == Tally(Verdict(user, replies))
  {
    OnePending(user, target, status);
    TalliesAlone(PendingUsers(One(user, target, status)), replies);
  }

  /** A pass over a single event is its turn. */
  lemma {:induction false} PassOfOne(s: Sys, o: Outside)
    requires |s.db.events| == 1 && PendingEvents(s.db.events) == [0]
    ensures Pass(s, o) == EventProcessed(s, 0, o)
    ensures PassCounts(s, o) == EventCounts(s.db.events[0], o.balances(0))
  {
    var none: seq<nat> := [];
    var one: seq<nat> := [0];
    assert one[..0] == none;
    assert EventsProcessed(s, none, o) == s && EventsCounts(s, none, o) == ZERO;
    assert EventsProcessed(s, one, o) == EventProcessed(s, 0, o);
    assert EventsCounts(s, one, o) == ZERO.Plus(EventCounts(s.db.events[0], o.balances(0)));
  }

  lemma {:induction false} OnePass(s: Sys, user: int, target: real, status: TargetStatus, reply: SetReply, o: Outside)
    requires s.db.events == [One(user, target, status)] && !status.Terminal()
    requires o.balances(0) == BalanceFaults(Some(map[]), map[user := reply])
    ensures var v := Verdict(user, map[user := reply]);
            Pass(s, o).db.events == [One(user, target, v)] && PassCounts(s, o) == Tally(v)
  {
    OnePending(user, target, status);
    PassOfOne(s, o);
    OneSettles(s, user, target, status, map[user := reply]);
    OneCounts(user, target, status, map[user := reply]);
  }

  lemma {:induction false} OneDone(s: Sys, user: int, target: real)
    requires s.db.events == [One(user, target, Done)]
    ensures StillPending(s) == 0
  {
    SettledHasNoneOpen(s.db.events[0]);
    assert OpenUpTo(s.db.events, 0) == 0;
  }

  lemma {:induction false} FirstFails(s: Sys, user: int, target: real, o: Outside)
    requires s.db.events == [One(user, target, Pending)]
    requires o.balances(0) == BalanceFaults(Some(map[]), map[user := SetFailed])
    ensures AccountsPolled(Pass(s, o), []).db.events == [One(user, target, Failed)]
    ensures PassCounts(s, o) == Counts(0, 0, 1)
  {
    OnePass(s, user, target, Pending, SetFailed, o);
  }

  lemma {:induction false} SecondSets(s: Sys, user: int, target: real, o: Outside)
    requires s.db.events == [One(user, target, Failed)]
    requires o.balances(0) == BalanceFaults(Some(map[]), map[user := SetOk])
    ensures PassCounts(s, o) == Counts(1, 0, 0) && StillPending(Pass(s, o)) == 0
  {
    OnePass(s, user, target, Failed, SetOk, o);
    OneDone(Pass(s, o), user, target);
  }

  /**
   A target whose set call fails in the first pass and succeeds in the second: the run reports it both failed
   and set, and nothing is pending any more.
   */
  lemma {:induction false} ReportedFailedAndSet(s: Sys, user: int, target: real, first: Outside, second: Outside)
    requires s.db.events == [One(user, target, Pending)]
    requires first.balances(0) == BalanceFaults(Some(map[]), map[user := SetFailed])
    requires second.balances(0) == BalanceFaults(Some(map[]), map[user := SetOk])
    ensures var u := AccountsPolled(Pass(s, first), []);
            && PassCounts(s, first).Plus(PassCounts(u, second)) == Counts(1, 0, 1)
            && StillPending(Pass(u, second)) == 0
  {
    FirstFails(s, user, target, first);
    SecondSets(AccountsPolled(Pass(s, first), []), user, target, second);
  }
}
