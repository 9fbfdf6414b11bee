/** What holds of the stored rows and events after any number of polls, in either mode. */
module AccountRuns {
  import opened Common
  import opened CycleDetector
  import opened StateStore

  const EMPTY := Db(map[], [])

  /** The boundaries of an account's events, oldest first, of both modes alike. */
  function Cycles(events: seq<Event>, a: int): seq<int> {
    if events == [] then [] else
      var last := events[|events| - 1];
      var before := Cycles(events[..|events| - 1], a);
      if last.accountId == a then before + [last.cycleResetAt] else before
  }

  /** The boundary each account was first seen with. */
  function Baselines(polls: seq<Poll>): map<int, int> {
    if polls == [] then map[] else
      var p := polls[|polls| - 1];
      var before := Baselines(polls[..|polls| - 1]);
      if p.accountId in before then before else before[p.accountId := p.snapshot.resetAt]
  }

  ghost predicate Spaced(chain: seq<int>, gap: int) {
    forall i | 0 < i < |chain| :: chain[i] - chain[i - 1] > gap
  }

  /** Every reset under these thresholds moves the boundary by more than `gap`. */
  ghost predicate ResetsAdvanceBy(c: Thresholds, gap: int) {
    forall st, sn :: Decide(Some(st), sn, c).Reset? ==> sn.resetAt - st.resetAt > gap
  }

  /** Each poll's targets came from a duplicate-free listing, and its resets advance by more than `gap`. */
  ghost predicate Advancing(polls: seq<Poll>, gap: int) {
    forall i | 0 <= i < |polls| :: AdvancingPoll(polls[i], gap)
  }

  ghost predicate AdvancingPoll(p: Poll, gap: int) {
    ResetsAdvanceBy(p.thresholds, gap) && NoDuplicates(p.plan.Ids())
  }

  /** Each poll's targets came from a duplicate-free listing. */
  predicate DistinctTargets(polls: seq<Poll>) {
    forall i | 0 <= i < |polls| :: NoDuplicates(polls[i].plan.Ids())
  }

  /** And each ran under thresholds whose resets advance past a guard of at least `gap`, as all saved ones do. */
  ghost predicate Sound(polls: seq<Poll>, gap: int) {
    forall i | 0 <= i < |polls| :: SoundPoll(polls[i], gap)
  }

  ghost predicate SoundPoll(p: Poll, gap: int) {
    ResetsAdvancePastGuard(p.thresholds) && gap <= p.thresholds.Guard() && NoDuplicates(p.plan.Ids())
  }

  /** Any thresholds at all advance by more than -1: no reset goes back. */
  lemma {:induction false} DistinctIsAdvancing(polls: seq<Poll>)
    requires DistinctTargets(polls)
    ensures Advancing(polls, -1)
  {
    forall i | 0 <= i < |polls| ensures AdvancingPoll(polls[i], -1) {
      forall st, sn | Decide(Some(st), sn, polls[i].thresholds).Reset? ensures sn.resetAt - st.resetAt > -1 {
        ResetNeverGoesBack(st, sn, polls[i].thresholds);
      }
    }
  }

  lemma {:induction false} SoundIsAdvancing(polls: seq<Poll>, gap: int)
    requires Sound(polls, gap)
    ensures Advancing(polls, gap)
  {
    forall i | 0 <= i < |polls| ensures AdvancingPoll(polls[i], gap) {
      assert SoundPoll(polls[i], gap);
    }
  }

  /** The baseline and the boundaries of an account's events, in order. */
  function Chain(db: Db, a: int, base: int): seq<int> {
    [base] + Cycles(db.events, a)
  }

  ghost predicate AccountOk(db: Db, a: int, base: int, gap: int) {
    && a in db.accounts
    && var chain := Chain(db, a, base);
    && Spaced(chain, gap)
    && db.accounts[a].resetAt == chain[|chain| - 1]
    && (|chain| > 1 ==> db.accounts[a].resetAt <= db.accounts[a].sampleAt + WEEK + BOUNDARY_TOLERANCE)
  }

  /** An account with a baseline has a sound row; one without has neither row nor event. */
  ghost predicate AccountInv(db: Db, bases: map<int, int>, a: int, gap: int) {
    if a in bases then AccountOk(db, a, bases[a], gap) else a !in db.accounts && Cycles(db.events, a) == []
  }

  lemma {:induction false} CyclesAppend(events: seq<Event>, e: Event, a: int)
    ensures Cycles(events + [e], a)
         == if e.accountId == a then Cycles(events, a) + [e.cycleResetAt] else Cycles(events, a)
  {
    assert (events + [e])[..|events|] == events;
  }

  lemma {:induction false} TakenKeyIsACycle(events: seq<Event>, a: int, c: int)
    ensures KeyTaken(events, a, c) <==> c in Cycles(events, a)
  {
    if events != [] {
      var n := |events| - 1;
      TakenKeyIsACycle(events[..n], a, c);
      if KeyTaken(events[..n], a, c) {
        var i :| 0 <= i < n && events[..n][i].accountId == a && events[..n][i].cycleResetAt == c;
        assert events[i].accountId == a && events[i].cycleResetAt == c;
      }
      if KeyTaken(events, a, c) && !(events[n].accountId == a && events[n].cycleResetAt == c) {
        var i :| 0 <= i < |events| && events[i].accountId == a && events[i].cycleResetAt == c;
        assert events[..n][i].accountId == a;
      }
    }
  }

  lemma {:induction false} SpacedBelowLast(chain: seq<int>, gap: int, k: nat)
    requires gap >= -1 && Spaced(chain, gap) && k < |chain|
    ensures chain[k] <= chain[|chain| - 1]
    decreases |chain| - k
  {
    if k + 1 < |chain| {
      SpacedBelowLast(chain, gap, k + 1);
    }
  }

  /** n spaced steps climb more than n gaps. */
  lemma {:induction false} SpacedClimb(chain: seq<int>, gap: int)
    requires |chain| > 1 && Spaced(chain, gap)
    ensures chain[|chain| - 1] - chain[0] > (|chain| - 1) * gap
  {
    if |chain| > 2 {
      SpacedClimb(chain[..|chain| - 1], gap);
      assert (|chain| - 1) * gap == (|chain| - 2) * gap + gap;
    }
  }

  /**
   The key of a boundary no earlier than the confirmed one is taken exactly when it is the confirmed one and
   the account has an event.
   */
  lemma {:induction false} KeyTakenIff(db: Db, a: int, base: int, gap: int, c: int)
    requires gap >= -1 && AccountOk(db, a, base, gap) && c >= db.accounts[a].resetAt
    ensures KeyTaken(db.events, a, c) <==> c == db.accounts[a].resetAt && Cycles(db.events, a) != []
  {
    var cycles, chain := Cycles(db.events, a), Chain(db, a, base);
    TakenKeyIsACycle(db.events, a, c);
    if c in cycles {
      var k :| 0 <= k < |cycles| && cycles[k] == c;
      assert chain[k + 1] == c;
      SpacedBelowLast(chain, gap, k + 1);
    }
    if cycles != [] {
      assert cycles[|cycles| - 1] == chain[|chain| - 1] && cycles[|cycles| - 1] in cycles;
    }
  }

  /** So a reset that advances never meets the key of an existing event. */
  lemma {:induction false} ResetKeyIsNew(db: Db, a: int, base: int, gap: int, sn: Snapshot, c: Thresholds)
    requires gap >= 0 && AccountOk(db, a, base, gap) && ResetsAdvanceBy(c, gap)
    requires Decide(Row(db, a), sn, c).Reset?
    ensures !KeyTaken(db.events, a, sn.resetAt)
  {
    assert Row(db, a) == Some(db.accounts[a]);
    KeyTakenIff(db, a, base, gap, sn.resetAt);
  }

  lemma {:induction false} SpacedSnoc(chain: seq<int>, next: int, gap: int)
    requires Spaced(chain, gap) && (chain != [] ==> next - chain[|chain| - 1] > gap)
    ensures Spaced(chain + [next], gap)
  {
  }

  /** Creating an event extends the chain of its account by one spaced boundary. */
  lemma {:induction false} EventExtendsChain(db: Db, a: int, base: int, gap: int, sn: Snapshot, plan: Plan)
    requires AccountOk(db, a, base, gap) && !plan.Withhold? && Insertable(db, a, sn, plan)
    requires sn.resetAt - db.accounts[a].resetAt > gap
    requires sn.resetAt <= sn.sampleAt + WEEK + BOUNDARY_TOLERANCE
    ensures AccountOk(WithEvent(db, a, sn, plan), a, base, gap)
  {
    CyclesAppend(db.events, NewEvent(a, sn, plan), a);
    assert Chain(WithEvent(db, a, sn, plan), a, base) == Chain(db, a, base) + [sn.resetAt];
    SpacedSnoc(Chain(db, a, base), sn.resetAt, gap);
  }

  /** The fallback for a taken key of the confirmed boundary moves nothing but the sample. */
  lemma {:induction false} FallbackKeepsChain(db: Db, a: int, base: int, gap: int, sn: Snapshot, plan: Plan)
    requires AccountOk(db, a, base, gap) && !plan.Withhold? && !Insertable(db, a, sn, plan)
    requires sn.resetAt == db.accounts[a].resetAt && sn.sampleAt >= db.accounts[a].sampleAt
    ensures AccountOk(WithEvent(db, a, sn, plan), a, base, gap)
  {
  }

  /** A poll that queues nothing keeps boundary and events, and its sample is no older. */
  lemma {:induction false} UnqueuedPoll(db: Db, p: Poll)
    requires p.accountId in db.accounts
    requires Decide(Row(db, p.accountId), p.snapshot, p.thresholds).Reset? ==> p.plan.Withhold?
    ensures var after := Polled(db, p);
            && after.events == db.events
            && p.accountId in after.accounts
            && after.accounts[p.accountId].resetAt == db.accounts[p.accountId].resetAt
            && after.accounts[p.accountId].sampleAt >= db.accounts[p.accountId].sampleAt
  {
  }

  lemma {:induction false} QueuedPoll(db: Db, base: int, gap: int, p: Poll)
    requires gap >= -1 && AccountOk(db, p.accountId, base, gap) && AdvancingPoll(p, gap)
    requires Decide(Row(db, p.accountId), p.snapshot, p.thresholds).Reset? && !p.plan.Withhold?
    ensures AccountOk(WithEvent(db, p.accountId, p.snapshot, p.plan), p.accountId, base, gap)
  {
    var a, sn := p.accountId, p.snapshot;
    assert Row(db, a) == Some(db.accounts[a]);
    ResetNeverTooFarAhead(Row(db, a), sn, p.thresholds);
    KeyTakenIff(db, a, base, gap, sn.resetAt);
    if KeyTaken(db.events, a, sn.resetAt) {
      FallbackKeepsChain(db, a, base, gap, sn, p.plan);
    } else {
      EventExtendsChain(db, a, base, gap, sn, p.plan);
    }
  }

  lemma {:induction false} PollOfKnownAccount(db: Db, base: int, gap: int, p: Poll)
    requires gap >= -1 && AccountOk(db, p.accountId, base, gap) && AdvancingPoll(p, gap)
    ensures AccountOk(Polled(db, p), p.accountId, base, gap)
  {
    if Decide(Row(db, p.accountId), p.snapshot, p.thresholds).Reset? && !p.plan.Withhold? {
      QueuedPoll(db, base, gap, p);
    } else {
      UnqueuedPoll(db, p);
    }
  }

  /** A poll of one account leaves the row and the events of every other account alone. */
  lemma {:induction false} OtherAccountsUntouched(db: Db, p: Poll, x: int)
    requires x != p.accountId
    ensures Row(Polled(db, p), x) == Row(db, x)
    ensures Cycles(Polled(db, p).events, x) == Cycles(db.events, x)
  {
    if !p.plan.Withhold? {
      CyclesAppend(db.events, NewEvent(p.accountId, p.snapshot, p.plan), x);
    }
  }

  /** Every other account stays as it was. */
  lemma {:induction false} OthersStayOk(db: Db, p: Poll, x: int, base: int, gap: int)
    requires x != p.accountId
    ensures x in Polled(db, p).accounts <==> x in db.accounts
    ensures AccountOk(db, x, base, gap) ==> AccountOk(Polled(db, p), x, base, gap)
    ensures Cycles(Polled(db, p).events, x) == Cycles(db.events, x)
  {
    OtherAccountsUntouched(db, p, x);
    assert Row(Polled(db, p), x) == Row(db, x);
  }

  function WithBaseline(bases: map<int, int>, p: Poll): map<int, int> {
    if p.accountId in bases then bases else bases[p.accountId := p.snapshot.resetAt]
  }

  /** The account polled is sound afterwards, from the first poll on. */
  lemma {:induction false} PolledIsOk(db: Db, bases: map<int, int>, gap: int, p: Poll)
    requires gap >= -1 && AccountInv(db, bases, p.accountId, gap) && AdvancingPoll(p, gap)
    ensures AccountOk(Polled(db, p), p.accountId, WithBaseline(bases, p)[p.accountId], gap)
  {
    var a := p.accountId;
    if a in bases {
      PollOfKnownAccount(db, bases[a], gap, p);
    } else {
      assert Polled(db, p) == WithObservation(db, a, p.snapshot, true);
      assert Chain(Polled(db, p), a, p.snapshot.resetAt) == [p.snapshot.resetAt];
    }
  }

  lemma {:induction false} PolledKeepsAccount(db: Db, bases: map<int, int>, gap: int, p: Poll, x: int)
    requires gap >= -1 && AdvancingPoll(p, gap)
    requires AccountInv(db, bases, x, gap) && AccountInv(db, bases, p.accountId, gap)
    ensures AccountInv(Polled(db, p), WithBaseline(bases, p), x, gap)
  {
    if x == p.accountId {
      PolledIsOk(db, bases, gap, p);
    } else {
      OthersStayOk(db, p, x, if x in bases then bases[x] else 0, gap);
    }
  }

  lemma {:induction false} RunKeepsAccount(polls: seq<Poll>, gap: int, a: int)
    requires gap >= -1 && Advancing(polls, gap)
    ensures AccountInv(AllPolled(EMPTY, polls), Baselines(polls), a, gap)
  {
    if polls != [] {
      var n := |polls| - 1;
      RunKeepsAccount(polls[..n], gap, a);
      RunKeepsAccount(polls[..n], gap, polls[n].accountId);
      PolledKeepsAccount(AllPolled(EMPTY, polls[..n]), Baselines(polls[..n]), gap, polls[n], a);
    }
  }

  // ----- the results -----

  /**
   No lost reset, under any thresholds: whatever was polled, the stored boundary is the boundary of the
   account's newest durable event, or its baseline while it has none. An account without a row has no event.
   */
  lemma {:induction false} NoLostReset(polls: seq<Poll>, a: int)
    requires DistinctTargets(polls)
    ensures var db := AllPolled(EMPTY, polls);
            var cycles := Cycles(db.events, a);
            if a in db.accounts
            then a in Baselines(polls)
              && db.accounts[a].resetAt == if cycles == [] then Baselines(polls)[a] else cycles[|cycles| - 1]
            else cycles == []
  {
    DistinctIsAdvancing(polls);
    RunKeepsAccount(polls, -1, a);
    var db := AllPolled(EMPTY, polls);
    if a in db.accounts {
      assert AccountOk(db, a, Baselines(polls)[a], -1);
    }
  }

  /** Successive events of an account, of either mode, are further apart than max(jitter, five minutes). */
  lemma {:induction false} EventsOfAnAccountAreSpaced(polls: seq<Poll>, a: int, gap: int)
    requires gap >= 0 && Sound(polls, gap)
    ensures var cycles := Cycles(AllPolled(EMPTY, polls).events, a);
            && Spaced(cycles, gap)
            && (cycles != [] ==> a in Baselines(polls) && cycles[0] - Baselines(polls)[a] > gap)
  {
    SoundIsAdvancing(polls, gap);
    RunKeepsAccount(polls, gap, a);
    var db := AllPolled(EMPTY, polls);
    var cycles := Cycles(db.events, a);
    if a in Baselines(polls) {
      assert AccountOk(db, a, Baselines(polls)[a], gap);
      var chain := Chain(db, a, Baselines(polls)[a]);
      forall i | 0 < i < |cycles| ensures cycles[i] - cycles[i - 1] > gap {
        assert chain[i + 1] - chain[i] > gap;
      }
      if cycles != [] { assert chain[1] - chain[0] > gap; }
    }
  }

  /**
   Reset rate: an account with n > 0 events has n * gap < newest sample - baseline + 7 days + 5 minutes.
   Right after the n-th event is created the newest sample is the one that created it.
   */
  lemma {:induction false} ResetRateBound(polls: seq<Poll>, a: int, gap: int)
    requires gap >= 0 && Sound(polls, gap)
    requires Cycles(AllPolled(EMPTY, polls).events, a) != []
    ensures var db := AllPolled(EMPTY, polls);
            && a in db.accounts && a in Baselines(polls)
            && |Cycles(db.events, a)| * gap
                 < db.accounts[a].sampleAt - Baselines(polls)[a] + WEEK + BOUNDARY_TOLERANCE
  {
    SoundIsAdvancing(polls, gap);
    RunKeepsAccount(polls, gap, a);
    var db := AllPolled(EMPTY, polls);
    assert AccountOk(db, a, Baselines(polls)[a], gap);
    SpacedClimb(Chain(db, a, Baselines(polls)[a]), gap);
  }

  /** One poll keeps the events there are, and the one it may add has a new key. */
  lemma {:induction false} PolledKeysDistinct(db: Db, p: Poll, i: nat, j: nat)
    requires i < j < |Polled(db, p).events|
    ensures var events := Polled(db, p).events;
            if j < |db.events| then events[i] == db.events[i] && events[j] == db.events[j]
            else events[i].accountId == events[j].accountId ==> events[i].cycleResetAt != events[j].cycleResetAt
  {
  }

  /** Two events of an account never have the same boundary, under any thresholds. */
  lemma {:induction false} OneEventPerCycle(polls: seq<Poll>, i: nat, j: nat)
    requires var events := AllPolled(EMPTY, polls).events;
             && i < j < |events| && events[i].accountId == events[j].accountId
    ensures var events := AllPolled(EMPTY, polls).events;
            events[i].cycleResetAt != events[j].cycleResetAt
  {
    var front := polls[..|polls| - 1];
    PolledKeysDistinct(AllPolled(EMPTY, front), polls[|polls| - 1], i, j);
    if j < |AllPolled(EMPTY, front).events| {
      OneEventPerCycle(front, i, j);
    }
  }

  /** What one reset verdict that may be queued does to the tables: its event, or none, and its row. */
  ghost predicate ResetOutcome(db: Db, p: Poll) {
    var after := Polled(db, p);
    var a := p.accountId;
    && a in db.accounts && a in after.accounts
    && (|after.events| == |db.events| + 1 <==>
          NoDuplicates(p.plan.Ids())
          && !(p.snapshot.resetAt == db.accounts[a].resetAt && Cycles(db.events, a) != []))
    && (|after.events| == |db.events| + 1 ==>
          Cycles(after.events, a) == Cycles(db.events, a) + [p.snapshot.resetAt])
    && (|after.events| != |db.events| + 1 ==> after.events == db.events)
    && after.accounts[a].resetAt == p.snapshot.resetAt
    && after.accounts[a].sampleAt == p.snapshot.sampleAt
    && after.accounts[a].usedPercent == p.snapshot.usedPercent
    && after.accounts[a].windowCost
         == (if p.snapshot.windowCost.Some? then p.snapshot.windowCost else db.accounts[a].windowCost)
  }

  lemma {:induction false} ResetFollows(db: Db, base: int, p: Poll)
    requires AccountOk(db, p.accountId, base, -1) && !p.plan.Withhold?
    requires Decide(Row(db, p.accountId), p.snapshot, p.thresholds).Reset?
    ensures ResetOutcome(db, p)
  {
    var a := p.accountId;
    ResetNeverGoesBack(db.accounts[a], p.snapshot, p.thresholds);
    KeyTakenIff(db, a, base, -1, p.snapshot.resetAt);
    CyclesAppend(db.events, NewEvent(a, p.snapshot, p.plan), a);
  }

  /**
   In every store that polls with distinct targets reach, under any thresholds, a reset verdict queues exactly
   one event, recording its sample, if and only if its target ids are distinct and it does not repeat the
   boundary of the account's newest event; otherwise it queues nothing. The boundary moves either way.
   */
  lemma {:induction false} ResetQueuesOneEventIff(polls: seq<Poll>, p: Poll)
    requires DistinctTargets(polls) && !p.plan.Withhold?
    requires Decide(Row(AllPolled(EMPTY, polls), p.accountId), p.snapshot, p.thresholds).Reset?
    ensures ResetOutcome(AllPolled(EMPTY, polls), p)
  {
    DistinctIsAdvancing(polls);
    RunKeepsAccount(polls, -1, p.accountId);
    ResetFollows(AllPolled(EMPTY, polls), Baselines(polls)[p.accountId], p);
  }

  // ----- a reset that repeats a boundary -----

  /** All polls ran under these thresholds. */
  predicate Under(polls: seq<Poll>, c: Thresholds) {
    forall i | 0 <= i < |polls| :: polls[i].thresholds == c
  }

  /** In every run under these thresholds, each reset with distinct targets queues an event. */
  ghost predicate EveryResetQueues(c: Thresholds) {
    forall polls: seq<Poll>, p: Poll | DistinctTargets(polls) && Under(polls, c) && p.thresholds == c ::
      QueuesIfReset(polls, p)
  }

  ghost predicate QueuesIfReset(polls: seq<Poll>, p: Poll) {
    var db := AllPolled(EMPTY, polls);
    Decide(Row(db, p.accountId), p.snapshot, p.thresholds).Reset? && !p.plan.Withhold? && NoDuplicates(p.plan.Ids()) ==>
      |Polled(db, p).events| == |db.events| + 1
  }

  /** A poll of account 1 that would queue an event without targets. */
  function Sample(resetAt: int, sampleAt: int, percent: real, cost: Option<real>, c: Thresholds): Poll {
    Poll(1, Snapshot(resetAt, sampleAt, Some(percent), c.rearmSeconds, cost), c,
         QueueSubscriptions([], Windows(false, true, false), []))
  }

  /** A baseline, a reset to boundary DAY, and usage that rises again before that boundary. */
  function RepeatRun(c: Thresholds): seq<Poll> {
    [Sample(0, 0, 80.0, None, c),
     Sample(DAY, DAY - c.Rearm() - 2, 0.0, None, c),
     Sample(DAY, DAY - c.Rearm() - 1, 80.0, None, c)]
  }

  lemma {:induction false} PolledSnoc(polls: seq<Poll>, p: Poll)
    ensures AllPolled(EMPTY, polls + [p]) == Polled(AllPolled(EMPTY, polls), p)
  {
    assert (polls + [p])[..|polls|] == polls;
  }

  lemma {:induction false} ThreePolls(a: Poll, b: Poll, c: Poll)
    ensures AllPolled(EMPTY, [a, b, c]) == Polled(Polled(Polled(EMPTY, a), b), c)
  {
    assert [a] == [] + [a] && [a, b] == [a] + [b] && [a, b, c] == [a, b] + [c];
    PolledSnoc([], a);
    PolledSnoc([a], b);
    PolledSnoc([a, b], c);
  }

  /** The fall after that is a reset again, to the same boundary: its key is taken, and nothing is queued. */
  lemma {:induction false} RepeatQueuesNothing(c: Thresholds)
    requires c.MinShift() == 0 && c.Rearm() <= BOUNDARY_TOLERANCE
    ensures !QueuesIfReset(RepeatRun(c), Sample(DAY, DAY - c.Rearm(), 0.0, None, c))
  {
    var run := RepeatRun(c);
    ThreePolls(run[0], run[1], run[2]);
    var db1 := Polled(EMPTY, run[0]);
    assert db1 == Db(map[1 := State(0, 0, Some(80.0), None)], []);
    var db2 := Polled(db1, run[1]);
    assert Decide(Row(db1, 1), run[1].snapshot, c).Reset?;
    assert db2.accounts[1] == State(DAY, DAY - c.Rearm() - 2, Some(0.0), None);
    assert |db2.events| == 1 && db2.events[0].accountId == 1 && db2.events[0].cycleResetAt == DAY;
    var db3 := Polled(db2, run[2]);
    assert !Decide(Row(db2, 1), run[2].snapshot, c).Reset?;
    assert db3.accounts[1] == State(DAY, DAY - c.Rearm() - 1, Some(80.0), None) && db3.events == db2.events;
    assert KeyTaken(db3.events, 1, DAY);
  }

  /** Such a run exists exactly when thresholds ask for no shift and at most five minutes left. */
  lemma {:induction false} EveryResetQueuesIff(c: Thresholds)
    ensures EveryResetQueues(c) <==> !(c.MinShift() == 0 && c.Rearm() <= BOUNDARY_TOLERANCE)
  {
    if c.MinShift() == 0 && c.Rearm() <= BOUNDARY_TOLERANCE {
      RepeatQueuesNothing(c);
      assert DistinctTargets(RepeatRun(c)) && Under(RepeatRun(c), c);
    } else {
      ResetsCanRepeatIff(c);
      forall polls: seq<Poll>, p: Poll | DistinctTargets(polls) && Under(polls, c) && p.thresholds == c
        ensures QueuesIfReset(polls, p)
      {
        var db := AllPolled(EMPTY, polls);
        if Decide(Row(db, p.accountId), p.snapshot, p.thresholds).Reset? && !p.plan.Withhold? {
          ResetQueuesOneEventIff(polls, p);
        }
      }
    }
  }

  // ----- the spacing is tight -----

  // Two window-cost resets in a row, each just past the guard.

  function CloseFirst(c: Thresholds): Poll {
    Sample(c.Guard() + 1, -2 * BOUNDARY_TOLERANCE + 1, 50.0, Some(2.0), c)
  }

  function CloseSecond(c: Thresholds): Poll {
    Sample(2 * (c.Guard() + 1), -2 * BOUNDARY_TOLERANCE + 2, 50.0, Some(1.0), c)
  }

  function CloseRun(c: Thresholds): seq<Poll> {
    [Sample(0, -2 * BOUNDARY_TOLERANCE, 50.0, Some(3.0), c), CloseFirst(c), CloseSecond(c)]
  }

  lemma {:induction false} CloseRunIsSound(c: Thresholds)
    requires c.Accepted()
    ensures Sound(CloseRun(c), c.Guard())
  {
    ResetsAdvanceIffThresholds(c);
    var run := CloseRun(c);
    forall i | 0 <= i < |run| ensures SoundPoll(run[i], c.Guard()) {
      assert run[i].thresholds == c && run[i].plan.Ids() == [];
    }
  }

  lemma {:induction false} CloseRunBaseline(c: Thresholds)
    ensures 1 in Baselines(CloseRun(c)) && Baselines(CloseRun(c))[1] == 0
  {
    var run := CloseRun(c);
    assert run[..2][..1] == [run[0]] && [run[0]][..0] == [];
    assert Baselines([run[0]]) == map[1 := 0];
    assert Baselines(run[..2]) == map[1 := 0];
  }

  /** One such reset, on an account without rows in between. */
  lemma {:induction false} CostFollowQueues(db: Db, resetAt: int, sampleAt: int, cost: real, c: Thresholds)
    requires 1 in db.accounts
    requires db.accounts[1].sampleAt < sampleAt && sampleAt + BOUNDARY_TOLERANCE < db.accounts[1].resetAt
    requires db.accounts[1].usedPercent == Some(50.0)
    requires db.accounts[1].windowCost.Some? && cost < db.accounts[1].windowCost.value
    requires db.accounts[1].resetAt + c.Guard() < resetAt <= sampleAt + WEEK + BOUNDARY_TOLERANCE
    requires !KeyTaken(db.events, 1, resetAt)
    ensures var after := Polled(db, Sample(resetAt, sampleAt, 50.0, Some(cost), c));
            && after.accounts == db.accounts[1 := State(resetAt, sampleAt, Some(50.0), Some(cost))]
            && |after.events| == |db.events| + 1
            && Cycles(after.events, 1) == Cycles(db.events, 1) + [resetAt]
  {
    var p := Sample(resetAt, sampleAt, 50.0, Some(cost), c);
    assert Decide(Row(db, 1), p.snapshot, c) == Reset(CostFollow);
    CyclesAppend(db.events, NewEvent(1, p.snapshot, p.plan), 1);
  }

  predicate CloseBaseline(db: Db) {
    db.events == [] && 1 in db.accounts && db.accounts[1] == State(0, -2 * BOUNDARY_TOLERANCE, Some(50.0), Some(3.0))
  }

  lemma {:induction false} CloseRunUnfolds(c: Thresholds) returns (db: Db)
    ensures CloseBaseline(db)
    ensures AllPolled(EMPTY, CloseRun(c)) == Polled(Polled(db, CloseFirst(c)), CloseSecond(c))
  {
    var run := CloseRun(c);
    ThreePolls(run[0], run[1], run[2]);
    db := Polled(EMPTY, run[0]);
  }

  lemma {:induction false} FirstFollows(db: Db, c: Thresholds)
    requires c.Accepted() && CloseBaseline(db)
    ensures var after := Polled(db, CloseFirst(c));
            && 1 in after.accounts && Cycles(after.events, 1) == [c.Guard() + 1]
            && after.accounts[1] == State(c.Guard() + 1, -2 * BOUNDARY_TOLERANCE + 1, Some(50.0), Some(2.0))
  {
    CostFollowQueues(db, c.Guard() + 1, -2 * BOUNDARY_TOLERANCE + 1, 2.0, c);
  }

  lemma {:induction false} SecondFollows(db: Db, c: Thresholds)
    requires c.Accepted() && 1 in db.accounts && Cycles(db.events, 1) == [c.Guard() + 1]
    requires db.accounts[1] == State(c.Guard() + 1, -2 * BOUNDARY_TOLERANCE + 1, Some(50.0), Some(2.0))
    ensures Cycles(Polled(db, CloseSecond(c)).events, 1) == [c.Guard() + 1, 2 * (c.Guard() + 1)]
  {
    TakenKeyIsACycle(db.events, 1, 2 * (c.Guard() + 1));
    CostFollowQueues(db, 2 * (c.Guard() + 1), -2 * BOUNDARY_TOLERANCE + 2, 1.0, c);
  }

  lemma {:induction false} CloseRunCycles(c: Thresholds)
    requires c.Accepted()
    ensures Cycles(AllPolled(EMPTY, CloseRun(c)).events, 1) == [c.Guard() + 1, 2 * (c.Guard() + 1)]
  {
    var db := CloseRunUnfolds(c);
    FirstFollows(db, c);
    SecondFollows(Polled(db, CloseFirst(c)), c);
  }

  /**
   Under any saved thresholds three polls create two events one microsecond further apart than the guard,
   the first that far from the baseline: the spacing bound cannot be improved, and such events are less
   than seven days apart.
   */
  lemma {:induction false} EventsCanBeClose(c: Thresholds)
    requires c.Accepted()
    ensures Sound(CloseRun(c), c.Guard()) && 1 in Baselines(CloseRun(c)) && Baselines(CloseRun(c))[1] == 0
    ensures Cycles(AllPolled(EMPTY, CloseRun(c)).events, 1) == [c.Guard() + 1, 2 * (c.Guard() + 1)]
    ensures c.Guard() + 1 < WEEK
  {
    CloseRunIsSound(c);
    CloseRunBaseline(c);
    CloseRunCycles(c);
  }

  /** Every write of a row carries a later sample and never a smaller boundary; other rows keep theirs. */
  lemma {:induction false} RowsOnlyMoveForward(db: Db, p: Poll, x: int)
    requires x in db.accounts
    ensures var after := Polled(db, p);
            && x in after.accounts
            && after.accounts[x].resetAt >= db.accounts[x].resetAt
            && (after.accounts[x] == db.accounts[x] || after.accounts[x].sampleAt > db.accounts[x].sampleAt)
            && (x != p.accountId ==> after.accounts[x] == db.accounts[x])
  {
    if x == p.accountId && Decide(Row(db, x), p.snapshot, p.thresholds).Reset? {
      ResetNeverGoesBack(db.accounts[x], p.snapshot, p.thresholds);
    }
  }

  // ----- resets that are withheld -----

  /** Each poll of `a` reaches a reset verdict and is withheld, as in a dry run or without the balance attribute. */
  ghost predicate WithheldResets(db: Db, a: int, polls: seq<Poll>) {
    forall i | 0 <= i < |polls| && polls[i].accountId == a ::
      && Decide(Row(AllPolled(db, polls[..i]), a), polls[i].snapshot, polls[i].thresholds).Reset?
      && polls[i].plan.Withhold?
  }

  /**
   However often it is withheld, a reset is not spent: the row stays as it was, no event appears, and every
   snapshot is judged as before, so that the first poll that may queue the reset still does.
   */
  lemma {:induction false} WithheldResetIsNotSpent(db: Db, a: int, polls: seq<Poll>)
    requires WithheldResets(db, a, polls)
    ensures var after := AllPolled(db, polls);
            && Row(after, a) == Row(db, a) && Cycles(after.events, a) == Cycles(db.events, a)
            && forall sn, c :: Decide(Row(after, a), sn, c) == Decide(Row(db, a), sn, c)
  {
    if polls != [] {
      var n := |polls| - 1;
      assert WithheldResets(db, a, polls[..n]) by {
        assert forall i | 0 <= i < n :: polls[..n][..i] == polls[..i];
      }
      WithheldResetIsNotSpent(db, a, polls[..n]);
      if polls[n].accountId != a {
        OtherAccountsUntouched(AllPolled(db, polls[..n]), polls[n], a);
      }
    }
  }

  // ----- observations between two resets -----

  /** No poll of `a` along the run reaches a reset verdict. */
  ghost predicate Quiet(db: Db, a: int, polls: seq<Poll>) {
    forall i | 0 <= i < |polls| && polls[i].accountId == a ::
      !Decide(Row(AllPolled(db, polls[..i]), a), polls[i].snapshot, polls[i].thresholds).Reset?
  }

  /** The latest sample time among the row and the polls of `a`. */
  function LatestSample(st: State, a: int, polls: seq<Poll>): int {
    if polls == [] then st.sampleAt else
      var p := polls[|polls| - 1];
      var before := LatestSample(st, a, polls[..|polls| - 1]);
      if p.accountId == a && p.snapshot.sampleAt > before then p.snapshot.sampleAt else before
  }

  /** The percentage of that sample. */
  function LatestPercent(st: State, a: int, polls: seq<Poll>): Option<real> {
    if polls == [] then st.usedPercent else
      var p := polls[|polls| - 1];
      if p.accountId == a && p.snapshot.sampleAt > LatestSample(st, a, polls[..|polls| - 1])
      then p.snapshot.usedPercent
      else LatestPercent(st, a, polls[..|polls| - 1])
  }

  /** The window cost of the latest sample that gave one. */
  function LatestCost(st: State, a: int, polls: seq<Poll>): Option<real> {
    if polls == [] then st.windowCost else
      var p := polls[|polls| - 1];
      if p.accountId == a && p.snapshot.windowCost.Some?
         && p.snapshot.sampleAt > LatestSample(st, a, polls[..|polls| - 1])
      then p.snapshot.windowCost
      else LatestCost(st, a, polls[..|polls| - 1])
  }

  lemma {:induction false} QuietPoll(db: Db, p: Poll)
    requires p.accountId in db.accounts
    requires !Decide(Row(db, p.accountId), p.snapshot, p.thresholds).Reset?
    ensures var after := Polled(db, p);
            var st := db.accounts[p.accountId];
            && after.events == db.events
            && p.accountId in after.accounts
            && after.accounts[p.accountId].resetAt == st.resetAt
            && if p.snapshot.sampleAt > st.sampleAt
               then after.accounts[p.accountId].sampleAt == p.snapshot.sampleAt
                 && after.accounts[p.accountId].usedPercent == p.snapshot.usedPercent
                 && after.accounts[p.accountId].windowCost
                      == (if p.snapshot.windowCost.Some? then p.snapshot.windowCost else st.windowCost)
               else after == db
  {
  }

  lemma {:induction false} QuietRunKeepsBoundary(db: Db, a: int, polls: seq<Poll>)
    requires a in db.accounts && Quiet(db, a, polls)
    ensures var after := AllPolled(db, polls);
            && a in after.accounts
            && after.accounts[a].resetAt == db.accounts[a].resetAt
            && after.accounts[a].sampleAt == LatestSample(db.accounts[a], a, polls)
            && after.accounts[a].usedPercent == LatestPercent(db.accounts[a], a, polls)
            && after.accounts[a].windowCost == LatestCost(db.accounts[a], a, polls)
            && Cycles(after.events, a) == Cycles(db.events, a)
  {
    if polls != [] {
      var n := |polls| - 1;
      assert Quiet(db, a, polls[..n]) by {
        forall i | 0 <= i < n && polls[i].accountId == a
          ensures !Decide(Row(AllPolled(db, polls[..n][..i]), a), polls[i].snapshot, polls[i].thresholds).Reset?
        {
          assert polls[..n][..i] == polls[..i];
        }
      }
      QuietRunKeepsBoundary(db, a, polls[..n]);
      var before := AllPolled(db, polls[..n]);
      if polls[n].accountId == a {
        QuietPoll(before, polls[n]);
      } else {
        OtherAccountsUntouched(before, polls[n], a);
      }
    }
  }

  /** The first poll of an account puts its snapshot on file, and queues nothing. */
  lemma {:induction false} FirstPollIsOnFile(db: Db, p: Poll)
    requires p.accountId !in db.accounts
    ensures var after, sn := Polled(db, p), p.snapshot;
            && after.events == db.events && p.accountId in after.accounts
            && after.accounts[p.accountId].resetAt == sn.resetAt
            && after.accounts[p.accountId].sampleAt == sn.sampleAt
            && after.accounts[p.accountId].usedPercent == sn.usedPercent
            && after.accounts[p.accountId].windowCost == sn.windowCost
  {
  }

  /**
   However many snapshots were only observed, a cost below that of the latest sample that gave one, before the
   confirmed boundary and with a plausible new boundary, is a reset.
   */
  lemma {:induction false} ObservationsKeepTheCostDrop(db: Db, a: int, polls: seq<Poll>, sn: Snapshot, c: Thresholds)
    requires a in db.accounts && Quiet(db, a, polls)
    requires sn.sampleAt > LatestSample(db.accounts[a], a, polls)
    requires sn.sampleAt + BOUNDARY_TOLERANCE < db.accounts[a].resetAt
    requires db.accounts[a].resetAt + c.Guard() < sn.resetAt <= sn.sampleAt + WEEK + BOUNDARY_TOLERANCE
    requires !UsageReset(LatestPercent(db.accounts[a], a, polls), sn.usedPercent)
    ensures var before := LatestCost(db.accounts[a], a, polls);
            Decide(Row(AllPolled(db, polls), a), sn, c).Reset? <==>
              before.Some? && sn.windowCost.Some? && sn.windowCost.value < before.value
  {
    QuietRunKeepsBoundary(db, a, polls);
  }

  /**
   However many snapshots were only observed, a newer rearmed snapshot at or past the confirmed
   boundary (less five minutes), shifted by a full cycle, is a reset if and only if its percentage
   is at most 5 and at least one point below the last written sample.
   */
  lemma {:induction false} ObservationsKeepTheTransition(db: Db, a: int, polls: seq<Poll>, sn: Snapshot, c: Thresholds)
    requires a in db.accounts && Quiet(db, a, polls)
    requires sn.sampleAt > LatestSample(db.accounts[a], a, polls)
    requires Rearmed(sn, c)
    requires sn.sampleAt + BOUNDARY_TOLERANCE >= db.accounts[a].resetAt
    requires sn.resetAt - db.accounts[a].resetAt >= c.MinShift()
    ensures var before := LatestPercent(db.accounts[a], a, polls);
            Decide(Row(AllPolled(db, polls), a), sn, c).Reset? <==>
              && before.Some? && sn.usedPercent.Some?
              && sn.usedPercent.value <= 5.0 && sn.usedPercent.value + 1.0 <= before.value
  {
    QuietRunKeepsBoundary(db, a, polls);
  }

  /** Past the boundary, with usage below one percent throughout. */
  ghost predicate IdlePastBoundary(a: int, boundary: int, polls: seq<Poll>) {
    forall i | 0 <= i < |polls| && polls[i].accountId == a ::
      && polls[i].snapshot.sampleAt + BOUNDARY_TOLERANCE >= boundary
      && polls[i].snapshot.usedPercent.Some?
      && 0.0 <= polls[i].snapshot.usedPercent.value < 1.0
  }

  /** Past the boundary, below one percent before and after: no branch resets. */
  lemma {:induction false} IdleIsNoReset(st: State, p: Poll)
    requires st.usedPercent.Some? && st.usedPercent.value < 1.0
    requires p.snapshot.sampleAt + BOUNDARY_TOLERANCE >= st.resetAt
    requires p.snapshot.usedPercent.Some? && 0.0 <= p.snapshot.usedPercent.value
    ensures !Decide(Some(st), p.snapshot, p.thresholds).Reset?
  {
  }

  lemma {:induction false} QuietSnoc(db: Db, a: int, polls: seq<Poll>)
    requires polls != [] && Quiet(db, a, polls[..|polls| - 1])
    requires var p := polls[|polls| - 1];
             p.accountId == a ==>
               !Decide(Row(AllPolled(db, polls[..|polls| - 1]), a), p.snapshot, p.thresholds).Reset?
    ensures Quiet(db, a, polls)
  {
    var n := |polls| - 1;
    forall i | 0 <= i < |polls| && polls[i].accountId == a
      ensures !Decide(Row(AllPolled(db, polls[..i]), a), polls[i].snapshot, polls[i].thresholds).Reset?
    {
      assert i < n ==> polls[..n][..i] == polls[..i] && polls[..n][i] == polls[i];
    }
  }

  /**
   A drop that is written before the window has rearmed is spent: as long as usage then stays
   below one percent, no later snapshot, however well it matches a new cycle, resets anything.
   */
  lemma {:induction false} DropWrittenEarlyIsSpent(db: Db, a: int, polls: seq<Poll>)
    requires a in db.accounts && db.accounts[a].usedPercent.Some?
    requires db.accounts[a].usedPercent.value < 1.0
    requires IdlePastBoundary(a, db.accounts[a].resetAt, polls)
    ensures Quiet(db, a, polls)
    ensures Cycles(AllPolled(db, polls).events, a) == Cycles(db.events, a)
    ensures var after := AllPolled(db, polls);
            a in after.accounts && after.accounts[a].usedPercent.Some? && after.accounts[a].usedPercent.value < 1.0
  {
    if polls != [] {
      var n := |polls| - 1;
      DropWrittenEarlyIsSpent(db, a, polls[..n]);
      QuietRunKeepsBoundary(db, a, polls[..n]);
      var before := AllPolled(db, polls[..n]);
      if polls[n].accountId == a {
        IdleIsNoReset(before.accounts[a], polls[n]);
      }
      QuietSnoc(db, a, polls);
      if polls[n].accountId == a {
        QuietPoll(before, polls[n]);
      } else {
        OtherAccountsUntouched(before, polls[n], a);
      }
    }
  }

  /** One such loss: 80 percent drops to zero before the window rearms, and the full cycle that follows is ignored. */
  lemma {:induction false} EarlyDropExample(boundary: int)
    ensures var c := Thresholds(86400, 432000, 21600);
            var st := State(boundary, boundary - DAY, Some(80.0), None);
            var early := Snapshot(boundary, boundary, Some(0.0), 0, None);
            var full := Snapshot(boundary + WEEK, boundary + MINUTE, Some(0.0), 604800, None);
            && Decide(Some(st), full, c).Reset?
            && Decide(Some(st), early, c) == NotRearmed
            && Decide(Some(Observed(Some(st), early, false)), full, c) == Observe
  {
  }
}
