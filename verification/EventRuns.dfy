/**
 Polls and passes together, over any host, cut at any commit: the durable tables in every state a
 crash can leave. Each action is one step or commit of the executor, with the request that may precede
 it, or a change that the host's rows see in between.
 */
module EventRuns {
  import opened Common
  import opened StateStore
  import opened AccountRuns
  import opened HostCycle
  import opened RetryEngine
  import opened EventPass

  datatype Stage = Retargeted | Marked | SetSent | Outcome

  datatype Act =
    | PollAccount(poll: Poll)
    | Begin(event: nat, id: int)
    | Advance(faults: Faults)
    | Settle(event: nat, user: int, attributes: map<int, RawValue>, reply: SetReply, stage: Stage)
    | GiveUp(event: nat, user: int)
    | Finish(event: nat)
    | Crash
    | HostChanges(id: int, row: Option<Subscription>)

  /** The tables and the host, and the visit the executor is in the middle of. */
  datatype Live = Live(sys: Sys, busy: Option<(nat, int, Pc)>)

  function SettleCut(s: Sys, event: nat, user: int, attributes: map<int, RawValue>, reply: SetReply, stage: Stage): Sys
    requires HasUser(s, event, user)
  {
    var row := s.db.events[event].balanceTargets[user];
    var target := FreshTarget(row, user, attributes);
    match stage
    case Retargeted => s.(db := WithBalanceRow(s.db, event, user, row.(target := target)))
    case Marked => s.(db := WithBalanceRow(s.db, event, user, BalanceRow(target, Processing)))
    case SetSent => SettleUser(s, event, user, attributes, Processing)
    case Outcome => SettleUser(s, event, user, attributes, Verdict(user, map[user := reply]))
  }

  predicate Open(s: Sys, event: nat, id: int) {
    HasTarget(s, event, id) && !s.db.events[event].resetTargets[id].Terminal()
  }

  predicate OpenUser(s: Sys, event: nat, user: int) {
    HasUser(s, event, user) && !s.db.events[event].balanceTargets[user].status.Terminal()
  }

  /** One step of the visit at `pc`, against whatever the host holds now. */
  function Advanced(s: Sys, event: nat, id: int, pc: Pc, f: Faults): Live
    requires HasTarget(s, event, id)
  {
    var e := s.db.events[event];
    var v := VisitStep(Visit(pc, e.resetTargets[id], Lookup(s.subs, id), false, false), e, f);
    Live(Visited(s, event, id, v), if v.pc.Over? then None else Some((event, id, v.pc)))
  }

  /** What the executor does between two visits; it only touches pending events and open targets. */
  function Worked(s: Sys, a: Act): Sys {
    match a
    case PollAccount(p) => s.(db := Polled(s.db, p))
    case Settle(event, user, attributes, reply, stage) =>
      if OpenUser(s, event, user) then SettleCut(s, event, user, attributes, reply, stage) else s
    case GiveUp(event, user) =>
      if OpenUser(s, event, user)
      then s.(db := WithBalanceRow(s.db, event, user, s.db.events[event].balanceTargets[user].(status := Failed)))
      else s
    case Finish(event) =>
      if event < |s.db.events| && !s.db.events[event].complete then
        var e := s.db.events[event];
        FinishAt(s, event, if e.balanceTargets != map[] then BalanceFinished(e) else Finished(e))
      else s
    case _ => s
  }

  function Acted(l: Live, a: Act): Live {
    match a
    case Begin(event, id) => if l.busy.None? && Open(l.sys, event, id) then l.(busy := Some((event, id, Fetch))) else l
    case Advance(f) =>
      if l.busy.Some? && HasTarget(l.sys, l.busy.value.0, l.busy.value.1)
      then Advanced(l.sys, l.busy.value.0, l.busy.value.1, l.busy.value.2, f) else l
    case Crash => l.(busy := None)
    case HostChanges(id, row) =>
      l.(sys := l.sys.(subs := if row.Some? then l.sys.subs[id := row.value] else l.sys.subs - {id}))
    case _ => if l.busy.None? then l.(sys := Worked(l.sys, a)) else l
  }

  function RunActs(l: Live, acts: seq<Act>): Live {
    if acts == [] then l else Acted(RunActs(l, acts[..|acts| - 1]), acts[|acts| - 1])
  }

  /** Empty tables beside a host with any subscriptions. */
  function Start(subs: map<int, Subscription>): Live {
    Live(Sys(EMPTY, subs, [], []), None)
  }

  /** The polls that took place: a poll is no step of an executor that is in the middle of a visit. */
  function PollsOf(l: Live, acts: seq<Act>): seq<Poll> {
    if acts == [] then [] else
      var front, a := acts[..|acts| - 1], acts[|acts| - 1];
      PollsOf(l, front) + if a.PollAccount? && RunActs(l, front).busy.None? then [a.poll] else []
  }

  // ----- an uninterrupted visit is one of these runs -----

  function Advances(f: Faults, k: nat): seq<Act> {
    if k == 0 then [] else Advances(f, k - 1) + [Advance(f)]
  }

  lemma {:induction false} PostIsFrozen(host: Option<Subscription>, e: Event, d: Event, f: Faults)
    requires SameFrozen(e, d)
    ensures PostStep(host, e, f) == PostStep(host, d, f)
    ensures var (after, pc, _) := PostStep(host, e, f);
            (after.Some? <==> host.Some?) && pc.Rank() < Post.Rank()
  {
  }

  /** A visit reads only the frozen fields of its event, and nothing it has itself done so far but its place. */
  lemma {:induction false} StepFromPlace(v: Visit, e: Event, d: Event, f: Faults)
    requires SameFrozen(e, d) && (v.posted ==> v.pc.Rank() < Post.Rank())
    ensures var u, u1 := VisitStep(v, e, f), VisitStep(Visit(v.pc, v.status, v.host, false, false), d, f);
            && u1.pc == u.pc && u1.status == u.status && u1.host == u.host
            && (u.posted <==> v.posted || u1.posted) && !(v.posted && u1.posted)
            && (u.posted ==> u.pc.Rank() < Post.Rank())
            && (v.host.Some? <==> u.host.Some?)
  {
    PostIsFrozen(v.host, e, d, f);
  }

  /** Writing down two stages of a visit one after the other leaves what the second alone would. */
  lemma {:induction false} VisitedOver(s: Sys, event: nat, id: int, v: Visit, u1: Visit, u: Visit)
    requires HasTarget(s, event, id) && (u.host.Some? <==> v.host.Some?)
    requires u1.status == u.status && u1.host == u.host
    requires (u.posted <==> v.posted || u1.posted) && !(v.posted && u1.posted)
    ensures HasTarget(Visited(s, event, id, v), event, id)
    ensures Visited(Visited(s, event, id, v), event, id, u1) == Visited(s, event, id, u)
  {
    var e := s.db.events[event];
    assert e.resetTargets[id := v.status][id := u.status] == e.resetTargets[id := u.status];
    var d := e.(resetTargets := e.resetTargets[id := v.status]);
    assert s.db.events[event := d][event := e.(resetTargets := e.resetTargets[id := u.status])]
        == s.db.events[event := e.(resetTargets := e.resetTargets[id := u.status])];
    if v.host.Some? {
      assert s.subs[id := v.host.value][id := u.host.value] == s.subs[id := u.host.value];
    }
  }

  /** The place of a visit, written down. */
  function At(s: Sys, event: nat, id: int, v: Visit): Live
    requires HasTarget(s, event, id)
  {
    Live(Visited(s, event, id, v), if v.pc.Over? then None else Some((event, id, v.pc)))
  }

  predicate OnItsOwn(s: Sys, id: int, v: Visit) {
    (v.posted ==> v.pc.Rank() < Post.Rank()) && (v.host.None? ==> id !in s.subs)
  }

  lemma {:induction false} AdvanceIsVisitStep(s: Sys, event: nat, id: int, v: Visit, f: Faults)
    requires HasTarget(s, event, id) && OnItsOwn(s, id, v)
    ensures var u := VisitStep(v, s.db.events[event], f);
            Acted(At(s, event, id, v), Advance(f)) == At(s, event, id, u) && OnItsOwn(s, id, u)
  {
    var t := Visited(s, event, id, v);
    var e, d := s.db.events[event], t.db.events[event];
    var u1 := VisitStep(Visit(v.pc, v.status, v.host, false, false), d, f);
    StepFromPlace(v, e, d, f);
    VisitedOver(s, event, id, v, u1, VisitStep(v, e, f));
    assert Lookup(t.subs, id) == v.host && d.resetTargets[id] == v.status;
  }

  lemma {:induction false} StaysOnItsOwn(s: Sys, event: nat, id: int, v: Visit, f: Faults, k: nat)
    requires HasTarget(s, event, id) && OnItsOwn(s, id, v)
    ensures OnItsOwn(s, id, Steps(v, s.db.events[event], f, k))
  {
    if k > 0 {
      var e := s.db.events[event];
      StaysOnItsOwn(s, event, id, v, f, k - 1);
      StepsSnoc(v, e, f, k - 1);
      StepFromPlace(Steps(v, e, f, k - 1), e, e, f);
    }
  }

  /** Two sequences that start alike and follow the same step are alike. */
  lemma {:induction false} SameIterates(a: nat -> Live, b: nat -> Live, step: Live -> Live, k: nat)
    requires a(0) == b(0)
    requires forall i: nat | i < k :: a(i + 1) == step(a(i))
    requires forall i: nat | i < k :: b(i + 1) == step(b(i))
    ensures a(k) == b(k)
  {
    if k > 0 {
      SameIterates(a, b, step, k - 1);
    }
  }

  function Advancer(f: Faults): Live -> Live {
    (l: Live) => Acted(l, Advance(f))
  }

  lemma {:induction false} AdvancesFollowSteps(s: Sys, event: nat, id: int, v: Visit, f: Faults, k: nat)
    requires HasTarget(s, event, id) && OnItsOwn(s, id, v)
    ensures RunActs(At(s, event, id, v), Advances(f, k)) == At(s, event, id, Steps(v, s.db.events[event], f, k))
  {
    var e := s.db.events[event];
    var at := (i: nat) => At(s, event, id, Steps(v, e, f, i));
    var run := (i: nat) => RunActs(at(0), Advances(f, i));
    forall i: nat | i < k ensures at(i + 1) == Advancer(f)(at(i)) {
      StaysOnItsOwn(s, event, id, v, f, i);
      AdvanceIsVisitStep(s, event, id, Steps(v, e, f, i), f);
      StepsSnoc(v, e, f, i);
    }
    forall i: nat | i < k ensures run(i + 1) == Advancer(f)(run(i)) {
      LastAdvance(at(0), f, i + 1);
    }
    SameIterates(run, at, Advancer(f), k);
  }

  lemma {:induction false} LastAdvance(l: Live, f: Faults, k: nat)
    requires k > 0
    ensures RunActs(l, Advances(f, k)) == Acted(RunActs(l, Advances(f, k - 1)), Advance(f))
  {
    assert (Advances(f, k - 1) + [Advance(f)])[..|Advances(f, k - 1)|] == Advances(f, k - 1);
  }

  lemma {:induction false} StepsSnoc(v: Visit, e: Event, f: Faults, k: nat)
    ensures Steps(v, e, f, k + 1) == VisitStep(Steps(v, e, f, k), e, f)
    decreases k
  {
    if k > 0 {
      StepsSnoc(VisitStep(v, e, f), e, f, k - 1);
    }
  }

  /**
   A visit that nothing interrupts is among these runs; stopped after k steps, it leaves what a death there
   leaves.
   */
  lemma {:induction false} VisitsAreRuns(s: Sys, event: nat, id: int, f: Faults, k: nat)
    requires Open(s, event, id)
    ensures RunActs(Live(s, None), [Begin(event, id)] + Advances(f, k)).sys == CutVisit(s, event, id, f, k)
    ensures k >= 7 ==>
      RunActs(Live(s, None), [Begin(event, id)] + Advances(f, k)) == Live(VisitTarget(s, event, id, f), None)
  {
    var e := s.db.events[event];
    var v := FreshVisit(e.resetTargets[id], Lookup(s.subs, id));
    var begun := Live(s, Some((event, id, Fetch)));
    assert [Begin(event, id)][..0] == [];
    assert RunActs(Live(s, None), [Begin(event, id)]) == begun;
    assert e.(resetTargets := e.resetTargets[id := v.status]) == e;
    assert s.db.events[event := e] == s.db.events;
    assert id in s.subs ==> s.subs[id := s.subs[id]] == s.subs;
    assert At(s, event, id, v) == begun;
    AdvancesFollowSteps(s, event, id, v, f, k);
    RunActsConcat(Live(s, None), [Begin(event, id)], Advances(f, k));
    if k >= 7 {
      StepsReachEnd(v, e, f, k);
      RunVisitEnds(v, e, f);
    }
  }

  lemma {:induction false} RunVisitEnds(v: Visit, e: Event, f: Faults)
    ensures RunVisit(v, e, f).pc.Over?
    decreases v.pc.Rank()
  {
    if !v.pc.Over? {
      RunVisitEnds(VisitStep(v, e, f), e, f);
    }
  }

  lemma {:induction false} RunActsConcat(l: Live, a: seq<Act>, b: seq<Act>)
    ensures RunActs(l, a + b) == RunActs(RunActs(l, a), b)
  {
    if b == [] {
      assert a + b == a;
    } else {
      assert (a + b)[..|a + b| - 1] == a + b[..|b| - 1];
      RunActsConcat(l, a, b[..|b| - 1]);
    }
  }

  // ----- shape of every event -----

  /** One kind of target; positive balances; complete only when every target is terminal. */
  ghost predicate WellFormed(e: Event) {
    && (e.resetTargets == map[] || e.balanceTargets == map[])
    && Positive(e)
    && (e.complete ==> AllTerminal(e.resetTargets) && AllSettled(e.balanceTargets))
  }

  ghost predicate AllWellFormed(s: Sys) {
    forall i | 0 <= i < |s.db.events| :: WellFormed(s.db.events[i])
  }

  ghost predicate PositivePlan(p: Plan) {
    p.QueueBalances? ==> forall i | 0 <= i < |p.rows| :: p.rows[i].1 > 0.0
  }

  lemma {:induction false} BalanceRowsPositive(rows: seq<(int, real)>)
    requires forall i | 0 <= i < |rows| :: rows[i].1 > 0.0
    ensures forall user | user in BalanceRows(rows) :: BalanceRows(rows)[user].target > 0.0
  {
    if rows != [] {
      BalanceRowsPositive(rows[..|rows| - 1]);
    }
  }

  lemma {:induction false} AdvanceProgresses(s: Sys, event: nat, id: int, pc: Pc, f: Faults)
    requires Open(s, event, id)
    ensures Progressed(s, Advanced(s, event, id, pc, f).sys)
    ensures Advanced(s, event, id, pc, f).busy.Some? ==> Open(Advanced(s, event, id, pc, f).sys, event, id)
  {
  }

  lemma {:induction false} SettleActProgresses(s: Sys, a: Act)
    requires a.Settle?
    ensures Progressed(s, Worked(s, a))
  {
    if OpenUser(s, a.event, a.user) && !a.stage.Retargeted? && !a.stage.Marked? {
      SettleProgresses(s, a.event, a.user, a.attributes,
                       if a.stage.SetSent? then Processing else Verdict(a.user, map[a.user := a.reply]));
    }
  }

  lemma {:induction false} FinishActProgresses(s: Sys, a: Act)
    requires a.Finish?
    ensures Progressed(s, Worked(s, a))
  {
    if a.event < |s.db.events| {
      var e := s.db.events[a.event];
      FinishProgresses(s, a.event, if e.balanceTargets != map[] then BalanceFinished(e) else Finished(e));
    }
  }

  lemma {:induction false} WorkProgresses(s: Sys, a: Act)
    requires !a.PollAccount?
    ensures Progressed(s, Worked(s, a))
  {
    match a
    case Settle(_, _, _, _, _) => SettleActProgresses(s, a);
    case Finish(_) => FinishActProgresses(s, a);
    case _ =>
  }

  /** The visit under way is to an open target. */
  predicate BusyOk(l: Live) {
    l.busy.Some? ==> Open(l.sys, l.busy.value.0, l.busy.value.1)
  }

  /** No action but a poll touches the account rows; none loses or rewrites an event or a terminal target. */
  lemma {:induction false} ActProgresses(l: Live, a: Act)
    requires BusyOk(l)
    ensures BusyOk(Acted(l, a))
    ensures (a.PollAccount? && l.busy.None?) || Progressed(l.sys, Acted(l, a).sys)
  {
    if a.Advance? && l.busy.Some? {
      var (event, id, pc) := l.busy.value;
      AdvanceProgresses(l.sys, event, id, pc, a.faults);
    } else if !a.PollAccount? && l.busy.None? {
      WorkProgresses(l.sys, a);
    }
  }

  lemma {:induction false} RunIsBusyOk(l: Live, acts: seq<Act>)
    requires BusyOk(l)
    ensures BusyOk(RunActs(l, acts))
  {
    if acts != [] {
      RunIsBusyOk(l, acts[..|acts| - 1]);
      ActProgresses(RunActs(l, acts[..|acts| - 1]), acts[|acts| - 1]);
    }
  }

  lemma {:induction false} PollKeepsWellFormed(s: Sys, p: Poll)
    requires AllWellFormed(s) && PositivePlan(p.plan)
    ensures AllWellFormed(s.(db := Polled(s.db, p)))
  {
    if p.plan.QueueBalances? {
      BalanceRowsPositive(p.plan.rows);
    }
  }

  /** Progress alone keeps an event well formed, unless it newly claims to be complete. */
  lemma {:induction false} ProgressKeepsWellFormed(e: Event, f: Event)
    requires WellFormed(e) && EventProgressed(e, f)
    requires f.complete ==> e.complete || (AllTerminal(f.resetTargets) && AllSettled(f.balanceTargets))
    ensures WellFormed(f)
  {
    SameEmptiness(e.resetTargets, f.resetTargets);
    SameEmptiness(e.balanceTargets, f.balanceTargets);
    if e.complete {
      assert forall id | id in f.resetTargets.Keys :: id in e.resetTargets.Keys;
      assert forall user | user in f.balanceTargets.Keys :: user in e.balanceTargets.Keys;
    }
  }

  lemma {:induction false} ActKeepsWellFormed(l: Live, a: Act)
    requires BusyOk(l) && AllWellFormed(l.sys) && (a.PollAccount? ==> PositivePlan(a.poll.plan))
    ensures AllWellFormed(Acted(l, a).sys)
  {
    if a.PollAccount? {
      PollKeepsWellFormed(l.sys, a.poll);
    } else {
      ActProgresses(l, a);
      CompleteOnlyWhenSettled(l, a);
      var s, t := l.sys, Acted(l, a).sys;
      forall i | 0 <= i < |t.db.events| ensures WellFormed(t.db.events[i]) {
        assert WellFormed(s.db.events[i]) && EventProgressed(s.db.events[i], t.db.events[i]);
        ProgressKeepsWellFormed(s.db.events[i], t.db.events[i]);
      }
    }
  }

  /** Only finishing an event marks it complete, and only with every target terminal. */
  lemma {:induction false} CompleteOnlyWhenSettled(l: Live, a: Act)
    requires !a.PollAccount? && AllWellFormed(l.sys) && BusyOk(l)
    ensures var s, t := l.sys, Acted(l, a).sys;
            |t.db.events| == |s.db.events| && forall i | 0 <= i < |s.db.events| && t.db.events[i].complete ::
              || s.db.events[i].complete
              || (AllTerminal(t.db.events[i].resetTargets) && AllSettled(t.db.events[i].balanceTargets))
  {
    ActProgresses(l, a);
    if a.Finish? && l.busy.None? && a.event < |l.sys.db.events| {
      assert WellFormed(l.sys.db.events[a.event]);
    }
  }

  lemma {:induction false} SameEmptiness<T>(a: map<int, T>, b: map<int, T>)
    requires a.Keys == b.Keys
    ensures a == map[] <==> b == map[]
  {
    if a == map[] {
      assert b.Keys == {};
    }
    if b == map[] {
      assert a.Keys == {};
    }
  }

  /**
   Over any host that changes in any way, in every state any crash can leave: each event has one kind of
   target, no stored balance target is zero or below, and an event is marked complete only when all its
   targets are done or skipped.
   */
  lemma {:induction false} EventsAlwaysWellFormed(subs: map<int, Subscription>, acts: seq<Act>)
    requires forall i | 0 <= i < |acts| && acts[i].PollAccount? :: PositivePlan(acts[i].poll.plan)
    ensures AllWellFormed(RunActs(Start(subs), acts).sys)
  {
    if acts != [] {
      var n := |acts| - 1;
      EventsAlwaysWellFormed(subs, acts[..n]);
      RunIsBusyOk(Start(subs), acts[..n]);
      assert acts[n].PollAccount? ==> PositivePlan(acts[n].poll.plan);
      ActKeepsWellFormed(RunActs(Start(subs), acts[..n]), acts[n]);
    }
  }

  /**
   The events there were have only progressed, and every call made since for one of them is justified by what
   it was.
   */
  ghost predicate Continued(s: Sys, t: Sys) {
    && |s.db.events| <= |t.db.events|
    && (forall i | 0 <= i < |s.db.events| :: EventProgressed(s.db.events[i], t.db.events[i]))
    && s.posts <= t.posts && s.sets <= t.sets
    && (forall k | |s.posts| <= k < |t.posts| && t.posts[k].event < |s.db.events| :: PostJustified(s, t.posts[k]))
    && (forall k | |s.sets| <= k < |t.sets| && t.sets[k].event < |s.db.events| :: SetJustified(s, t.sets[k]))
  }

  lemma {:induction false} ContinuedThenProgressed(s: Sys, t: Sys, u: Sys)
    requires Continued(s, t) && Progressed(t, u)
    ensures Continued(s, u)
  {
    forall i | 0 <= i < |s.db.events| ensures EventProgressed(s.db.events[i], u.db.events[i]) {
      assert EventProgressed(s.db.events[i], t.db.events[i]) && EventProgressed(t.db.events[i], u.db.events[i]);
    }
    forall k | |s.posts| <= k < |u.posts| && u.posts[k].event < |s.db.events| ensures PostJustified(s, u.posts[k]) {
      if k < |t.posts| {
        assert u.posts[k] == t.posts[k];
      } else {
        assert PostJustified(t, u.posts[k]);
        assert EventProgressed(s.db.events[u.posts[k].event], t.db.events[u.posts[k].event]);
      }
    }
    forall k | |s.sets| <= k < |u.sets| && u.sets[k].event < |s.db.events| ensures SetJustified(s, u.sets[k]) {
      if k < |t.sets| {
        assert u.sets[k] == t.sets[k];
      } else {
        assert SetJustified(t, u.sets[k]);
        assert EventProgressed(s.db.events[u.sets[k].event], t.db.events[u.sets[k].event]);
      }
    }
  }

  lemma {:induction false} ContinuedThenPolled(s: Sys, t: Sys, p: Poll)
    requires Continued(s, t)
    ensures Continued(s, t.(db := Polled(t.db, p)))
  {
    assert |t.db.events| <= |Polled(t.db, p).events|;
    assert forall i | 0 <= i < |t.db.events| :: Polled(t.db, p).events[i] == t.db.events[i];
  }

  lemma {:induction false} ActContinues(s: Sys, l: Live, a: Act)
    requires Continued(s, l.sys) && BusyOk(l)
    ensures Continued(s, Acted(l, a).sys)
  {
    if a.PollAccount? && l.busy.None? {
      ContinuedThenPolled(s, l.sys, a.poll);
    } else {
      ActProgresses(l, a);
      ContinuedThenProgressed(s, l.sys, Acted(l, a).sys);
    }
  }

  lemma {:induction false} RunContinues(l: Live, acts: seq<Act>)
    requires BusyOk(l)
    ensures Continued(l.sys, RunActs(l, acts).sys)
  {
    if acts != [] {
      var front := acts[..|acts| - 1];
      RunContinues(l, front);
      RunIsBusyOk(l, front);
      ActContinues(l.sys, RunActs(l, front), acts[|acts| - 1]);
    }
  }

  /**
   From any moment on, whatever is polled, crashes or changes: a terminal target keeps its row and gets no
   write call, and every later call for an event there was carries its frozen windows and cycle.
   */
  lemma {:induction false} NothingIsRedone(subs: map<int, Subscription>, a: seq<Act>, b: seq<Act>)
    ensures Continued(RunActs(Start(subs), a).sys, RunActs(Start(subs), a + b).sys)
  {
    RunActsConcat(Start(subs), a, b);
    RunIsBusyOk(Start(subs), a);
    RunContinues(RunActs(Start(subs), a), b);
  }

  /** The same accounts, and the same events up to the progress of their targets. */
  ghost predicate SameHistory(a: Db, b: Db) {
    && a.accounts == b.accounts
    && |a.events| == |b.events|
    && forall i | 0 <= i < |a.events| :: SameFrozen(a.events[i], b.events[i])
  }

  lemma {:induction false} SameKeysTaken(a: Db, b: Db, x: int, c: int)
    requires SameHistory(a, b) && KeyTaken(a.events, x, c)
    ensures KeyTaken(b.events, x, c)
  {
    var i :| 0 <= i < |a.events| && a.events[i].accountId == x && a.events[i].cycleResetAt == c;
    assert SameFrozen(a.events[i], b.events[i]);
  }

  lemma {:induction false} PolledKeepsHistory(a: Db, b: Db, p: Poll)
    requires SameHistory(a, b)
    ensures SameHistory(Polled(a, p), Polled(b, p))
  {
    if KeyTaken(a.events, p.accountId, p.snapshot.resetAt) {
      SameKeysTaken(a, b, p.accountId, p.snapshot.resetAt);
    }
    if KeyTaken(b.events, p.accountId, p.snapshot.resetAt) {
      SameKeysTaken(b, a, p.accountId, p.snapshot.resetAt);
    }
  }

  lemma {:induction false} CyclesOfSameHistory(a: seq<Event>, b: seq<Event>, x: int)
    requires |a| == |b| && forall i | 0 <= i < |a| :: SameFrozen(a[i], b[i])
    ensures Cycles(a, x) == Cycles(b, x)
  {
    if a != [] {
      var n := |a| - 1;
      CyclesOfSameHistory(a[..n], b[..n], x);
      assert SameFrozen(a[n], b[n]);
    }
  }

  /** Passes, crashes and the host are invisible to the accounts: only the polls decide rows and events. */
  lemma {:induction false} OnlyPollsMakeHistory(subs: map<int, Subscription>, acts: seq<Act>)
    ensures SameHistory(RunActs(Start(subs), acts).sys.db, AllPolled(EMPTY, PollsOf(Start(subs), acts)))
  {
    if acts != [] {
      var n := |acts| - 1;
      OnlyPollsMakeHistory(subs, acts[..n]);
      RunIsBusyOk(Start(subs), acts[..n]);
      var before := RunActs(Start(subs), acts[..n]);
      var polls := PollsOf(Start(subs), acts[..n]);
      assert PollsOf(Start(subs), acts)
          == polls + if acts[n].PollAccount? && before.busy.None? then [acts[n].poll] else [];
      assert polls + [] == polls;
      if acts[n].PollAccount? && before.busy.None? {
        PolledSnoc(polls, acts[n].poll);
        PolledKeepsHistory(before.sys.db, AllPolled(EMPTY, polls), acts[n].poll);
      } else {
        ActProgresses(before, acts[n]);
        ProgressKeepsHistory(before.sys, Acted(before, acts[n]).sys, AllPolled(EMPTY, polls));
      }
    }
  }

  lemma {:induction false} ProgressKeepsHistory(s: Sys, t: Sys, db: Db)
    requires SameHistory(s.db, db) && Progressed(s, t)
    ensures SameHistory(t.db, db)
  {
    forall i | 0 <= i < |t.db.events| ensures SameFrozen(t.db.events[i], db.events[i]) {
      assert EventProgressed(s.db.events[i], t.db.events[i]) && SameFrozen(s.db.events[i], db.events[i]);
    }
  }

  /**
   No lost reset, over any host and under any thresholds, with passes and crashes anywhere: the stored
   boundary is that of the account's newest durable event or its baseline.
   */
  lemma {:induction false} NoLostResetThroughCrashes(subs: map<int, Subscription>, acts: seq<Act>, a: int)
    requires DistinctTargets(PollsOf(Start(subs), acts))
    ensures var db := RunActs(Start(subs), acts).sys.db;
            var cycles := Cycles(db.events, a);
            var bases := Baselines(PollsOf(Start(subs), acts));
            if a in db.accounts
            then a in bases && db.accounts[a].resetAt == if cycles == [] then bases[a] else cycles[|cycles| - 1]
            else cycles == []
  {
    OnlyPollsMakeHistory(subs, acts);
    var polls := PollsOf(Start(subs), acts);
    CyclesOfSameHistory(RunActs(Start(subs), acts).sys.db.events, AllPolled(EMPTY, polls).events, a);
    NoLostReset(polls, a);
  }

  /** And where every reset advances past the guard, events are spaced and their rate is bounded. */
  lemma {:induction false} EventRateThroughCrashes(subs: map<int, Subscription>, acts: seq<Act>, a: int, gap: int)
    requires gap >= 0 && Sound(PollsOf(Start(subs), acts), gap)
    ensures var db := RunActs(Start(subs), acts).sys.db;
            var cycles := Cycles(db.events, a);
            var bases := Baselines(PollsOf(Start(subs), acts));
            && Spaced(cycles, gap)
            && (cycles != [] ==>
                  && a in db.accounts && a in bases
                  && |cycles| * gap < db.accounts[a].sampleAt - bases[a] + WEEK + BOUNDARY_TOLERANCE)
  {
    OnlyPollsMakeHistory(subs, acts);
    var polls := PollsOf(Start(subs), acts);
    CyclesOfSameHistory(RunActs(Start(subs), acts).sys.db.events, AllPolled(EMPTY, polls).events, a);
    EventsOfAnAccountAreSpaced(polls, a, gap);
    if Cycles(AllPolled(EMPTY, polls).events, a) != [] {
      ResetRateBound(polls, a, gap);
    }
  }
}
