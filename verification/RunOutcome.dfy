/**
 What the statuses and the requests of the event tables mean in every state a crash can leave, over any host
 whose rows change between any two steps: each was caused by something the host held at some moment.
 */
module RunOutcome {
  import opened Common
  import opened StateStore
  import opened HostCycle
  import opened RetryEngine
  import opened EventPass
  import opened EventOutcome
  import opened EventRuns

  /** At some moment of the run this was the host's row, or its absence. */
  ghost predicate Held(subs: map<int, Subscription>, acts: seq<Act>, id: int, row: Option<Subscription>) {
    exists n: nat :: n <= |acts| && Lookup(RunActs(Start(subs), acts[..n]).sys.subs, id) == row
  }

  /** The executor's clock showed this in one of its steps. */
  ghost predicate ClockRead(acts: seq<Act>, now: int) {
    exists m :: 0 <= m < |acts| && acts[m].Advance? && acts[m].faults.now == now
  }

  /** The row was once aligned with the event's cycle, in each window that it selects. */
  ghost predicate AlignedOnce(subs: map<int, Subscription>, acts: seq<Act>, id: int, e: Event) {
    exists sub :: Held(subs, acts, id, Some(sub)) && Applied(sub, e.windows, e.cycleResetAt)
  }

  /** The row was once missing, outside the event's groups, inactive, deleted, or expired by the executor's clock. */
  ghost predicate OutOnce(subs: map<int, Subscription>, acts: seq<Act>, id: int, e: Event) {
    || Held(subs, acts, id, None)
    || exists sub :: Held(subs, acts, id, Some(sub)) && OutOf(acts, sub, e)
  }

  ghost predicate OutOf(acts: seq<Act>, sub: Subscription, e: Event) {
    || sub.groupId !in e.groupIds || !sub.active || sub.deleted
    || exists now :: ClockRead(acts, now) && sub.expiresAt <= now
  }

  /** The row was once in the event's groups, active, not deleted, unexpired by that clock, and not aligned. */
  ghost predicate DueOnce(subs: map<int, Subscription>, acts: seq<Act>, id: int, e: Event) {
    exists sub, now ::
      && Held(subs, acts, id, Some(sub)) && ClockRead(acts, now)
      && sub.groupId in e.groupIds && sub.active && !sub.deleted && sub.expiresAt > now
      && !Applied(sub, e.windows, e.cycleResetAt)
  }

  lemma {:induction false} HeldNow(subs: map<int, Subscription>, acts: seq<Act>, id: int)
    ensures Held(subs, acts, id, Lookup(RunActs(Start(subs), acts).sys.subs, id))
  {
    assert acts[..|acts|] == acts;
  }

  lemma {:induction false} HeldLater(subs: map<int, Subscription>, front: seq<Act>, a: Act, id: int,
                                     row: Option<Subscription>)
    requires Held(subs, front, id, row)
    ensures Held(subs, front + [a], id, row)
  {
    var n: nat :| n <= |front| && Lookup(RunActs(Start(subs), front[..n]).sys.subs, id) == row;
    assert (front + [a])[..n] == front[..n];
  }

  lemma {:induction false} ClockLater(front: seq<Act>, a: Act, now: int)
    requires ClockRead(front, now)
    ensures ClockRead(front + [a], now)
  {
    var m :| 0 <= m < |front| && front[m].Advance? && front[m].faults.now == now;
    assert (front + [a])[m] == front[m];
  }

  /** What happened once has happened, and depends on the frozen fields alone. */
  lemma {:induction false} OnceStays(subs: map<int, Subscription>, front: seq<Act>, a: Act, id: int, e: Event, d: Event)
    requires SameFrozen(e, d)
    ensures AlignedOnce(subs, front, id, e) ==> AlignedOnce(subs, front + [a], id, d)
    ensures OutOnce(subs, front, id, e) ==> OutOnce(subs, front + [a], id, d)
    ensures DueOnce(subs, front, id, e) ==> DueOnce(subs, front + [a], id, d)
  {
    forall row | Held(subs, front, id, row) ensures Held(subs, front + [a], id, row) {
      HeldLater(subs, front, a, id, row);
    }
    forall now | ClockRead(front, now) ensures ClockRead(front + [a], now) {
      ClockLater(front, a, now);
    }
  }

  // ----- the visit under way -----

  /** What the place of a visit remembers was once so. */
  ghost predicate PlaceTrue(subs: map<int, Subscription>, acts: seq<Act>, id: int, e: Event, pc: Pc) {
    match pc
    case Judge(view) => Held(subs, acts, id, Some(view))
    case Post => DueOnce(subs, acts, id, e)
    case Check(reply) => exists row :: Held(subs, acts, id, Some(row)) && Reports(reply, row)
    case CheckAgain(again) => Held(subs, acts, id, Some(again))
    case Commit(outcome) => StatusTrue(subs, acts, id, e, outcome)
    case _ => true
  }

  /** A reply shows the row, with or without its window starts. */
  predicate Reports(reply: Subscription, row: Subscription) {
    reply == row || (reply.weeklyStart.None? && reply.monthlyStart.None?)
  }

  ghost predicate StatusTrue(subs: map<int, Subscription>, acts: seq<Act>, id: int, e: Event, status: TargetStatus) {
    && (status == Done ==> AlignedOnce(subs, acts, id, e))
    && (status == Skipped ==> OutOnce(subs, acts, id, e))
  }

  lemma {:induction false} PlaceStaysTrue(subs: map<int, Subscription>, front: seq<Act>, a: Act, id: int, e: Event,
                                          d: Event, pc: Pc)
    requires SameFrozen(e, d) && PlaceTrue(subs, front, id, e, pc)
    ensures PlaceTrue(subs, front + [a], id, d, pc)
  {
    OnceStays(subs, front, a, id, e, d);
    match pc
    case Judge(view) => HeldLater(subs, front, a, id, Some(view));
    case CheckAgain(again) => HeldLater(subs, front, a, id, Some(again));
    case Check(reply) =>
      var row :| Held(subs, front, id, Some(row)) && Reports(reply, row);
      HeldLater(subs, front, a, id, Some(row));
    case _ =>
  }

  /** The judgement of a row once read. */
  lemma {:induction false} JudgedTrue(subs: map<int, Subscription>, acts: seq<Act>, id: int, e: Event,
                                      view: Subscription, now: int)
    requires Held(subs, acts, id, Some(view)) && ClockRead(acts, now)
    ensures !Eligible(view, e.groupIds, now) ==> OutOnce(subs, acts, id, e)
    ensures Applied(view, e.windows, e.cycleResetAt) ==> AlignedOnce(subs, acts, id, e)
    ensures Eligible(view, e.groupIds, now) && !Applied(view, e.windows, e.cycleResetAt) ==> DueOnce(subs, acts, id, e)
  {
    if !Eligible(view, e.groupIds, now) {
      assert OutOf(acts, view, e);
    }
  }

  /** What a step remembers of the row that the host held before it, or holds after it. */
  lemma {:induction false} ReadRemembers(subs: map<int, Subscription>, acts: seq<Act>, f: Faults, id: int, e: Event,
                                         v: Visit)
    requires v.pc.Fetch? || v.pc.FetchAgain? || v.pc.Post?
    requires Held(subs, acts, id, v.host) && Held(subs, acts, id, VisitStep(v, e, f).host)
    ensures PlaceTrue(subs, acts, id, e, VisitStep(v, e, f).pc)
  {
    var u := VisitStep(v, e, f);
    if u.pc.Check? {
      assert Reports(u.pc.reply, u.host.value);
    }
  }

  /** What it concludes from what was remembered. */
  lemma {:induction false} JudgementRemembers(subs: map<int, Subscription>, acts: seq<Act>, f: Faults, id: int,
                                              e: Event, v: Visit)
    requires v.pc.Judge? || v.pc.Check? || v.pc.CheckAgain?
    requires PlaceTrue(subs, acts, id, e, v.pc) && ClockRead(acts, f.now)
    ensures PlaceTrue(subs, acts, id, e, VisitStep(v, e, f).pc)
  {
    match v.pc
    case Judge(view) => JudgedTrue(subs, acts, id, e, view, f.now);
    case Check(reply) =>
      var row :| Held(subs, acts, id, Some(row)) && Reports(reply, row);
      if Applied(reply, e.windows, e.cycleResetAt) {
        assert reply == row;
      }
    case CheckAgain(_) =>
  }

  /** A step of a visit remembers only what it saw. */
  lemma {:induction false} StepRemembers(subs: map<int, Subscription>, front: seq<Act>, f: Faults, id: int, e: Event,
                                         v: Visit)
    requires PlaceTrue(subs, front, id, e, v.pc) && Held(subs, front, id, v.host)
    requires Held(subs, front + [Advance(f)], id, VisitStep(v, e, f).host)
    ensures PlaceTrue(subs, front + [Advance(f)], id, e, VisitStep(v, e, f).pc)
  {
    var acts := front + [Advance(f)];
    HeldLater(subs, front, Advance(f), id, v.host);
    assert ClockRead(acts, f.now) by {
      assert acts[|front|] == Advance(f);
    }
    if v.pc.Judge? || v.pc.Check? || v.pc.CheckAgain? {
      PlaceStaysTrue(subs, front, Advance(f), id, e, e, v.pc);
      JudgementRemembers(subs, acts, f, id, e, v);
    } else if !v.pc.Commit? && !v.pc.Over? {
      ReadRemembers(subs, acts, f, id, e, v);
    }
  }

  // ----- the tables -----

  ghost predicate TargetsTrue(subs: map<int, Subscription>, acts: seq<Act>, events: seq<Event>) {
    forall i, id | 0 <= i < |events| && id in events[i].resetTargets ::
      StatusTrue(subs, acts, id, events[i], events[i].resetTargets[id])
  }

  /** A request was due once, and carries the windows and the cycle of its event. */
  ghost predicate PostTrue(subs: map<int, Subscription>, acts: seq<Act>, events: seq<Event>, c: PostCall) {
    && c.event < |events| && DueOnce(subs, acts, c.id, events[c.event])
    && c.windows == events[c.event].windows && c.cycle == events[c.event].cycleResetAt
  }

  ghost predicate PostsTrue(subs: map<int, Subscription>, acts: seq<Act>, events: seq<Event>, posts: seq<PostCall>) {
    forall j | 0 <= j < |posts| :: PostTrue(subs, acts, events, posts[j])
  }

  ghost predicate BusyTrue(subs: map<int, Subscription>, acts: seq<Act>, l: Live) {
    l.busy.Some? ==>
      && l.busy.value.0 < |l.sys.db.events|
      && PlaceTrue(subs, acts, l.busy.value.1, l.sys.db.events[l.busy.value.0], l.busy.value.2)
  }

  ghost predicate AllTrue(subs: map<int, Subscription>, acts: seq<Act>, l: Live) {
    && TargetsTrue(subs, acts, l.sys.db.events) && PostsTrue(subs, acts, l.sys.db.events, l.sys.posts)
    && BusyTrue(subs, acts, l)
  }

  /** Events keep their frozen fields; targets are pending, or as they were, or the one named, with this status. */
  ghost predicate TargetsFollow(a: seq<Event>, b: seq<Event>, event: nat, id: int, status: TargetStatus) {
    && |a| <= |b|
    && (forall i | 0 <= i < |a| :: SameFrozen(a[i], b[i]))
    && forall i, x | 0 <= i < |b| && x in b[i].resetTargets ::
         || b[i].resetTargets[x] == Pending
         || (i < |a| && x in a[i].resetTargets && b[i].resetTargets[x] == a[i].resetTargets[x])
         || (i < |a| && i == event && x == id && b[i].resetTargets[x] == status)
  }

  lemma {:induction false} TargetsStayTrue(subs: map<int, Subscription>, front: seq<Act>, a: Act, before: seq<Event>,
                                           after: seq<Event>, event: nat, id: int, status: TargetStatus)
    requires TargetsTrue(subs, front, before) && TargetsFollow(before, after, event, id, status)
    requires event < |before| ==> StatusTrue(subs, front + [a], id, before[event], status)
    ensures TargetsTrue(subs, front + [a], after)
  {
    forall i, x | 0 <= i < |after| && x in after[i].resetTargets
      ensures StatusTrue(subs, front + [a], x, after[i], after[i].resetTargets[x])
    {
      if i < |before| {
        OnceStays(subs, front, a, x, before[i], after[i]);
        if i == event && x == id && after[i].resetTargets[x] == status {
          SameOnce(subs, front + [a], x, before[i], after[i]);
        }
      }
    }
  }

  lemma {:induction false} SameOnce(subs: map<int, Subscription>, acts: seq<Act>, id: int, e: Event, d: Event)
    requires SameFrozen(e, d)
    ensures AlignedOnce(subs, acts, id, e) ==> AlignedOnce(subs, acts, id, d)
    ensures OutOnce(subs, acts, id, e) ==> OutOnce(subs, acts, id, d)
    ensures DueOnce(subs, acts, id, e) ==> DueOnce(subs, acts, id, d)
  {
  }

  lemma {:induction false} PostsStayTrue(subs: map<int, Subscription>, front: seq<Act>, a: Act, before: seq<Event>,
                                         after: seq<Event>, posts: seq<PostCall>)
    requires PostsTrue(subs, front, before, posts) && |before| <= |after|
    requires forall i | 0 <= i < |before| :: SameFrozen(before[i], after[i])
    ensures PostsTrue(subs, front + [a], after, posts)
  {
    forall j | 0 <= j < |posts| ensures PostTrue(subs, front + [a], after, posts[j]) {
      var k := posts[j].event;
      assert PostTrue(subs, front, before, posts[j]);
      OnceStays(subs, front, a, posts[j].id, before[k], after[k]);
    }
  }

  lemma {:induction false} PollFollows(db: Db, p: Poll)
    ensures TargetsFollow(db.events, Polled(db, p).events, 0, 0, Pending)
  {
  }

  /** The same events, but for their balance rows and their completion. */
  ghost predicate SameResets(a: seq<Event>, b: seq<Event>) {
    |a| == |b| && forall i | 0 <= i < |a| :: SameFrozen(a[i], b[i]) && b[i].resetTargets == a[i].resetTargets
  }

  lemma {:induction false} WriteKeepsResets(db: Db, event: nat, user: int, row: BalanceRow)
    ensures SameResets(db.events, WithBalanceRow(db, event, user, row).events)
  {
  }

  lemma {:induction false} SettleIsAWrite(s: Sys, event: nat, user: int, attributes: map<int, RawValue>,
                                          reply: SetReply, stage: Stage)
    returns (row: BalanceRow)
    requires HasUser(s, event, user)
    ensures var t := SettleCut(s, event, user, attributes, reply, stage);
            t.db == WithBalanceRow(s.db, event, user, row) && t.posts == s.posts
  {
    var before := s.db.events[event].balanceTargets[user];
    var target := FreshTarget(before, user, attributes);
    row := match stage
      case Retargeted => before.(target := target)
      case Marked => BalanceRow(target, Processing)
      case SetSent => BalanceRow(target, Processing)
      case Outcome => BalanceRow(target, Verdict(user, map[user := reply]));
  }

  lemma {:induction false} SettleKeepsResets(s: Sys, a: Act)
    requires a.Settle?
    ensures SameResets(s.db.events, Worked(s, a).db.events) && Worked(s, a).posts == s.posts
  {
    if OpenUser(s, a.event, a.user) {
      var row := SettleIsAWrite(s, a.event, a.user, a.attributes, a.reply, a.stage);
      WriteKeepsResets(s.db, a.event, a.user, row);
    }
  }

  lemma {:induction false} WorkFollows(s: Sys, a: Act)
    requires !a.PollAccount?
    ensures SameResets(s.db.events, Worked(s, a).db.events) && Worked(s, a).posts == s.posts
  {
    if a.Settle? {
      SettleKeepsResets(s, a);
    }
  }

  /** An action that is no step of a visit. */
  lemma {:induction false} OtherActsFollow(l: Live, a: Act)
    requires !(a.Advance? && l.busy.Some?)
    ensures var m := Acted(l, a);
            && TargetsFollow(l.sys.db.events, m.sys.db.events, 0, 0, Pending) && m.sys.posts == l.sys.posts
            && (m.busy == l.busy || m.busy.None? || (m.busy.value.0 < |l.sys.db.events| && m.busy.value.2 == Fetch))
  {
    if a.PollAccount? {
      PollFollows(l.sys.db, a.poll);
    } else {
      WorkFollows(l.sys, a);
      assert SameResets(l.sys.db.events, Acted(l, a).sys.db.events);
    }
  }

  lemma {:induction false} RunSnoc(l: Live, front: seq<Act>, a: Act)
    ensures RunActs(l, front + [a]) == Acted(RunActs(l, front), a)
  {
    assert (front + [a])[..|front|] == front;
  }

  lemma {:induction false} OtherActsKeepTrue(subs: map<int, Subscription>, front: seq<Act>, a: Act)
    requires var l := RunActs(Start(subs), front);
             AllTrue(subs, front, l) && !(a.Advance? && l.busy.Some?)
    ensures AllTrue(subs, front + [a], RunActs(Start(subs), front + [a]))
  {
    var l := RunActs(Start(subs), front);
    var m := Acted(l, a);
    RunSnoc(Start(subs), front, a);
    OtherActsFollow(l, a);
    TargetsStayTrue(subs, front, a, l.sys.db.events, m.sys.db.events, 0, 0, Pending);
    PostsStayTrue(subs, front, a, l.sys.db.events, m.sys.db.events, l.sys.posts);
    if m.busy.Some? && m.busy == l.busy {
      var (i, id, pc) := l.busy.value;
      PlaceStaysTrue(subs, front, a, id, l.sys.db.events[i], m.sys.db.events[i], pc);
    }
  }

  /** A step of the visit under way: its target follows the step, and its request, if any, is for it. */
  lemma {:induction false} AdvanceFollows(l: Live, f: Faults)
    requires l.busy.Some? && HasTarget(l.sys, l.busy.value.0, l.busy.value.1)
    ensures var (i, id, pc) := l.busy.value;
            var e := l.sys.db.events[i];
            var u := VisitStep(Visit(pc, e.resetTargets[id], Lookup(l.sys.subs, id), false, false), e, f);
            var m := Acted(l, Advance(f));
            && TargetsFollow(l.sys.db.events, m.sys.db.events, i, id, u.status)
            && m.sys.posts
                 == (if u.posted then l.sys.posts + [PostCall(i, id, e.windows, e.cycleResetAt)] else l.sys.posts)
            && m.busy == (if u.pc.Over? then None else Some((i, id, u.pc)))
            && Lookup(m.sys.subs, id) == u.host
            && (u.posted ==> pc.Post?)
            && (u.status == e.resetTargets[id] || u.status == Processing || pc == Commit(u.status))
  {
  }

  lemma {:induction false} AdvanceKeepsTrue(subs: map<int, Subscription>, front: seq<Act>, f: Faults)
    requires var l := RunActs(Start(subs), front);
             && AllTrue(subs, front, l) && l.busy.Some? && HasTarget(l.sys, l.busy.value.0, l.busy.value.1)
    ensures AllTrue(subs, front + [Advance(f)], RunActs(Start(subs), front + [Advance(f)]))
  {
    var l, acts := RunActs(Start(subs), front), front + [Advance(f)];
    var (i, id, pc) := l.busy.value;
    var e := l.sys.db.events[i];
    var v := Visit(pc, e.resetTargets[id], Lookup(l.sys.subs, id), false, false);
    var m := Acted(l, Advance(f));
    RunSnoc(Start(subs), front, Advance(f));
    AdvanceFollows(l, f);
    HeldNow(subs, front, id);
    HeldNow(subs, acts, id);
    StepRemembers(subs, front, f, id, e, v);
    PlaceStaysTrue(subs, front, Advance(f), id, e, e, pc);
    OnceStays(subs, front, Advance(f), id, e, e);
    assert StatusTrue(subs, front, id, e, e.resetTargets[id]);
    TargetsStayTrue(subs, front, Advance(f), l.sys.db.events, m.sys.db.events, i, id, VisitStep(v, e, f).status);
    PostsStayTrue(subs, front, Advance(f), l.sys.db.events, m.sys.db.events, l.sys.posts);
    AdvancedPlaceAndPost(subs, acts, l, m, i, id, e, VisitStep(v, e, f));
  }

  lemma {:induction false} AdvancedPlaceAndPost(subs: map<int, Subscription>, acts: seq<Act>, l: Live, m: Live, i: nat,
                                                id: int, e: Event, u: Visit)
    requires i < |l.sys.db.events| && e == l.sys.db.events[i] && i < |m.sys.db.events|
    requires SameFrozen(e, m.sys.db.events[i]) && PlaceTrue(subs, acts, id, e, u.pc)
    requires PostsTrue(subs, acts, m.sys.db.events, l.sys.posts) && (u.posted ==> DueOnce(subs, acts, id, e))
    requires m.sys.posts
          == if u.posted then l.sys.posts + [PostCall(i, id, e.windows, e.cycleResetAt)] else l.sys.posts
    requires m.busy == if u.pc.Over? then None else Some((i, id, u.pc))
    ensures PostsTrue(subs, acts, m.sys.db.events, m.sys.posts) && BusyTrue(subs, acts, m)
  {
    SameOnce(subs, acts, id, e, m.sys.db.events[i]);
  }

  lemma {:induction false} RunIsTrue(subs: map<int, Subscription>, acts: seq<Act>)
    ensures AllTrue(subs, acts, RunActs(Start(subs), acts))
  {
    if acts != [] {
      var n := |acts| - 1;
      var front, a := acts[..n], acts[n];
      assert acts == front + [a];
      RunIsTrue(subs, front);
      var l := RunActs(Start(subs), front);
      RunIsBusyOk(Start(subs), front);
      if a.Advance? && l.busy.Some? {
        AdvanceKeepsTrue(subs, front, a.faults);
      } else {
        OtherActsKeepTrue(subs, front, a);
      }
    }
  }

  /**
   Over any run: a done target's row was once aligned with its event's cycle, in the windows that the event froze;
   a skipped target's row was once missing, outside the event's groups, inactive, deleted or expired.
   */
  lemma {:induction false} StatusesWereSeen(subs: map<int, Subscription>, acts: seq<Act>, i: nat, id: int)
    requires HasTarget(RunActs(Start(subs), acts).sys, i, id)
    ensures var e := RunActs(Start(subs), acts).sys.db.events[i];
            && (e.resetTargets[id] == Done ==> AlignedOnce(subs, acts, id, e))
            && (e.resetTargets[id] == Skipped ==> OutOnce(subs, acts, id, e))
  {
    RunIsTrue(subs, acts);
    var e := RunActs(Start(subs), acts).sys.db.events[i];
    assert StatusTrue(subs, acts, id, e, e.resetTargets[id]);
  }

  /**
   Over any run: every reset request ever sent was for a row that at some moment was in its event's groups, active,
   not deleted, unexpired and not aligned; and it carried the windows and the cycle of that event.
   */
  lemma {:induction false} RequestsWereDue(subs: map<int, Subscription>, acts: seq<Act>, j: nat)
    requires j < |RunActs(Start(subs), acts).sys.posts|
    ensures var s := RunActs(Start(subs), acts).sys;
            && s.posts[j].event < |s.db.events|
            && DueOnce(subs, acts, s.posts[j].id, s.db.events[s.posts[j].event])
            && s.posts[j].windows == s.db.events[s.posts[j].event].windows
            && s.posts[j].cycle == s.db.events[s.posts[j].event].cycleResetAt
  {
    RunIsTrue(subs, acts);
    var s := RunActs(Start(subs), acts).sys;
    assert PostTrue(subs, acts, s.db.events, s.posts[j]);
  }

  // ----- balances -----

  /**
   A settlement cut at any of its commits: from the first on the row keeps the amount to be set, its status says how
   far the settlement got, and one call was made, with that amount, exactly if it got that far.
   */
  lemma {:induction false} CutSettlementOutcome(s: Sys, event: nat, user: int, attributes: map<int, RawValue>,
                                                reply: SetReply, stage: Stage)
    requires HasUser(s, event, user)
    ensures var before := s.db.events[event].balanceTargets[user];
            var t := SettleCut(s, event, user, attributes, reply, stage);
            var amount := Amount(before, user, attributes);
            && HasUser(t, event, user)
            && var row := t.db.events[event].balanceTargets[user];
            && row.target == amount
            && (stage == Retargeted ==> row.status == before.status)
            && (stage == Marked || stage == SetSent ==> row.status == Processing)
            && (stage == Outcome ==> FollowsReply(row.status, user, map[user := reply]))
            && t.sets == s.sets + (if stage == SetSent || stage == Outcome then [SetCall(event, user, amount)] else [])
  {
  }

  /** The host answered this to a set call for the user. */
  ghost predicate Answered(acts: seq<Act>, event: nat, user: int, reply: SetReply) {
    exists m :: 0 <= m < |acts| && acts[m].Settle? && acts[m].event == event && acts[m].user == user
      && acts[m].reply == reply && acts[m].stage == Outcome
  }

  /** Done: set to the balance kept in the row, and answered so. Skipped: the host did not know the user. */
  ghost predicate RowTrue(acts: seq<Act>, sets: seq<SetCall>, event: nat, user: int, row: BalanceRow) {
    && (row.status == Done ==>
          SetCall(event, user, row.target) in sets && Answered(acts, event, user, SetOk))
    && (row.status == Skipped ==>
          SetCall(event, user, row.target) in sets && Answered(acts, event, user, UserMissing))
  }

  ghost predicate RowsTrue(acts: seq<Act>, s: Sys) {
    forall i, user | 0 <= i < |s.db.events| && user in s.db.events[i].balanceTargets ::
      RowTrue(acts, s.sets, i, user, s.db.events[i].balanceTargets[user])
  }

  lemma {:induction false} AnsweredLater(front: seq<Act>, a: Act, event: nat, user: int, reply: SetReply)
    requires Answered(front, event, user, reply)
    ensures Answered(front + [a], event, user, reply)
  {
    var m :| 0 <= m < |front| && front[m].Settle? && front[m].event == event && front[m].user == user
      && front[m].reply == reply && front[m].stage == Outcome;
    assert (front + [a])[m] == front[m];
  }

  lemma {:induction false} RowStaysTrue(front: seq<Act>, a: Act, sets: seq<SetCall>, more: seq<SetCall>, event: nat,
                                        user: int, row: BalanceRow)
    requires RowTrue(front, sets, event, user, row) && sets <= more
    ensures RowTrue(front + [a], more, event, user, row)
  {
    if row.status == Done {
      AnsweredLater(front, a, event, user, SetOk);
    }
    if row.status == Skipped {
      AnsweredLater(front, a, event, user, UserMissing);
    }
  }

  /** The row an action writes, if it writes one: open still, or with the answer it got to its call. */
  ghost predicate RowsFollow(s: Sys, t: Sys, a: Act) {
    && |s.db.events| <= |t.db.events| && s.sets <= t.sets
    && forall i, user | 0 <= i < |t.db.events| && user in t.db.events[i].balanceTargets ::
         var row := t.db.events[i].balanceTargets[user];
         || !row.status.Terminal()
         || (i < |s.db.events| && user in s.db.events[i].balanceTargets && row == s.db.events[i].balanceTargets[user])
         || (a.Settle? && a.event == i && a.user == user && a.stage == Outcome && SetCall(i, user, row.target) in t.sets
             && (row.status == Done <==> a.reply.SetOk?) && (row.status == Skipped <==> a.reply.UserMissing?))
  }

  lemma {:induction false} NewRowsPending(rows: seq<(int, real)>)
    ensures forall user | user in BalanceRows(rows) :: BalanceRows(rows)[user].status == Pending
  {
    if rows != [] {
      NewRowsPending(rows[..|rows| - 1]);
    }
  }

  lemma {:induction false} PollRowsFollow(s: Sys, p: Poll, a: Act)
    ensures RowsFollow(s, s.(db := Polled(s.db, p)), a)
  {
    if p.plan.QueueBalances? {
      NewRowsPending(p.plan.rows);
    }
  }

  lemma {:induction false} ActRowsFollow(l: Live, a: Act)
    ensures RowsFollow(l.sys, Acted(l, a).sys, a)
  {
    match a
    case PollAccount(p) => PollRowsFollow(l.sys, p, a);
    case Advance(f) =>
      if l.busy.Some? && HasTarget(l.sys, l.busy.value.0, l.busy.value.1) {
        AdvanceKeepsRows(l, f);
      }
    case Settle(_, _, _, _, _) => SettleRowsFollow(l.sys, a);
    case _ =>
  }

  lemma {:induction false} AdvanceKeepsRows(l: Live, f: Faults)
    requires l.busy.Some? && HasTarget(l.sys, l.busy.value.0, l.busy.value.1)
    ensures var m := Acted(l, Advance(f));
            && |m.sys.db.events| == |l.sys.db.events| && m.sys.sets == l.sys.sets
            && forall i | 0 <= i < |l.sys.db.events| ::
                 m.sys.db.events[i].balanceTargets == l.sys.db.events[i].balanceTargets
  {
  }

  lemma {:induction false} SettleRowsFollow(s: Sys, a: Act)
    requires a.Settle?
    ensures RowsFollow(s, Worked(s, a), a)
  {
    if OpenUser(s, a.event, a.user) && a.stage == Outcome {
      var t := Worked(s, a);
      assert t.sets[|s.sets|] in t.sets;
    }
  }

  lemma {:induction false} RowsStayTrue(front: seq<Act>, a: Act, s: Sys, t: Sys)
    requires RowsTrue(front, s) && RowsFollow(s, t, a)
    ensures RowsTrue(front + [a], t)
  {
    forall i, user | 0 <= i < |t.db.events| && user in t.db.events[i].balanceTargets
      ensures RowTrue(front + [a], t.sets, i, user, t.db.events[i].balanceTargets[user])
    {
      var row := t.db.events[i].balanceTargets[user];
      if row.status.Terminal() {
        if i < |s.db.events| && user in s.db.events[i].balanceTargets && row == s.db.events[i].balanceTargets[user] {
          RowStaysTrue(front, a, s.sets, t.sets, i, user, row);
        } else {
          assert (front + [a])[|front|] == a;
          assert Answered(front + [a], i, user, a.reply);
        }
      }
    }
  }

  lemma {:induction false} RunRowsTrue(subs: map<int, Subscription>, acts: seq<Act>)
    ensures RowsTrue(acts, RunActs(Start(subs), acts).sys)
  {
    if acts != [] {
      var n := |acts| - 1;
      RunRowsTrue(subs, acts[..n]);
      var l := RunActs(Start(subs), acts[..n]);
      ActRowsFollow(l, acts[n]);
      RowsStayTrue(acts[..n], acts[n], l.sys, Acted(l, acts[n]).sys);
      assert acts == acts[..n] + [acts[n]];
    }
  }

  /**
   Over any run: a done balance target had a set call with exactly the balance its row keeps, which the host
   answered; a skipped one had such a call too, and the host did not know the user.
   */
  lemma {:induction false} SettledBalancesWereSet(subs: map<int, Subscription>, acts: seq<Act>, i: nat, user: int)
    requires HasUser(RunActs(Start(subs), acts).sys, i, user)
    ensures var s := RunActs(Start(subs), acts).sys;
            var row := s.db.events[i].balanceTargets[user];
            && (row.status == Done || row.status == Skipped ==> SetCall(i, user, row.target) in s.sets)
            && (row.status == Done ==> Answered(acts, i, user, SetOk))
            && (row.status == Skipped ==> Answered(acts, i, user, UserMissing))
  {
    RunRowsTrue(subs, acts);
    var s := RunActs(Start(subs), acts).sys;
    assert RowTrue(acts, s.sets, i, user, s.db.events[i].balanceTargets[user]);
  }
}
