/**
 One visit of `process_pending_events` to one subscription target, as the steps between which the
 process can die or the host can change, and the in-place method that runs them without a break.
 */
module RetryEngine {
  import opened Common
  import opened StateStore
  import opened HostCycle

  /**
   A request answered normally, answered without the window fields, executed with its reply lost
   (or turned into an error after the commit), or never executed.
   */
  datatype Delivery = Delivered | WindowsOmitted | ReplyLost | NotSent {
    predicate Answered() { Delivered? || WindowsOmitted? }
  }

  /** What the outside world does during one visit: clocks, failing reads and the fate of the POST. */
  datatype Faults = Faults(now: int, getFails: bool, delivery: Delivery, hostNow: int, dayStart: int, againFails: bool)

  datatype Pc =
    | Fetch
    | Judge(view: Subscription)
    | Post
    | Check(reply: Subscription)
    | FetchAgain
    | CheckAgain(again: Subscription)
    | Commit(outcome: TargetStatus)
    | Over
  {
    function Rank(): nat {
      match this
      case Fetch => 7 case Judge(_) => 6 case Post => 5 case Check(_) => 4
      case FetchAgain => 3 case CheckAgain(_) => 2 case Commit(_) => 1 case Over => 0
    }
  }

  datatype Visit = Visit(pc: Pc, status: TargetStatus, host: Option<Subscription>, posted: bool, cleared: bool)

  predicate Eligible(sub: Subscription, groupIds: seq<int>, now: int) {
    sub.groupId in groupIds && sub.active && !sub.deleted && sub.expiresAt > now
  }

  function Shown(sub: Subscription, delivery: Delivery): Subscription {
    if delivery.WindowsOmitted? then sub.(dailyStart := None, weeklyStart := None, monthlyStart := None) else sub
  }

  /** The POST at the host: the row afterwards, what the caller concludes, and whether usage was cleared. */
  function PostStep(host: Option<Subscription>, e: Event, f: Faults): (Option<Subscription>, Pc, bool) {
    if f.delivery.NotSent? then (host, Commit(Failed), false)
    else if host.None? then
      (host, if f.delivery.Answered() && BoundaryAccepted(e.windows, e.cycleResetAt, f.hostNow)
             then Commit(Skipped) else Commit(Failed), false)
    else
      var (after, reply, cleared) := ResetForCycle(host.value, e.windows, e.cycleResetAt, f.hostNow, f.dayStart);
      var pc := if f.delivery.Answered() && reply.Updated? then Check(Shown(reply.sub, f.delivery)) else Commit(Failed);
      (Some(after), pc, cleared)
  }

  function VisitStep(v: Visit, e: Event, f: Faults): Visit {
    match v.pc
    case Fetch =>
      v.(pc := if f.getFails then Commit(Failed)
               else if v.host.None? then Commit(Skipped)
               else Judge(v.host.value))
    case Judge(view) =>
      if !Eligible(view, e.groupIds, f.now) then v.(pc := Commit(Skipped))
      else if Applied(view, e.windows, e.cycleResetAt) then v.(pc := Commit(Done))
      else v.(pc := Post, status := Processing)
    case Post =>
      var (after, pc, cleared) := PostStep(v.host, e, f);
      v.(pc := pc, host := after, posted := true, cleared := v.cleared || cleared)
    case Check(reply) =>
      v.(pc := if Applied(reply, e.windows, e.cycleResetAt) then Commit(Done) else FetchAgain)
    case FetchAgain =>
      v.(pc := if f.againFails then Commit(Failed)
               else if v.host.None? then Commit(Skipped)
               else CheckAgain(v.host.value))
    case CheckAgain(again) =>
      v.(pc := Commit(if Applied(again, e.windows, e.cycleResetAt) then Done else Failed))
    case Commit(outcome) => v.(pc := Over, status := outcome)
    case Over => v
  }

  function RunVisit(v: Visit, e: Event, f: Faults): Visit
    decreases v.pc.Rank()
  {
    if v.pc.Over? then v else RunVisit(VisitStep(v, e, f), e, f)
  }

  /** The first k steps, which is all that a process dying in the middle leaves behind. */
  function Steps(v: Visit, e: Event, f: Faults, k: nat): Visit
    decreases k
  {
    if k == 0 then v else Steps(VisitStep(v, e, f), e, f, k - 1)
  }

  lemma {:induction false} StepsReachEnd(v: Visit, e: Event, f: Faults, k: nat)
    requires k >= v.pc.Rank()
    ensures Steps(v, e, f, k) == RunVisit(v, e, f)
    decreases k
  {
    if k > 0 {
      StepsReachEnd(VisitStep(v, e, f), e, f, k - 1);
    }
  }

  lemma {:induction false} CommitEnds(v: Visit, e: Event, f: Faults)
    requires v.pc.Commit?
    ensures RunVisit(v, e, f) == v.(pc := Over, status := v.pc.outcome)
  {
    assert VisitStep(v, e, f).pc.Over?;
  }

  function FreshVisit(status: TargetStatus, host: Option<Subscription>): Visit {
    Visit(Fetch, status, host, false, false)
  }

  // ----- the visit on the store and the host -----

  datatype PostCall = PostCall(event: nat, id: int, windows: Windows, cycle: int)

  datatype SetCall = SetCall(event: nat, user: int, balance: real)

  datatype Sys = Sys(db: Db, subs: map<int, Subscription>, posts: seq<PostCall>, sets: seq<SetCall>)

  function Lookup(subs: map<int, Subscription>, id: int): Option<Subscription> {
    if id in subs then Some(subs[id]) else None
  }

  predicate HasTarget(s: Sys, event: nat, id: int) {
    event < |s.db.events| && id in s.db.events[event].resetTargets
  }

  function Visited(s: Sys, event: nat, id: int, v: Visit): Sys
    requires HasTarget(s, event, id)
  {
    var e := s.db.events[event];
    Sys(WithResetTarget(s.db, event, id, v.status),
        if v.host.Some? then s.subs[id := v.host.value] else s.subs,
        if v.posted then s.posts + [PostCall(event, id, e.windows, e.cycleResetAt)] else s.posts,
        s.sets)
  }

  function VisitTarget(s: Sys, event: nat, id: int, f: Faults): Sys
    requires HasTarget(s, event, id)
  {
    var e := s.db.events[event];
    Visited(s, event, id, RunVisit(FreshVisit(e.resetTargets[id], Lookup(s.subs, id)), e, f))
  }

  /** What a visit that dies after k steps leaves behind. */
  function CutVisit(s: Sys, event: nat, id: int, f: Faults, k: nat): Sys
    requires HasTarget(s, event, id)
  {
    var e := s.db.events[event];
    Visited(s, event, id, Steps(FreshVisit(e.resetTargets[id], Lookup(s.subs, id)), e, f, k))
  }

  class AdminHost {
    var subs: map<int, Subscription>
    var posts: seq<PostCall>
    var sets: seq<SetCall>

    constructor (rows: map<int, Subscription>)
      ensures subs == rows && posts == [] && sets == []
    {
      subs, posts, sets := rows, [], [];
    }

    /** The reset request; `raised` covers every exception, `notFound` the one answered 404. */
    method ResetSubscription(event: nat, id: int, e: Event, f: Faults)
      returns (reply: Option<Subscription>, notFound: bool)
      modifies this`subs, this`posts
      ensures posts == old(posts) + [PostCall(event, id, e.windows, e.cycleResetAt)]
      ensures var (after, pc, _) := PostStep(Lookup(old(subs), id), e, f);
              && subs == (if after.Some? then old(subs)[id := after.value] else old(subs))
              && (reply.Some? <==> pc.Check?) && (reply.Some? ==> reply.value == pc.reply)
              && (notFound <==> pc == Commit(Skipped))
    {
      posts := posts + [PostCall(event, id, e.windows, e.cycleResetAt)];
      assert id in subs ==> subs[id := subs[id]] == subs;
      reply, notFound := None, false;
      if f.delivery.NotSent? {
        return;
      }
      if id !in subs {
        notFound := f.delivery.Answered() && BoundaryAccepted(e.windows, e.cycleResetAt, f.hostNow);
        return;
      }
      var row := new SubscriptionRow(subs[id]);
      var answer := row.AdminResetQuotaForCycle(e.windows, e.cycleResetAt, f.hostNow, f.dayStart);
      subs := subs[id := row.row];
      if f.delivery.Answered() && answer.Updated? {
        reply := Some(Shown(answer.sub, f.delivery));
      }
    }
  }

  function System(store: Store, host: AdminHost): Sys
    reads store, host
  {
    Sys(store.Contents(), host.subs, host.posts, host.sets)
  }

  /** Lines after `processing` is committed: the request, its check, and the second read. */
  method PostAndCheck(host: AdminHost, event: nat, id: int, e: Event, f: Faults) returns (outcome: TargetStatus)
    modifies host`subs, host`posts
    ensures host.posts == old(host.posts) + [PostCall(event, id, e.windows, e.cycleResetAt)]
    ensures var v := RunVisit(Visit(Post, Processing, Lookup(old(host.subs), id), false, false), e, f);
            && v.status == outcome && v.posted
            && host.subs == if v.host.Some? then old(host.subs)[id := v.host.value] else old(host.subs)
  {
    ghost var v0 := Visit(Post, Processing, Lookup(host.subs, id), false, false);
    ghost var v := VisitStep(v0, e, f);
    var reply, notFound := host.ResetSubscription(event, id, e, f);
    assert RunVisit(v0, e, f) == RunVisit(v, e, f);
    if reply.None? {
      CommitEnds(v, e, f);
      return if notFound then Skipped else Failed;
    }
    var applied := CycleWindowsApplied(reply.value, e.windows, e.cycleResetAt);
    v := VisitStep(v, e, f);
    assert RunVisit(v0, e, f) == RunVisit(v, e, f);
    if applied {
      CommitEnds(v, e, f);
      return Done;
    }
    v := VisitStep(v, e, f);
    assert RunVisit(v0, e, f) == RunVisit(v, e, f);
    if f.againFails {
      CommitEnds(v, e, f);
      return Failed;
    }
    if id !in host.subs {
      return Skipped;
    }
    applied := CycleWindowsApplied(host.subs[id], e.windows, e.cycleResetAt);
    v := VisitStep(v, e, f);
    assert RunVisit(v0, e, f) == RunVisit(v, e, f);
    CommitEnds(v, e, f);
    return if applied then Done else Failed;
  }

  /** Lines up to the `processing` mark: the first read settles the target, or it must be posted (None). */
  method Inspect(host: AdminHost, id: int, e: Event, f: Faults, ghost before: TargetStatus)
    returns (settled: Option<TargetStatus>)
    ensures var row := Lookup(host.subs, id);
            var v := RunVisit(FreshVisit(before, row), e, f);
            if settled.Some? then v == Visit(Over, settled.value, row, false, false)
            else row.Some? && v == RunVisit(Visit(Post, Processing, row, false, false), e, f)
  {
    ghost var v := VisitStep(FreshVisit(before, Lookup(host.subs, id)), e, f);
    if f.getFails {
      CommitEnds(v, e, f);
      return Some(Failed);
    }
    if id !in host.subs {
      CommitEnds(v, e, f);
      return Some(Skipped);
    }
    var view := host.subs[id];
    v := VisitStep(v, e, f);
    if !Eligible(view, e.groupIds, f.now) {
      CommitEnds(v, e, f);
      return Some(Skipped);
    }
    var applied := CycleWindowsApplied(view, e.windows, e.cycleResetAt);
    if applied {
      CommitEnds(v, e, f);
      return Some(Done);
    }
    return None;
  }

  method ProcessTarget(store: Store, host: AdminHost, event: nat, id: int, f: Faults)
    requires HasTarget(System(store, host), event, id)
    modifies store`events, host`subs, host`posts
    ensures System(store, host) == VisitTarget(old(System(store, host)), event, id, f)
  {
    var e := store.events[event];
    var settled := Inspect(host, id, e, f, e.resetTargets[id]);
    if settled.Some? {
      store.MarkTarget(event, id, settled.value);
      assert id in host.subs ==> host.subs[id := host.subs[id]] == host.subs;
      return;
    }
    store.MarkTarget(event, id, Processing);
    var outcome := PostAndCheck(host, event, id, e, f);
    store.MarkTarget(event, id, outcome);
    assert store.events[event] == e.(resetTargets := e.resetTargets[id := outcome]);
    assert store.events == old(store.events)[event := store.events[event]];
  }
}
