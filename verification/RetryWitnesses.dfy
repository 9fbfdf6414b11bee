/**
 When retries are safe, exactly: events that can undo each other are given the run in which they do, so the
 conditions under which every run clears once and keeps done targets aligned hold in both directions.
 */
module RetryWitnesses {
  import opened Common
  import opened StateStore
  import opened HostCycle
  import opened RetryEngine
  import opened RetrySafety

  // ----- why compatibility is needed -----

  ghost predicate NeverClearsTwice(evs: seq<Event>) {
    forall w, trace, c :: Initial(evs, w) ==> Clears(Run(evs, w, trace), c) <= 1
  }

  ghost predicate DoneStaysAligned(evs: seq<Event>) {
    forall w, trace, i | Initial(evs, w) && 0 <= i < |evs| && |Run(evs, w, trace).status| == |evs| ::
      Run(evs, w, trace).status[i] == Done ==> AlignedTo(Run(evs, w, trace).host, evs[i])
  }

  lemma {:induction false} RunConcat(evs: seq<Event>, w: World, a: seq<Action>, b: seq<Action>)
    ensures Run(evs, w, a + b) == Run(evs, Run(evs, w, a), b)
  {
    if b == [] {
      assert a + b == a;
    } else {
      var n := |b| - 1;
      assert (a + b)[..|a + b| - 1] == a + b[..n];
      RunConcat(evs, w, a, b[..n]);
    }
  }

  lemma {:induction false} RunCons(evs: seq<Event>, w: World, a: Action, b: seq<Action>)
    ensures Run(evs, w, [a] + b) == Run(evs, Step(evs, w, a), b)
  {
    assert [a][..0] == [];
    assert Run(evs, w, [a]) == Step(evs, w, a);
    RunConcat(evs, w, [a], b);
  }

  /** A subscription in good standing until `expires`, in some group. */
  function Standing(g: int, expires: int, weekly: Option<int>, monthly: Option<int>): Subscription {
    Subscription(g, true, false, expires, None, weekly, monthly, 0.0, 0.0, 0.0)
  }

  predicate InStanding(row: Subscription, now: int) {
    row.active && !row.deleted && row.expiresAt > now
  }

  function InGroupOf(row: Subscription, e: Event): Subscription
    requires e.groupIds != []
  {
    row.(groupId := e.groupIds[0])
  }

  /** Another actor moves the subscription to a group of the event, and the executor visits it. */
  function Trip(evs: seq<Event>, row: Subscription, i: nat, f: Faults, steps: nat): seq<Action>
    requires i < |evs| && evs[i].groupIds != []
  {
    [Outside(Some(InGroupOf(row, evs[i])))] + ([Begin(i)] + Advances(f, steps))
  }

  function Advances(f: Faults, k: nat): seq<Action> {
    if k == 0 then [] else [Advance(f)] + Advances(f, k - 1)
  }

  /** Ready for a visit to event i at time `now`. */
  predicate Ready(evs: seq<Event>, w: World, i: nat, now: int) {
    && |w.status| == |evs| && i < |evs| && evs[i].groupIds != []
    && w.busy.None? && !w.status[i].Terminal() && w.clock <= now
    && w.host.Some? && InStanding(w.host.value, now)
  }

  function Clean(now: int, delivery: Delivery): Faults {
    Faults(now, false, delivery, now, 0, false)
  }

  lemma {:induction false} TripBegins(evs: seq<Event>, w: World, i: nat, f: Faults, k: nat)
    requires Ready(evs, w, i, f.now)
    ensures Run(evs, w, Trip(evs, w.host.value, i, f, k)) == Run(evs, Begun(evs, w, i), Advances(f, k))
  {
    var row := InGroupOf(w.host.value, evs[i]);
    assert Rely(evs, w.host, Some(row));
    RunCons(evs, w, Outside(Some(row)), [Begin(i)] + Advances(f, k));
    RunCons(evs, w.(host := Some(row)), Begin(i), Advances(f, k));
  }

  /** A visit to an event the row is already aligned to marks it done and asks for nothing. */
  lemma {:induction false} RecoveringTrip(evs: seq<Event>, w: World, i: nat, now: int)
    requires Ready(evs, w, i, now) && AlignedTo(w.host, evs[i])
    ensures var row := InGroupOf(w.host.value, evs[i]);
            Run(evs, w, Trip(evs, w.host.value, i, Clean(now, Delivered), 3))
              == w.(host := Some(row), status := w.status[i := Done])
  {
    var f := Clean(now, Delivered);
    var row := InGroupOf(w.host.value, evs[i]);
    TripBegins(evs, w, i, f, 3);
    var w1 := Begun(evs, w, i);
    var w2 := w1.(busy := Some((i, Judge(row))));
    var w3 := w1.(busy := Some((i, Commit(Done))));
    assert w.status[i := w.status[i]] == w.status;
    assert Step(evs, w1, Advance(f)) == w2;
    assert Step(evs, w2, Advance(f)) == w3;
    RunCons(evs, w1, Advance(f), Advances(f, 2));
    RunCons(evs, w2, Advance(f), Advances(f, 1));
    RunCons(evs, w3, Advance(f), []);
    assert Advances(f, 0) == [];
  }

  function Begun(evs: seq<Event>, w: World, i: nat): World
    requires i < |evs| && evs[i].groupIds != [] && w.host.Some?
  {
    w.(host := Some(InGroupOf(w.host.value, evs[i])), busy := Some((i, Fetch)))
  }

  function Posting(w: World, i: nat): World
    requires i < |w.status|
  {
    w.(busy := Some((i, Post)), status := w.status[i := Processing])
  }

  /** The world after a visit that posts: one more clear; done if the reply arrived, failed if it was lost. */
  function Posted(evs: seq<Event>, w: World, i: nat, f: Faults): World
    requires |w.status| == |evs| && i < |evs| && w.host.Some?
  {
    var c := evs[i].cycleResetAt;
    World(Some(Cleared(w.host.value, evs[i].windows, c, f.dayStart)),
          w.status[i := if f.delivery.Delivered? then Done else Failed],
          w.clears[c := Clears(w, c) + 1], None, w.sent + {i}, f.hostNow)
  }

  function AfterPosting(evs: seq<Event>, w: World, i: nat, f: Faults): World
    requires |w.status| == |evs| && i < |evs| && evs[i].groupIds != [] && w.host.Some?
  {
    Posted(evs, Begun(evs, w, i), i, f)
  }

  /** From the reply, or its loss, to the committed status. */
  lemma {:induction false} ReplyAdvances(evs: seq<Event>, w: World, i: nat, f: Faults)
    requires |w.status| == |evs| && i < |evs| && w.busy.Some? && w.busy.value.0 == i
    requires var pc := w.busy.value.1;
             pc == Commit(Failed) || (pc.Check? && Applied(pc.reply, evs[i].windows, evs[i].cycleResetAt))
    ensures Run(evs, w, Advances(f, 2))
         == w.(busy := None, status := w.status[i := if w.busy.value.1.Check? then Done else Failed])
  {
    assert w.status[i := w.status[i]] == w.status;
    var next := w.(busy := if w.busy.value.1.Check? then Some((i, Commit(Done))) else None,
                   status := if w.busy.value.1.Check? then w.status else w.status[i := Failed]);
    assert Step(evs, w, Advance(f)) == next;
    RunCons(evs, w, Advance(f), Advances(f, 1));
    RunCons(evs, next, Advance(f), []);
    assert Advances(f, 0) == [];
  }

  /** The first two steps of a visit that is going to post. */
  lemma {:induction false} VisitReachesPost(evs: seq<Event>, w: World, i: nat, f: Faults, k: nat)
    requires |w.status| == |evs| && i < |evs| && w.busy == Some((i, Fetch)) && w.host.Some? && !f.getFails
    requires Eligible(w.host.value, evs[i].groupIds, f.now) && !AlignedTo(w.host, evs[i])
    ensures Run(evs, w, Advances(f, k + 2)) == Run(evs, Posting(w, i), Advances(f, k))
  {
    var w2 := w.(busy := Some((i, Judge(w.host.value))));
    assert w.status[i := w.status[i]] == w.status;
    assert Step(evs, w, Advance(f)) == w2;
    RunCons(evs, w, Advance(f), Advances(f, k + 1));
    RunCons(evs, w2, Advance(f), Advances(f, k));
  }

  /** Moving a subscription to a group of the event makes it eligible and changes no window. */
  lemma {:induction false} InGroupIsEligible(evs: seq<Event>, w: World, i: nat, now: int)
    requires Ready(evs, w, i, now) && !AlignedTo(w.host, evs[i])
    ensures var b := Begun(evs, w, i);
            && Eligible(b.host.value, evs[i].groupIds, now) && InStanding(b.host.value, now)
            && !AlignedTo(b.host, evs[i])
  {
    assert evs[i].groupIds[0] in evs[i].groupIds;
  }

  lemma {:induction false} PostingTrip(evs: seq<Event>, w: World, i: nat, now: int, delivery: Delivery)
    requires Ready(evs, w, i, now) && (delivery.Delivered? || delivery.ReplyLost?)
    requires BoundaryAccepted(evs[i].windows, evs[i].cycleResetAt, now) && !AlignedTo(w.host, evs[i])
    ensures Run(evs, w, Trip(evs, w.host.value, i, Clean(now, delivery), 5))
         == AfterPosting(evs, w, i, Clean(now, delivery))
  {
    var f := Clean(now, delivery);
    TripBegins(evs, w, i, f, 5);
    InGroupIsEligible(evs, w, i, now);
    BegunVisitPosts(evs, Begun(evs, w, i), i, f, 3);
  }

  lemma {:induction false} BegunVisitPosts(evs: seq<Event>, w: World, i: nat, f: Faults, k: nat)
    requires |w.status| == |evs| && i < |evs| && w.busy == Some((i, Fetch)) && w.host.Some? && f.hostNow >= w.clock
    requires !f.getFails && (f.delivery.Delivered? || f.delivery.ReplyLost?) && k == 3
    requires Eligible(w.host.value, evs[i].groupIds, f.now) && InStanding(w.host.value, f.hostNow)
    requires BoundaryAccepted(evs[i].windows, evs[i].cycleResetAt, f.hostNow) && !AlignedTo(w.host, evs[i])
    ensures Run(evs, w, Advances(f, k + 2)) == Posted(evs, w, i, f)
  {
    VisitReachesPost(evs, w, i, f, k);
    assert Run(evs, Posting(w, i), Advances(f, k)) == Posted(evs, Posting(w, i), i, f) by {
      VisitEnds(evs, Posting(w, i), i, f);
    }
    PostedFromPosting(evs, w, i, f);
  }

  lemma {:induction false} PostedFromPosting(evs: seq<Event>, w: World, i: nat, f: Faults)
    requires |w.status| == |evs| && i < |evs| && w.host.Some?
    ensures Posted(evs, Posting(w, i), i, f) == Posted(evs, w, i, f)
  {
    var outcome := if f.delivery.Delivered? then Done else Failed;
    assert w.status[i := Processing][i := outcome] == w.status[i := outcome];
  }

  /** From the request to the committed status. */
  lemma {:induction false} VisitEnds(evs: seq<Event>, w: World, i: nat, f: Faults)
    requires |w.status| == |evs| && i < |evs| && w.busy == Some((i, Post)) && w.host.Some? && f.hostNow >= w.clock
    requires f.delivery.Delivered? || f.delivery.ReplyLost?
    requires InStanding(w.host.value, f.hostNow)
    requires BoundaryAccepted(evs[i].windows, evs[i].cycleResetAt, f.hostNow) && !AlignedTo(w.host, evs[i])
    ensures Run(evs, w, Advances(f, 3)) == Posted(evs, w, i, f)
  {
    RunCons(evs, w, Advance(f), Advances(f, 2));
    PostIsAnswered(evs, w, i, f);
    ReplyAdvances(evs, Step(evs, w, Advance(f)), i, f);
  }

  lemma {:induction false} PostIsAnswered(evs: seq<Event>, w: World, i: nat, f: Faults)
    requires |w.status| == |evs| && i < |evs| && w.busy == Some((i, Post)) && w.host.Some? && f.hostNow >= w.clock
    requires f.delivery.Delivered? || f.delivery.ReplyLost?
    requires InStanding(w.host.value, f.hostNow)
    requires BoundaryAccepted(evs[i].windows, evs[i].cycleResetAt, f.hostNow) && !AlignedTo(w.host, evs[i])
    ensures var c := evs[i].cycleResetAt;
            var row := Cleared(w.host.value, evs[i].windows, c, f.dayStart);
            && Applied(row, evs[i].windows, c)
            && Step(evs, w, Advance(f))
                 == World(Some(row), w.status, w.clears[c := Clears(w, c) + 1],
                          Some((i, if f.delivery.Delivered? then Check(row) else Commit(Failed))),
                          w.sent + {i}, f.hostNow)
  {
  }

  /** A blank row in good standing, with every target pending. */
  function Blank(evs: seq<Event>, now: int): (w: World)
    ensures Initial(evs, w)
  {
    World(Some(Standing(0, now + 1, None, None)), seq(|evs|, _ => Pending), map[], None, {}, now)
  }

  /** x posts and its reply is lost; y posts. */
  function TwoTrips(evs: seq<Event>, x: nat, y: nat, now: int): World
    requires x < |evs| && y < |evs| && evs[x].groupIds != [] && evs[y].groupIds != []
  {
    AfterPosting(evs, AfterPosting(evs, Blank(evs, now), x, Clean(now, ReplyLost)), y, Clean(now, Delivered))
  }

  predicate Accepted(e: Event, now: int) {
    Active(e) && BoundaryAccepted(e.windows, e.cycleResetAt, now)
  }

  lemma {:induction false} TwoTripsRun(evs: seq<Event>, x: nat, y: nat, now: int) returns (trace: seq<Action>)
    requires x < |evs| && y < |evs| && x != y && Accepted(evs[x], now) && Accepted(evs[y], now)
    requires !AlignedTo(AfterPosting(evs, Blank(evs, now), x, Clean(now, ReplyLost)).host, evs[y])
    ensures Run(evs, Blank(evs, now), trace) == TwoTrips(evs, x, y, now)
  {
    var w0 := Blank(evs, now);
    var w1 := AfterPosting(evs, w0, x, Clean(now, ReplyLost));
    PostingTrip(evs, w0, x, now, ReplyLost);
    PostingTrip(evs, w1, y, now, Delivered);
    var a := Trip(evs, w0.host.value, x, Clean(now, ReplyLost), 5);
    var b := Trip(evs, w1.host.value, y, Clean(now, Delivered), 5);
    RunConcat(evs, w0, a, b);
    trace := a + b;
  }

  /** Two events of one cycle, one selecting a window that the other does not: the cycle is cleared for twice. */
  lemma {:induction false} WiderWindowClearsAgain(evs: seq<Event>, x: nat, y: nat)
    requires x < |evs| && y < |evs| && Active(evs[x]) && Active(evs[y])
    requires evs[x].cycleResetAt == evs[y].cycleResetAt && !Within(evs[y].windows, evs[x].windows)
    ensures !NeverClearsTwice(evs)
  {
    var now := evs[x].cycleResetAt - 1;
    var trace := TwoTripsRun(evs, x, y, now);
    assert Clears(Run(evs, Blank(evs, now), trace), evs[x].cycleResetAt) == 2;
  }

  /** y undoes what x did, so the retry of x, whose reply was lost, clears again. */
  lemma {:induction false} RetryClearsAgain(evs: seq<Event>, x: nat, y: nat, now: int) returns (trace: seq<Action>)
    requires x < |evs| && y < |evs| && Accepted(evs[x], now) && Accepted(evs[y], now)
    requires Shares(evs[x].windows, evs[y].windows) && evs[x].cycleResetAt != evs[y].cycleResetAt
    requires evs[y].cycleResetAt < evs[x].cycleResetAt + WEEK
    requires evs[x].cycleResetAt < evs[y].cycleResetAt + WEEK || !Within(evs[y].windows, evs[x].windows)
    ensures var after := Run(evs, Blank(evs, now), trace);
            && Clears(after, evs[x].cycleResetAt) == 2
            && |after.status| == |evs| && after.status[y] == Done
            && (evs[x].cycleResetAt < evs[y].cycleResetAt ==> !AlignedTo(after.host, evs[y]))
  {
    var w2 := TwoTrips(evs, x, y, now);
    var first := TwoTripsRun(evs, x, y, now);
    assert !AlignedTo(w2.host, evs[x]);
    PostingTrip(evs, w2, x, now, Delivered);
    var last := Trip(evs, w2.host.value, x, Clean(now, Delivered), 5);
    RunConcat(evs, Blank(evs, now), first, last);
    trace := first + last;
  }

  /**
   Two active events that share a window, with cycles less than seven days apart: there is a run in which
   the earlier cycle is cleared for twice, and the done target of the later one is no longer aligned.
   */
  lemma {:induction false} CloseCyclesClearTwice(evs: seq<Event>, i: nat, j: nat)
    requires i < |evs| && j < |evs| && Active(evs[i]) && Active(evs[j]) && Shares(evs[i].windows, evs[j].windows)
    requires evs[i].cycleResetAt < evs[j].cycleResetAt < evs[i].cycleResetAt + WEEK
    ensures exists w, trace ::
      && Initial(evs, w)
      && Clears(Run(evs, w, trace), evs[i].cycleResetAt) == 2
      && |Run(evs, w, trace).status| == |evs| && Run(evs, w, trace).status[j] == Done
      && !AlignedTo(Run(evs, w, trace).host, evs[j])
  {
    var now := evs[i].cycleResetAt - 1;
    var trace := RetryClearsAgain(evs, i, j, now);
    assert Initial(evs, Blank(evs, now));
  }

  /** An earlier event with a window of its own, and a later one accepted in the slack of the host's boundary check. */
  lemma {:induction false} SlackClearsTwice(evs: seq<Event>, i: nat, j: nat)
    requires i < |evs| && j < |evs| && Active(evs[i]) && Active(evs[j]) && Shares(evs[i].windows, evs[j].windows)
    requires evs[i].cycleResetAt + WEEK <= evs[j].cycleResetAt && !TooLateFor(evs[i], evs[j])
    requires !Within(evs[i].windows, evs[j].windows)
    ensures !NeverClearsTwice(evs)
  {
    var now := evs[i].cycleResetAt - 1;
    var trace := RetryClearsAgain(evs, j, i, now);
    assert Clears(Run(evs, Blank(evs, now), trace), evs[j].cycleResetAt) == 2;
  }

  /**
   Any events of one subscription clear it at most once per cycle, through any crashes, lost and late
   requests, retries and rollovers, if and only if they are compatible.
   */
  lemma {:induction false} ClearsOnceIffCompatible(evs: seq<Event>)
    ensures NeverClearsTwice(evs) <==> Compatible(evs)
  {
    if Compatible(evs) {
      forall w, trace, c | Initial(evs, w) ensures Clears(Run(evs, w, trace), c) <= 1 {
        RunClearsOnce(evs, w, trace);
        assert Clears(Run(evs, w, trace), c) > 0 ==> ClearedOnce(evs, Run(evs, w, trace), c);
      }
    } else {
      var i, j :| 0 <= i < |evs| && 0 <= j < |evs| && Active(evs[i]) && Active(evs[j])
        && !((evs[i].cycleResetAt == evs[j].cycleResetAt ==> Within(evs[i].windows, evs[j].windows))
             && (Spares(evs[i], evs[j]) || TooLateFor(evs[i], evs[j])));
      IncompatibleClearsTwice(evs, i, j);
    }
  }

  lemma {:induction false} IncompatibleClearsTwice(evs: seq<Event>, i: nat, j: nat)
    requires i < |evs| && j < |evs| && Active(evs[i]) && Active(evs[j])
    requires (evs[i].cycleResetAt == evs[j].cycleResetAt && !Within(evs[i].windows, evs[j].windows))
             || !(Spares(evs[i], evs[j]) || TooLateFor(evs[i], evs[j]))
    ensures !NeverClearsTwice(evs)
  {
    var a, b := evs[i].cycleResetAt, evs[j].cycleResetAt;
    if a == b {
      WiderWindowClearsAgain(evs, j, i);
    } else if a + WEEK <= b {
      SlackClearsTwice(evs, i, j);
    } else if a < b {
      CloseCyclesClearTwice(evs, i, j);
    } else {
      CloseCyclesClearTwice(evs, j, i);
    }
  }

  /** All events select the same periodic windows, at least one, and name a group. */
  predicate SamePeriodic(evs: seq<Event>, w: Windows) {
    && (w.weekly || w.monthly)
    && forall i | 0 <= i < |evs| ::
      evs[i].windows.weekly == w.weekly && evs[i].windows.monthly == w.monthly && evs[i].groupIds != []
  }

  /** Any two cycles are the same or at least seven days apart. */
  predicate Separated(evs: seq<Event>) {
    forall i, j | 0 <= i < |evs| && 0 <= j < |evs| ::
      evs[i].cycleResetAt < evs[j].cycleResetAt ==> evs[i].cycleResetAt + WEEK <= evs[j].cycleResetAt
  }

  /** Under one configuration: at most once per cycle if and only if cycles are equal or at least seven days apart. */
  lemma {:induction false} ClearsOnceIffSeparated(evs: seq<Event>, s: Windows)
    requires SamePeriodic(evs, s)
    ensures NeverClearsTwice(evs) <==> Separated(evs)
  {
    ClearsOnceIffCompatible(evs);
    if Compatible(evs) {
      forall i, j | 0 <= i < |evs| && 0 <= j < |evs| && evs[i].cycleResetAt < evs[j].cycleResetAt
        ensures evs[i].cycleResetAt + WEEK <= evs[j].cycleResetAt
      {
        assert Spares(evs[i], evs[j]) || TooLateFor(evs[i], evs[j]);
      }
    }
  }

  // ----- when done targets stay aligned -----

  /** The row as a reset for e left it, before anything else. */
  function AlignedBlank(evs: seq<Event>, e: Event, now: int): (w: World)
    ensures Initial(evs, w)
  {
    var start := Some(e.cycleResetAt - WEEK);
    World(Some(Standing(0, now + 1, if e.windows.weekly then start else None,
                        if e.windows.monthly then start else None)),
          seq(|evs|, _ => Pending), map[], None, {}, now)
  }

  /** An event that another one does not spare is found done, and then undone by the other. */
  lemma {:induction false} UnsparedIsUndone(evs: seq<Event>, i: nat, j: nat)
    requires i < |evs| && j < |evs| && Active(evs[i]) && Active(evs[j]) && !Spares(evs[j], evs[i])
    ensures !DoneStaysAligned(evs)
  {
    var now := evs[j].cycleResetAt - 1;
    var w0 := AlignedBlank(evs, evs[i], now);
    RecoveringTrip(evs, w0, i, now);
    var first := Trip(evs, w0.host.value, i, Clean(now, Delivered), 3);
    var w1 := Run(evs, w0, first);
    PostingTrip(evs, w1, j, now, Delivered);
    var last := Trip(evs, w1.host.value, j, Clean(now, Delivered), 5);
    RunConcat(evs, w0, first, last);
    var after := Run(evs, w0, first + last);
    assert after == AfterPosting(evs, w1, j, Clean(now, Delivered));
    assert after.status[i] == Done && !AlignedTo(after.host, evs[i]);
  }

  /**
   Every done target stays aligned, in every run, for as long as the row exists, if and only if every
   active event spares every other.
   */
  lemma {:induction false} DoneStaysAlignedIff(evs: seq<Event>)
    ensures DoneStaysAligned(evs) <==>
      forall i, j | 0 <= i < |evs| && 0 <= j < |evs| && Active(evs[i]) && Active(evs[j]) :: Spares(evs[j], evs[i])
  {
    if i, j :| 0 <= i < |evs| && 0 <= j < |evs| && Active(evs[i]) && Active(evs[j]) && !Spares(evs[j], evs[i]) {
      UnsparedIsUndone(evs, i, j);
    } else {
      forall w, trace, i | Initial(evs, w) && 0 <= i < |evs| && |Run(evs, w, trace).status| == |evs|
        ensures Run(evs, w, trace).status[i] == Done ==> AlignedTo(Run(evs, w, trace).host, evs[i])
      {
        RunKeepsWorkOk(evs, w, trace);
        if Active(evs[i]) {
          RunKeepsDoneOk(evs, w, trace, i);
        }
      }
    }
  }
}
