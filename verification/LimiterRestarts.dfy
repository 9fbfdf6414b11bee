/** What the limiter bounds when the process is restarted, and a run in which that bound is attained. */
module LimiterRestarts {
  import opened RequestIds
  import opened TransferSaga
  import opened RateLimiter
  import opened LimitedTransfers

  // ----- across restarts -----

  /** The records of one sender, from any life, whose makers were let in at a reading in (after, upTo]. */
  function RowsOf(g: Gate, sender: int, after: int, upTo: int): set<nat> {
    RowsBefore(g, sender, g.life + 1, after, upTo)
  }

  /** Those from the first `lives` lives. */
  function RowsBefore(g: Gate, sender: int, lives: nat, after: int, upTo: int): set<nat> {
    set i: nat | i < |g.world.bank.records| && i < |g.makers| && g.makers[i] in g.tickets
      && g.tickets[g.makers[i]].lane.sender == sender && g.tickets[g.makers[i]].lane.life < lives
      && after < g.tickets[g.makers[i]].reading <= upTo
  }

  /** How many of the first `lives` lives saw a call of the sender in (after, upTo]. */
  function LivesCalled(g: Gate, sender: int, lives: nat, after: int, upTo: int): nat {
    if lives == 0 then 0 else
      LivesCalled(g, sender, lives - 1, after, upTo)
      + if CountIn(LaneCalls(g, Lane(lives - 1, sender)), after, upTo) > 0 then 1 else 0
  }

  lemma {:induction false} GrantedAmongCalls(calls: seq<int>, limit: nat, window: nat, after: int, upTo: int)
    ensures CountIn(Granted(calls, limit, window), after, upTo) <= CountIn(calls, after, upTo)
  {
    if calls != [] {
      var front, now := calls[..|calls| - 1], calls[|calls| - 1];
      assert calls == front + [now];
      GrantedAmongCalls(front, limit, window, after, upTo);
      OneMoreGrant(front, now, limit, window);
      CountConcat(front, [now], after, upTo);
      CountConcat(Granted(front, limit, window), [now], after, upTo);
    }
  }

  lemma {:induction false} OneMoreLife(g: Gate, sender: int, lives: nat, after: int, upTo: int)
    ensures |RowsBefore(g, sender, lives + 1, after, upTo)|
         <= |RowsBefore(g, sender, lives, after, upTo)| + |RowsIn(g, Lane(lives, sender), after, upTo)|
  {
    var old_, added := RowsBefore(g, sender, lives, after, upTo), RowsIn(g, Lane(lives, sender), after, upTo);
    assert RowsBefore(g, sender, lives + 1, after, upTo) == old_ + added;
    assert |old_ + added| <= |old_| + |added|;
  }

  /** One lane holds no more rows than the limit, and none without a call. */
  predicate LaneBound(g: Gate, lane: Lane, limit: nat, after: int, upTo: int) {
    && |RowsIn(g, lane, after, upTo)| <= limit
    && |RowsIn(g, lane, after, upTo)| <= CountIn(LaneCalls(g, lane), after, upTo)
  }

  ghost predicate LanesBound(g: Gate, sender: int, limit: nat, after: int, upTo: int) {
    forall life: nat :: LaneBound(g, Lane(life, sender), limit, after, upTo)
  }

  /** In every life, the sender's readings came in order. */
  ghost predicate LanesOrdered(g: Gate, sender: int) {
    forall life: nat :: Nondecreasing(LaneCalls(g, Lane(life, sender)))
  }

  lemma {:induction false} RowsOverFirstLives(g: Gate, limit: nat, sender: int, lives: nat, after: int, upTo: int)
    requires LanesBound(g, sender, limit, after, upTo)
    ensures |RowsBefore(g, sender, lives, after, upTo)| <= limit * LivesCalled(g, sender, lives, after, upTo)
  {
    if lives == 0 {
      assert RowsBefore(g, sender, 0, after, upTo) == {};
    } else {
      var lane := Lane(lives - 1, sender);
      RowsOverFirstLives(g, limit, sender, lives - 1, after, upTo);
      OneMoreLife(g, sender, lives - 1, after, upTo);
      assert LaneBound(g, lane, limit, after, upTo);
      LifeStep(|RowsIn(g, lane, after, upTo)|, CountIn(LaneCalls(g, lane), after, upTo), limit,
               LivesCalled(g, sender, lives - 1, after, upTo));
    }
  }

  lemma {:induction false} LifeStep(rows: nat, calls: nat, limit: nat, before: nat)
    requires rows <= limit && rows <= calls
    ensures limit * before + rows <= limit * (before + if calls > 0 then 1 else 0)
  {
  }

  lemma {:induction false} LaneBoundFrom(g: Gate, limit: nat, window: nat, lane: Lane, end: int)
    requires Nondecreasing(LaneCalls(g, lane))
    requires |RowsIn(g, lane, end - window, end)|
          <= CountIn(Granted(LaneCalls(g, lane), limit, window), end - window, end)
    ensures LaneBound(g, lane, limit, end - window, end)
  {
    GrantsBound(|RowsIn(g, lane, end - window, end)|, LaneCalls(g, lane), limit, window, end);
    GrantedAmongCalls(LaneCalls(g, lane), limit, window, end - window, end);
  }

  lemma {:induction false} RunLanesBound(balances: map<int, int>, events: seq<Event>, limit: nat, window: nat,
                                         sender: int, end: int)
    requires LanesOrdered(Ran(balances, events, limit, window), sender)
    ensures LanesBound(Ran(balances, events, limit, window), sender, limit, end - window, end)
  {
    var g := Ran(balances, events, limit, window);
    forall life: nat ensures LaneBound(g, Lane(life, sender), limit, end - window, end) {
      RanRowsFit(balances, events, limit, window, Lane(life, sender), end - window, end);
      LaneBoundFrom(g, limit, window, Lane(life, sender), end);
    }
  }

  /** The rows of a sender are within the limit times the lives called in. */
  predicate WithinLives(g: Gate, sender: int, limit: nat, after: int, upTo: int) {
    |RowsOf(g, sender, after, upTo)| <= limit * LivesCalled(g, sender, g.life + 1, after, upTo)
  }

  lemma {:induction false} BoundOverLives(g: Gate, sender: int, limit: nat, after: int, upTo: int)
    requires LanesBound(g, sender, limit, after, upTo)
    ensures WithinLives(g, sender, limit, after, upTo)
  {
    RowsOverFirstLives(g, limit, sender, g.life + 1, after, upTo);
  }

  /**
   Across restarts: within any window the records of one sender number at most `limit` times the lives of
   the process that saw a call of the sender in it.
   */
  lemma {:induction false} RowsOverLives(balances: map<int, int>, events: seq<Event>, limit: nat, window: nat,
                                         sender: int, end: int)
    requires LanesOrdered(Ran(balances, events, limit, window), sender)
    ensures WithinLives(Ran(balances, events, limit, window), sender, limit, end - window, end)
  {
    RunLanesBound(balances, events, limit, window, sender, end);
    BoundOverLives(Ran(balances, events, limit, window), sender, limit, end - window, end);
  }

  // ----- a run that attains it -----

  function Small(sender: int, t: nat): Request {
    Request(sender, 0, NatText(t), 1)
  }

  const DECLINED := Fates(Rejected(NoMatch), Returned, Returned, Returned)

  /** Requests n, n + 1, ... at reading 0, each of which claims its record. */
  function Filled(sender: int, n: nat, k: nat): seq<Event> {
    if k == 0 then [] else
      Filled(sender, n, k - 1) + [ArriveOf(sender, n + k - 1)] + [Inner(Go(n + k - 1))]
  }

  /** `limit` rows a life. */
  function Rows(limit: nat, lives: nat): nat {
    if lives == 0 then 0 else Rows(limit, lives - 1) + limit
  }

  /** Events one after another, by whatever one event does. */
  function Folded(step: (Gate, Event) -> Gate, g: Gate, events: seq<Event>): Gate {
    if events == [] then g else step(Folded(step, g, events[..|events| - 1]), events[|events| - 1])
  }

  lemma {:induction false} FoldedConcat(step: (Gate, Event) -> Gate, g: Gate, a: seq<Event>, b: seq<Event>)
    ensures Folded(step, g, a + b) == Folded(step, Folded(step, g, a), b)
  {
    if b == [] {
      assert a + b == a;
    } else {
      assert (a + b)[..|a + b| - 1] == a + b[..|b| - 1];
      FoldedConcat(step, g, a, b[..|b| - 1]);
    }
  }

  lemma {:induction false} FoldedSnoc(step: (Gate, Event) -> Gate, g: Gate, a: seq<Event>, e: Event)
    ensures Folded(step, g, a + [e]) == step(Folded(step, g, a), e)
  {
    assert (a + [e])[..|a|] == a;
  }

  function Stepper(limit: nat, window: nat): (Gate, Event) -> Gate {
    (g: Gate, e: Event) => Happened(g, e, limit, window)
  }

  lemma {:induction false} RanIsFolded(balances: map<int, int>, events: seq<Event>, limit: nat, window: nat)
    ensures Ran(balances, events, limit, window)
         == Folded(Stepper(limit, window), Ran(balances, [], limit, window), events)
  {
    if events != [] {
      RanIsFolded(balances, events[..|events| - 1], limit, window);
    }
  }

  /** Thread t was let in at reading 0 for the sender. */
  predicate LetIn(g: Gate, sender: int, t: nat) {
    && t in g.tickets && g.tickets[t].lane.sender == sender
    && g.tickets[t].lane.life <= g.life && g.tickets[t].reading == 0
  }

  /** And row t is its. */
  predicate Made(g: Gate, sender: int, t: nat) {
    && LetIn(g, sender, t)
    && t < |g.makers| && g.makers[t] == t
    && t < |g.world.bank.records| && g.world.bank.records[t].requestId == RequestId(sender, NatText(t))
  }

  /** After n such requests, k of them in this life: threads, makers and rows are those below n. */
  ghost predicate Stormed(g: Gate, sender: int, n: nat, k: nat) {
    && |g.world.bank.records| == n && |g.makers| == n && g.world.threads.Keys == Below(n)
    && (forall t: nat | t < n :: Made(g, sender, t))
    && QueueOf(g, sender) == Burst(0, k) && ZeroLanes(g, sender, k)
  }

  /** All calls came at reading 0, and none yet in a life that has not begun or has had no request. */
  predicate ZeroLane(g: Gate, sender: int, k: nat, life: nat) {
    var calls := LaneCalls(g, Lane(life, sender));
    && (forall i | 0 <= i < |calls| :: calls[i] == 0)
    && (life > g.life || (life == g.life && k == 0) ==> calls == [])
  }

  ghost predicate ZeroLanes(g: Gate, sender: int, k: nat) {
    forall life: nat :: ZeroLane(g, sender, k, life)
  }

  lemma {:induction false} ArriveKeepsZeroLanes(g: Gate, sender: int, k: nat, n: nat, limit: nat, window: nat)
    requires ZeroLanes(g, sender, k) && n !in g.world.threads
    ensures ZeroLanes(Happened(g, ArriveOf(sender, n), limit, window), sender, k + 1)
  {
    var v := Happened(g, ArriveOf(sender, n), limit, window);
    var more := k + 1;
    forall life: nat ensures ZeroLane(v, sender, more, life) {
      assert ZeroLane(g, sender, k, life);
    }
  }

  lemma {:induction false} RestartKeepsZeroLanes(g: Gate, sender: int, k: nat, limit: nat, window: nat)
    requires ZeroLanes(g, sender, k)
    ensures ZeroLanes(Happened(g, Restart, limit, window), sender, 0)
  {
    var v := Happened(g, Restart, limit, window);
    forall life: nat ensures ZeroLane(v, sender, 0, life) {
      assert ZeroLane(g, sender, k, life);
    }
  }

  lemma {:induction false} ClaimKeepsZeroLanes(g: Gate, sender: int, k: nat, a: Action)
    requires ZeroLanes(g, sender, k)
    ensures ZeroLanes(Worked(g, a), sender, k)
  {
    forall life: nat ensures ZeroLane(Worked(g, a), sender, k, life) {
      assert ZeroLane(g, sender, k, life);
    }
  }

  function Below(n: nat): (s: set<nat>)
    ensures |s| == n && n !in s && forall i: nat :: i in s <==> i < n
  {
    if n == 0 then {} else Below(n - 1) + {n - 1}
  }

  lemma {:induction false} KeysDiffer(sender: int, t: nat, n: nat)
    requires t != n
    ensures RequestId(sender, NatText(t)) != RequestId(sender, NatText(n))
  {
    if RequestId(sender, NatText(t)) == RequestId(sender, NatText(n)) {
      RequestIdInjective(sender, NatText(t), sender, NatText(n));
      NatTextParses(t);
      NatTextParses(n);
    }
  }

  lemma {:induction false} NewKeyIsNew(g: Gate, sender: int, n: nat, k: nat)
    requires Stormed(g, sender, n, k)
    ensures Lookup(g.world.bank.records, RequestId(sender, NatText(n))).None?
  {
    var records := g.world.bank.records;
    var id := RequestId(sender, NatText(n));
    LookupFinds(records, id);
    forall t: nat | t < n ensures records[t].requestId != id {
      assert Made(g, sender, t);
      KeysDiffer(sender, t, n);
    }
  }

  /** As `Stormed`, with the next thread let in and about to claim. */
  ghost predicate NextIsIn(g: Gate, sender: int, n: nat, k: nat) {
    && |g.world.bank.records| == n && |g.makers| == n && g.world.threads.Keys == Below(n + 1)
    && (forall t: nat | t < n :: Made(g, sender, t))
    && LetIn(g, sender, n)
    && QueueOf(g, sender) == Burst(0, k) && ZeroLanes(g, sender, k)
    && g.world.threads[n] == Thread(Small(sender, n), DECLINED, Claim)
    && Lookup(g.world.bank.records, RequestId(sender, NatText(n))).None?
  }

  /** A burst below the limit has room for one more. */
  lemma {:induction false} RoomInBurst(k: nat, limit: nat, window: nat)
    requires k < limit && window > 0
    ensures Allows(Burst(0, k), limit, window, 0) && Next(Burst(0, k), limit, window, 0) == Burst(0, k + 1)
  {
    assert Pruned(Burst(0, k), 0 - window) == Burst(0, k);
  }

  lemma {:induction false} OneMoreArrives(g: Gate, sender: int, n: nat, k: nat, limit: nat, window: nat)
    requires Stormed(g, sender, n, k) && k < limit && window > 0
    ensures var v := Happened(g, ArriveOf(sender, n), limit, window);
            NextIsIn(v, sender, n, k + 1) && v.life == g.life
  {
    NewKeyIsNew(g, sender, n, k);
    RoomInBurst(k, limit, window);
    assert n !in g.world.threads.Keys;
    ArriveKeepsZeroLanes(g, sender, k, n, limit, window);
    var v := Happened(g, ArriveOf(sender, n), limit, window);
    forall t: nat | t < n ensures Made(v, sender, t) {
      assert Made(g, sender, t);
    }
  }

  lemma {:induction false} OneMoreClaims(g: Gate, sender: int, n: nat, k: nat, limit: nat, window: nat)
    requires NextIsIn(g, sender, n, k)
    ensures var v := Happened(g, Inner(Go(n)), limit, window);
            Stormed(v, sender, n + 1, k) && v.life == g.life
  {
    assert n in g.world.threads.Keys;
    ClaimKeepsZeroLanes(g, sender, k, Go(n));
    var v := Happened(g, Inner(Go(n)), limit, window);
    assert v.world == Moved(g.world, n);
    assert v.world.bank.records == g.world.bank.records + [NewRecord(Small(sender, n))];
    assert v.makers == g.makers + [n];
    forall t: nat | t < n + 1 ensures Made(v, sender, t) {
      assert t < n ==> Made(g, sender, t);
    }
    assert v.world.threads.Keys == Below(n + 1);
  }

  lemma {:induction false} RestartStorms(g: Gate, sender: int, n: nat, k: nat, limit: nat, window: nat)
    requires Stormed(g, sender, n, k)
    ensures var v := Happened(g, Restart, limit, window);
            Stormed(v, sender, n, 0) && v.life == g.life + 1
  {
    RestartKeepsZeroLanes(g, sender, k, limit, window);
    var v := Happened(g, Restart, limit, window);
    forall t: nat | t < n ensures Made(v, sender, t) {
      assert Made(g, sender, t);
    }
  }

  function ArriveOf(sender: int, n: nat): Event {
    Arrive(n, Small(sender, n), DECLINED, 0, true)
  }

  /** What holds in a life after so many requests, so many of them in that life. */
  type Shape = (Gate, nat, nat, nat) -> bool

  /** One more request fits, while there is room. */
  ghost predicate RequestsFit(step: (Gate, Event) -> Gate, p: Shape, sender: int, limit: nat) {
    forall g: Gate, life: nat, n: nat, k: nat {:trigger step(g, ArriveOf(sender, n)), p(g, life, n, k)}
      | p(g, life, n, k) && k < limit ::
      p(step(step(g, ArriveOf(sender, n)), Inner(Go(n))), life, n + 1, k + 1)
  }

  /** A restart makes room. */
  ghost predicate RestartsFree(step: (Gate, Event) -> Gate, p: Shape) {
    forall g: Gate, life: nat, n: nat, k: nat {:trigger step(g, Restart), p(g, life, n, k)}
      | p(g, life, n, k) :: p(step(g, Restart), life + 1, n, 0)
  }

  lemma {:induction false} FilledStorms(step: (Gate, Event) -> Gate, p: Shape, g: Gate, sender: int,
                                        life: nat, n: nat, k: nat, limit: nat)
    requires RequestsFit(step, p, sender, limit) && p(g, life, n, 0) && k <= limit
    ensures p(Folded(step, g, Filled(sender, n, k)), life, n + k, k)
  {
    if k > 0 {
      var front, t := Filled(sender, n, k - 1), n + k - 1;
      FilledStorms(step, p, g, sender, life, n, k - 1, limit);
      FoldedSnoc(step, g, front, ArriveOf(sender, t));
      FoldedSnoc(step, g, front + [ArriveOf(sender, t)], Inner(Go(t)));
    }
  }

  function AfterLife(step: (Gate, Event) -> Gate, g: Gate, sender: int, n: nat, limit: nat): Gate {
    step(Folded(step, g, Filled(sender, n, limit)), Restart)
  }

  function AfterLives(step: (Gate, Event) -> Gate, g: Gate, sender: int, limit: nat, lives: nat): Gate {
    if lives == 0 then g else
      AfterLife(step, AfterLives(step, g, sender, limit, lives - 1), sender, Rows(limit, lives - 1), limit)
  }

  /** One more life is one more stretch of events. */
  lemma {:induction false} OneMoreStretch(step: (Gate, Event) -> Gate, g: Gate, front: seq<Event>,
                                          sender: int, n: nat, limit: nat)
    ensures Folded(step, g, front + (Filled(sender, n, limit) + [Restart]))
         == AfterLife(step, Folded(step, g, front), sender, n, limit)
  {
    FoldedConcat(step, g, front, Filled(sender, n, limit) + [Restart]);
    FoldedSnoc(step, Folded(step, g, front), Filled(sender, n, limit), Restart);
  }

  /** The lives, one after another, are a run. */
  lemma {:induction false} LivesAreARun(step: (Gate, Event) -> Gate, g: Gate, sender: int, limit: nat, lives: nat)
    returns (events: seq<Event>)
    ensures Folded(step, g, events) == AfterLives(step, g, sender, limit, lives)
  {
    if lives == 0 {
      events := [];
    } else {
      var front := LivesAreARun(step, g, sender, limit, lives - 1);
      OneMoreStretch(step, g, front, sender, Rows(limit, lives - 1), limit);
      events := front + (Filled(sender, Rows(limit, lives - 1), limit) + [Restart]);
    }
  }

  lemma {:induction false} LifeKeepsShape(step: (Gate, Event) -> Gate, p: Shape, g: Gate, sender: int,
                                          life: nat, n: nat, limit: nat)
    requires RequestsFit(step, p, sender, limit) && RestartsFree(step, p) && p(g, life, n, 0)
    ensures p(AfterLife(step, g, sender, n, limit), life + 1, n + limit, 0)
  {
    FilledStorms(step, p, g, sender, life, n, limit, limit);
  }

  lemma {:induction false} LivesKeepShape(step: (Gate, Event) -> Gate, p: Shape, g: Gate, sender: int,
                                          limit: nat, lives: nat)
    requires RequestsFit(step, p, sender, limit) && RestartsFree(step, p) && p(g, 0, 0, 0)
    ensures p(AfterLives(step, g, sender, limit, lives), lives, Rows(limit, lives), 0)
  {
    if lives > 0 {
      var before := AfterLives(step, g, sender, limit, lives - 1);
      LivesKeepShape(step, p, g, sender, limit, lives - 1);
      LifeKeepsShape(step, p, before, sender, lives - 1, Rows(limit, lives - 1), limit);
    }
  }

  ghost function StormShape(sender: int): Shape {
    (g: Gate, life: nat, n: nat, k: nat) => Stormed(g, sender, n, k) && g.life == life
  }

  lemma {:induction false} StepperFits(sender: int, limit: nat, window: nat)
    requires window > 0
    ensures RequestsFit(Stepper(limit, window), StormShape(sender), sender, limit)
    ensures RestartsFree(Stepper(limit, window), StormShape(sender))
  {
    forall g: Gate, n: nat, k: nat | Stormed(g, sender, n, k) && k < limit
      ensures var v := Stepper(limit, window)(Stepper(limit, window)(g, ArriveOf(sender, n)), Inner(Go(n)));
              Stormed(v, sender, n + 1, k + 1) && v.life == g.life
    {
      OneMoreRequest(g, sender, n, k, limit, window);
    }
    forall g: Gate, n: nat, k: nat {:trigger Stepper(limit, window)(g, Restart), Stormed(g, sender, n, k)}
      | Stormed(g, sender, n, k)
      ensures var v := Stepper(limit, window)(g, Restart);
              Stormed(v, sender, n, 0) && v.life == g.life + 1
    {
      RestartStorms(g, sender, n, k, limit, window);
    }
  }

  lemma {:induction false} OneMoreRequest(g: Gate, sender: int, n: nat, k: nat, limit: nat, window: nat)
    requires Stormed(g, sender, n, k) && k < limit && window > 0
    ensures var v := Happened(Happened(g, ArriveOf(sender, n), limit, window), Inner(Go(n)), limit, window);
            Stormed(v, sender, n + 1, k + 1) && v.life == g.life
  {
    OneMoreArrives(g, sender, n, k, limit, window);
    OneMoreClaims(Happened(g, ArriveOf(sender, n), limit, window), sender, n, k + 1, limit, window);
  }

  lemma {:induction false} RowsIsProduct(limit: nat, lives: nat)
    ensures Rows(limit, lives) == limit * lives
  {
    if lives > 0 {
      RowsIsProduct(limit, lives - 1);
      assert limit * (lives - 1) + limit == limit * lives;
    }
  }

  lemma {:induction false} StormRun(balances: map<int, int>, sender: int, limit: nat, window: nat, lives: nat)
    returns (events: seq<Event>)
    requires window > 0
    ensures StormShape(sender)(Ran(balances, events, limit, window), lives, Rows(limit, lives), 0)
  {
    var start := Ran(balances, [], limit, window);
    events := LivesAreARun(Stepper(limit, window), start, sender, limit, lives);
    RanIsFolded(balances, events, limit, window);
    assert ZeroLanes(start, sender, 0) by {
      forall life: nat ensures ZeroLane(start, sender, 0, life) {
      }
    }
    assert Stormed(start, sender, 0, 0);
    StepperFits(sender, limit, window);
    LivesKeepShape(Stepper(limit, window), StormShape(sender), start, sender, limit, lives);
  }

  /** What such a run comes to: rows for each life, readings in order, and a call in no more lives than there were. */
  ghost predicate Attains(g: Gate, sender: int, limit: nat, window: nat, lives: nat) {
    && LanesOrdered(g, sender) && g.life == lives
    && |RowsOf(g, sender, 0 - window, 0)| == limit * lives
    && LivesCalled(g, sender, lives + 1, 0 - window, 0) <= lives
  }

  lemma {:induction false} StormAttains(g: Gate, sender: int, limit: nat, window: nat, lives: nat)
    requires StormShape(sender)(g, lives, Rows(limit, lives), 0) && window > 0
    ensures Attains(g, sender, limit, window, lives)
  {
    RowsIsProduct(limit, lives);
    StormedRows(g, sender, Rows(limit, lives), window);
    StormedLanes(g, sender, Rows(limit, lives), window);
  }

  /** The bound across restarts, attained: readings in order, and `limit` rows for each life, all of them called in. */
  ghost predicate AttainsTheBound(g: Gate, sender: int, limit: nat, window: nat, lives: nat) {
    && LanesOrdered(g, sender) && g.life == lives
    && |RowsOf(g, sender, 0 - window, 0)| == limit * lives
    && limit * LivesCalled(g, sender, g.life + 1, 0 - window, 0) == limit * lives
  }

  lemma {:induction false} AttainedExactly(g: Gate, sender: int, limit: nat, window: nat, lives: nat)
    requires Attains(g, sender, limit, window, lives)
    requires WithinLives(g, sender, limit, 0 - window, 0)
    ensures AttainsTheBound(g, sender, limit, window, lives)
  {
    TimesBetween(limit, LivesCalled(g, sender, lives + 1, 0 - window, 0), lives);
  }

  lemma {:induction false} StormRunAttains(balances: map<int, int>, sender: int, limit: nat, window: nat, lives: nat)
    returns (events: seq<Event>)
    requires window > 0
    ensures Attains(Ran(balances, events, limit, window), sender, limit, window, lives)
  {
    events := StormRun(balances, sender, limit, window, lives);
    StormAttains(Ran(balances, events, limit, window), sender, limit, window, lives);
  }

  /**
   With a restart after each life's worth of requests, one window holds `limit` rows for every life there
   was: the bound across restarts is attained for any number of lives.
   */
  lemma {:induction false} RestartsAttainTheBound(balances: map<int, int>, sender: int, limit: nat, window: nat,
                                                  lives: nat)
    returns (events: seq<Event>)
    requires window > 0
    ensures AttainsTheBound(Ran(balances, events, limit, window), sender, limit, window, lives)
  {
    events := StormRunAttains(balances, sender, limit, window, lives);
    RowsOverLives(balances, events, limit, window, sender, 0);
    AttainedExactly(Ran(balances, events, limit, window), sender, limit, window, lives);
  }

  lemma {:induction false} TimesBetween(limit: nat, a: nat, b: nat)
    requires a <= b && limit * b <= limit * a
    ensures limit * a == limit * b
  {
  }

  lemma {:induction false} LivesCalledAtMost(g: Gate, sender: int, lives: nat, after: int, upTo: int)
    ensures LivesCalled(g, sender, lives, after, upTo) <= lives
  {
    if lives > 0 {
      LivesCalledAtMost(g, sender, lives - 1, after, upTo);
    }
  }

  /** Between lives: readings in order, and no call yet in the life to come. */
  lemma {:induction false} StormedLanes(g: Gate, sender: int, n: nat, window: nat)
    requires Stormed(g, sender, n, 0)
    ensures LanesOrdered(g, sender)
    ensures LivesCalled(g, sender, g.life + 1, 0 - window, 0) <= g.life
  {
    forall life: nat ensures Nondecreasing(LaneCalls(g, Lane(life, sender))) {
      assert ZeroLane(g, sender, 0, life);
    }
    assert ZeroLane(g, sender, 0, g.life);
    LivesCalledAtMost(g, sender, g.life, 0 - window, 0);
  }

  lemma {:induction false} StormedRows(g: Gate, sender: int, n: nat, window: nat)
    requires Stormed(g, sender, n, 0) && window > 0
    ensures |RowsOf(g, sender, 0 - window, 0)| == n
  {
    forall t: nat ensures t in RowsOf(g, sender, 0 - window, 0) <==> t in Below(n) {
      assert t < n ==> Made(g, sender, t);
    }
    assert RowsOf(g, sender, 0 - window, 0) == Below(n);
  }
}
