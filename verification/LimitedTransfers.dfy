/**
 The limiter in front of the saga: `transfer` asks it before anything else, and only an allowed, valid
 request gets a thread. The limiter lives in the process, so a restart forgets it.
 */
module LimitedTransfers {
  import opened TransferSaga
  import opened RateLimiter

  /** One sender's calls in one life of the process. */
  datatype Lane = Lane(life: nat, sender: int)

  /** How a thread got in: its lane, its clock reading, and which allowed call of the lane it was. */
  datatype Ticket = Ticket(lane: Lane, reading: int, place: nat)

  /**
   `queues` is the limiter's table. The rest is bookkeeping: every reading by lane, the ticket of each
   thread, and the thread that made each record.
   */
  datatype Gate = Gate(world: World, queues: map<int, seq<int>>, life: nat, calls: map<Lane, seq<int>>,
                       tickets: map<nat, Ticket>, makers: seq<nat>)

  /** `valid`: the payload, amount and recipient checks other than a positive amount. */
  datatype Event =
    | Arrive(t: nat, req: Request, fates: Fates, now: int, valid: bool)
    | Inner(action: Action)
    | Restart

  function LaneCalls(g: Gate, lane: Lane): seq<int> {
    if lane in g.calls then g.calls[lane] else []
  }

  function QueueOf(g: Gate, sender: int): seq<int> {
    if sender in g.queues then g.queues[sender] else []
  }

  /** The limiter after a call, and the history it has judged. */
  function Asked(g: Gate, sender: int, now: int, limit: nat, window: nat): Gate {
    var lane := Lane(g.life, sender);
    g.(queues := g.queues[sender := Next(QueueOf(g, sender), limit, window, now)],
       calls := g.calls[lane := LaneCalls(g, lane) + [now]])
  }

  function Arrived(g: Gate, e: Event, limit: nat, window: nat): Gate
    requires e.Arrive?
  {
    var lane := Lane(g.life, e.req.sender);
    var asked := Asked(g, e.req.sender, e.now, limit, window);
    if Allows(QueueOf(g, e.req.sender), limit, window, e.now) && e.valid && e.req.amount > 0 then
      asked.(world := Act(g.world, Submit(e.t, e.req, e.fates)),
             tickets := g.tickets[e.t := Ticket(lane, e.now, |Granted(LaneCalls(g, lane), limit, window)|)])
    else asked
  }

  function Worked(g: Gate, a: Action): Gate {
    var world := Act(g.world, a);
    g.(world := world,
       makers := if a.Go? && |world.bank.records| > |g.world.bank.records| then g.makers + [a.t] else g.makers)
  }

  /** Only arrivals submit. A restart empties the limiter; the threads end by dying. */
  function Happened(g: Gate, e: Event, limit: nat, window: nat): Gate {
    match e
    case Arrive(t, _, _, _, _) => if t in g.world.threads then g else Arrived(g, e, limit, window)
    case Inner(a) => if a.Submit? then g else Worked(g, a)
    case Restart => g.(queues := map[], life := g.life + 1)
  }

  function Ran(balances: map<int, int>, events: seq<Event>, limit: nat, window: nat): Gate {
    if events == [] then Gate(Opening(balances), map[], 0, map[], map[], []) else
      Happened(Ran(balances, events[..|events| - 1], limit, window), events[|events| - 1], limit, window)
  }

  // ----- the saga behind the limiter is the saga -----

  function Inside(balances: map<int, int>, events: seq<Event>, limit: nat, window: nat): seq<Action> {
    if events == [] then [] else
      var front := events[..|events| - 1];
      var g := Ran(balances, front, limit, window);
      Inside(balances, front, limit, window) + (
        match events[|events| - 1]
        case Arrive(t, req, fates, now, valid) =>
          if t !in g.world.threads && Allows(QueueOf(g, req.sender), limit, window, now) && valid && req.amount > 0
          then [Submit(t, req, fates)] else []
        case Inner(a) => if a.Submit? then [] else [a]
        case Restart => [])
  }

  lemma {:induction false} RunSnoc(w: World, trace: seq<Action>, a: Action)
    ensures Run(w, trace + [a]) == Act(Run(w, trace), a)
  {
    assert (trace + [a])[..|trace|] == trace;
  }

  /** Every world behind the limiter is one of the saga's, so all its results hold there. */
  lemma {:induction false} WorldIsReachable(balances: map<int, int>, events: seq<Event>, limit: nat, window: nat)
    ensures Ran(balances, events, limit, window).world
         == Run(Opening(balances), Inside(balances, events, limit, window))
  {
    if events != [] {
      var front, e := events[..|events| - 1], events[|events| - 1];
      var before := Inside(balances, front, limit, window);
      WorldIsReachable(balances, front, limit, window);
      assert before + [] == before;
      if e.Arrive? {
        RunSnoc(Opening(balances), before, Submit(e.t, e.req, e.fates));
      } else if e.Inner? {
        RunSnoc(Opening(balances), before, e.action);
      }
    }
  }

  // ----- tickets and makers -----

  ghost predicate TicketOk(g: Gate, t: nat, limit: nat, window: nat) {
    t in g.tickets && var k := g.tickets[t];
    && t in g.world.threads && g.world.threads[t].req.sender == k.lane.sender
    && k.lane.life <= g.life
    && var granted := Granted(LaneCalls(g, k.lane), limit, window);
    && k.place < |granted| && granted[k.place] == k.reading
  }

  ghost predicate TicketsOk(g: Gate, limit: nat, window: nat) {
    && (forall t | t in g.tickets :: TicketOk(g, t, limit, window))
    && (forall t | t in g.world.threads :: t in g.tickets)
    && PlacesDistinct(g.tickets)
  }

  ghost predicate PlacesDistinct(tickets: map<nat, Ticket>) {
    forall s, t | s in tickets && t in tickets && tickets[s].lane == tickets[t].lane
      && tickets[s].place == tickets[t].place :: s == t
  }

  predicate QueueOk(g: Gate, u: int, limit: nat, window: nat) {
    QueueOf(g, u) == Queue(LaneCalls(g, Lane(g.life, u)), limit, window)
  }

  ghost predicate QueuesOk(g: Gate, limit: nat, window: nat) {
    && (forall u: int :: QueueOk(g, u, limit, window))
    && (forall lane | lane in g.calls :: lane.life <= g.life)
  }

  /** Each record has its own maker, which has the record's sender and has left its claim behind. */
  ghost predicate MakersOk(g: Gate) {
    && |g.makers| == |g.world.bank.records|
    && (forall i | 0 <= i < |g.makers| ::
          && g.makers[i] in g.world.threads && !g.world.threads[g.makers[i]].pc.Claim?
          && g.world.threads[g.makers[i]].req.sender == g.world.bank.records[i].sender)
    && (forall i, j | 0 <= i < |g.makers| && 0 <= j < |g.makers| && g.makers[i] == g.makers[j] :: i == j)
  }

  ghost predicate GateOk(g: Gate, limit: nat, window: nat) {
    Inv(g.world, false) && TicketsOk(g, limit, window) && QueuesOk(g, limit, window) && MakersOk(g)
  }

  lemma {:induction false} AskedKeepsOwnQueue(g: Gate, sender: int, now: int, limit: nat, window: nat)
    requires QueueOk(g, sender, limit, window)
    ensures QueueOk(Asked(g, sender, now, limit, window), sender, limit, window)
  {
    OneMoreGrant(LaneCalls(g, Lane(g.life, sender)), now, limit, window);
  }

  lemma {:induction false} AskedKeepsQueues(g: Gate, sender: int, now: int, limit: nat, window: nat)
    requires QueuesOk(g, limit, window)
    ensures QueuesOk(Asked(g, sender, now, limit, window), limit, window)
  {
    forall u: int ensures QueueOk(Asked(g, sender, now, limit, window), u, limit, window) {
      assert QueueOk(g, u, limit, window);
      if u == sender {
        AskedKeepsOwnQueue(g, sender, now, limit, window);
      }
    }
  }

  lemma {:induction false} AskedKeepsTicket(g: Gate, sender: int, now: int, t: nat, limit: nat, window: nat)
    requires TicketOk(g, t, limit, window)
    ensures TicketOk(Asked(g, sender, now, limit, window), t, limit, window)
  {
    OneMoreGrant(LaneCalls(g, Lane(g.life, sender)), now, limit, window);
  }

  lemma {:induction false} AskedKeepsTickets(g: Gate, sender: int, now: int, limit: nat, window: nat)
    requires TicketsOk(g, limit, window)
    ensures TicketsOk(Asked(g, sender, now, limit, window), limit, window)
  {
    forall t | t in g.tickets ensures TicketOk(Asked(g, sender, now, limit, window), t, limit, window) {
      AskedKeepsTicket(g, sender, now, t, limit, window);
    }
  }

  lemma {:induction false} NewPlaceDistinct(tickets: map<nat, Ticket>, t: nat, k: Ticket)
    requires PlacesDistinct(tickets) && t !in tickets
    requires forall s | s in tickets && tickets[s].lane == k.lane :: tickets[s].place != k.place
    ensures PlacesDistinct(tickets[t := k])
  {
  }

  /** A new thread with a ticket for a place of its own joins the others. */
  lemma {:induction false} NewTicketJoins(g: Gate, t: nat, x: Thread, k: Ticket, limit: nat, window: nat)
    requires TicketsOk(g, limit, window) && t !in g.world.threads
    requires x.req.sender == k.lane.sender && k.lane.life <= g.life
    requires var granted := Granted(LaneCalls(g, k.lane), limit, window);
             k.place < |granted| && granted[k.place] == k.reading
    requires forall s | s in g.tickets && g.tickets[s].lane == k.lane :: g.tickets[s].place != k.place
    ensures TicketsOk(g.(world := g.world.(threads := g.world.threads[t := x]), tickets := g.tickets[t := k]),
                      limit, window)
  {
    var v := g.(world := g.world.(threads := g.world.threads[t := x]), tickets := g.tickets[t := k]);
    assert t !in g.tickets by {
      assert forall s | s in g.tickets :: TicketOk(g, s, limit, window);
    }
    NewPlaceDistinct(g.tickets, t, k);
    forall s | s in v.tickets ensures TicketOk(v, s, limit, window) {
      if s != t {
        assert TicketOk(g, s, limit, window);
      }
    }
  }

  /** The place of the next call to be granted is taken by nobody. */
  lemma {:induction false} NextPlaceIsFree(g: Gate, lane: Lane, limit: nat, window: nat)
    requires TicketsOk(g, limit, window)
    ensures forall s | s in g.tickets && g.tickets[s].lane == lane ::
      g.tickets[s].place < |Granted(LaneCalls(g, lane), limit, window)|
  {
    forall s | s in g.tickets && g.tickets[s].lane == lane
      ensures g.tickets[s].place < |Granted(LaneCalls(g, lane), limit, window)|
    {
      assert TicketOk(g, s, limit, window);
    }
  }

  lemma {:induction false} AdmissionKeepsTickets(g: Gate, e: Event, limit: nat, window: nat)
    requires TicketsOk(g, limit, window) && QueuesOk(g, limit, window)
    requires e.Arrive? && e.t !in g.world.threads && e.req.amount > 0 && e.valid
    requires Allows(QueueOf(g, e.req.sender), limit, window, e.now)
    ensures TicketsOk(Arrived(g, e, limit, window), limit, window)
  {
    var lane := Lane(g.life, e.req.sender);
    var place := |Granted(LaneCalls(g, lane), limit, window)|;
    NextPlaceIsFree(g, lane, limit, window);
    AskedKeepsTickets(g, e.req.sender, e.now, limit, window);
    OneMoreGrant(LaneCalls(g, lane), e.now, limit, window);
    assert QueueOk(g, e.req.sender, limit, window);
    NewTicketJoins(Asked(g, e.req.sender, e.now, limit, window), e.t, Thread(e.req, e.fates, Claim),
                   Ticket(lane, e.now, place), limit, window);
  }

  lemma {:induction false} ArrivalKeepsMakers(g: Gate, e: Event, limit: nat, window: nat)
    requires MakersOk(g) && e.Arrive? && e.t !in g.world.threads
    ensures MakersOk(Arrived(g, e, limit, window))
  {
    var v := Arrived(g, e, limit, window);
    assert v.world.bank == g.world.bank && v.makers == g.makers;
    assert forall t | t in g.world.threads :: t in v.world.threads && v.world.threads[t] == g.world.threads[t];
  }

  lemma {:induction false} ArrivalKeepsTickets(g: Gate, e: Event, limit: nat, window: nat)
    requires TicketsOk(g, limit, window) && QueuesOk(g, limit, window) && e.Arrive? && e.t !in g.world.threads
    ensures TicketsOk(Arrived(g, e, limit, window), limit, window)
    ensures QueuesOk(Arrived(g, e, limit, window), limit, window)
  {
    AskedKeepsQueues(g, e.req.sender, e.now, limit, window);
    SameQueues(Asked(g, e.req.sender, e.now, limit, window), Arrived(g, e, limit, window), limit, window);
    if Allows(QueueOf(g, e.req.sender), limit, window, e.now) && e.valid && e.req.amount > 0 {
      AdmissionKeepsTickets(g, e, limit, window);
    } else {
      AskedKeepsTickets(g, e.req.sender, e.now, limit, window);
    }
  }

  lemma {:induction false} SameQueues(g: Gate, v: Gate, limit: nat, window: nat)
    requires QueuesOk(g, limit, window) && v.queues == g.queues && v.calls == g.calls && v.life == g.life
    ensures QueuesOk(v, limit, window)
  {
    forall u: int ensures QueueOk(v, u, limit, window) {
      assert QueueOk(g, u, limit, window);
    }
  }

  lemma {:induction false} ArrivalKeepsOk(g: Gate, e: Event, limit: nat, window: nat)
    requires GateOk(g, limit, window) && e.Arrive? && e.t !in g.world.threads
    ensures GateOk(Arrived(g, e, limit, window), limit, window)
  {
    ArrivalKeepsTickets(g, e, limit, window);
    ArrivalKeepsMakers(g, e, limit, window);
    ActKeepsInv(g.world, Submit(e.t, e.req, e.fates), false);
  }

  /** A step keeps every thread and its request, and past its claim a thread never returns to it. */
  lemma {:induction false} ActKeepsThreads(w: World, a: Action, t: nat)
    requires !a.Submit?
    ensures t in Act(w, a).threads <==> t in w.threads
    ensures t in w.threads ==> Act(w, a).threads[t].req == w.threads[t].req
    ensures t in w.threads && !w.threads[t].pc.Claim? ==> !Act(w, a).threads[t].pc.Claim?
  {
  }

  lemma {:induction false} WorkKeepsTickets(g: Gate, a: Action, limit: nat, window: nat)
    requires TicketsOk(g, limit, window) && !a.Submit?
    ensures TicketsOk(Worked(g, a), limit, window)
  {
    forall t ensures t in Worked(g, a).world.threads <==> t in g.world.threads {
      ActKeepsThreads(g.world, a, t);
    }
    forall t | t in g.tickets ensures TicketOk(Worked(g, a), t, limit, window) {
      assert TicketOk(g, t, limit, window);
      ActKeepsThreads(g.world, a, t);
    }
  }

  /** A record is made only by a thread at its claim, with that thread's sender. */
  lemma {:induction false} ClaimMakes(w: World, a: Action)
    requires Inv(w, false) && !a.Submit?
    ensures var v := Act(w, a);
            && |w.bank.records| <= |v.bank.records| <= |w.bank.records| + 1
            && (forall i | 0 <= i < |w.bank.records| :: v.bank.records[i].sender == w.bank.records[i].sender)
            && (|v.bank.records| > |w.bank.records| ==>
                  && a.Go? && a.t in w.threads && w.threads[a.t].pc.Claim? && !v.threads[a.t].pc.Claim?
                  && v.bank.records[|w.bank.records|].sender == w.threads[a.t].req.sender)
  {
    if a.Go? && a.t in w.threads {
      assert ThreadOk(w.bank.records, w.threads[a.t], false);
    }
  }

  lemma {:induction false} WorkKeepsMakers(g: Gate, a: Action)
    requires Inv(g.world, false) && MakersOk(g) && !a.Submit?
    ensures MakersOk(Worked(g, a))
  {
    ClaimMakes(g.world, a);
    var v := Worked(g, a);
    forall i | 0 <= i < |g.makers|
      ensures g.makers[i] in v.world.threads && !v.world.threads[g.makers[i]].pc.Claim?
      ensures v.world.threads[g.makers[i]].req == g.world.threads[g.makers[i]].req
    {
      ActKeepsThreads(g.world, a, g.makers[i]);
    }
    if |v.world.bank.records| > |g.world.bank.records| {
      ActKeepsThreads(g.world, a, a.t);
    }
  }

  lemma {:induction false} HappenedKeepsOk(g: Gate, e: Event, limit: nat, window: nat)
    requires GateOk(g, limit, window)
    ensures GateOk(Happened(g, e, limit, window), limit, window)
  {
    match e
    case Arrive(t, _, _, _, _) =>
      if t !in g.world.threads {
        ArrivalKeepsOk(g, e, limit, window);
      }
    case Inner(a) =>
      if !a.Submit? {
        ActKeepsInv(g.world, a, false);
        WorkKeepsTickets(g, a, limit, window);
        WorkKeepsMakers(g, a);
        SameQueues(g, Worked(g, a), limit, window);
      }
    case Restart => RestartKeepsOk(g, limit, window);
  }

  lemma {:induction false} RestartKeepsOk(g: Gate, limit: nat, window: nat)
    requires GateOk(g, limit, window)
    ensures GateOk(Happened(g, Restart, limit, window), limit, window)
  {
    RestartKeepsTickets(g, limit, window);
  }

  lemma {:induction false} RestartKeepsTickets(g: Gate, limit: nat, window: nat)
    requires TicketsOk(g, limit, window) && QueuesOk(g, limit, window)
    ensures var v := Happened(g, Restart, limit, window);
            TicketsOk(v, limit, window) && QueuesOk(v, limit, window)
  {
    var v := Happened(g, Restart, limit, window);
    forall t | t in g.tickets ensures TicketOk(v, t, limit, window) {
      assert TicketOk(g, t, limit, window);
    }
    assert forall u: int :: LaneCalls(v, Lane(v.life, u)) == [] && QueueOf(v, u) == [];
  }

  lemma {:induction false} RunKeepsOk(balances: map<int, int>, events: seq<Event>, limit: nat, window: nat)
    ensures GateOk(Ran(balances, events, limit, window), limit, window)
  {
    if events == [] {
      RunKeepsInv(balances, [], false);
    } else {
      var front := events[..|events| - 1];
      RunKeepsOk(balances, front, limit, window);
      HappenedKeepsOk(Ran(balances, front, limit, window), events[|events| - 1], limit, window);
    }
  }

  // ----- rows in a window -----

  /** The records of a lane whose makers were let in at a reading in (after, upTo]. */
  function RowsIn(g: Gate, lane: Lane, after: int, upTo: int): set<nat> {
    set i: nat | i < |g.world.bank.records| && i < |g.makers| && g.makers[i] in g.tickets
      && g.tickets[g.makers[i]].lane == lane && after < g.tickets[g.makers[i]].reading <= upTo
  }

  function PlacesIn(times: seq<int>, after: int, upTo: int): set<nat> {
    set k: nat | k < |times| && after < times[k] <= upTo
  }

  lemma {:induction false} PlacesCount(times: seq<int>, after: int, upTo: int)
    ensures |PlacesIn(times, after, upTo)| == CountIn(times, after, upTo)
  {
    if times == [] {
      assert PlacesIn(times, after, upTo) == {};
    } else {
      var n := |times| - 1;
      PlacesCount(times[..n], after, upTo);
      assert PlacesIn(times, after, upTo)
          == PlacesIn(times[..n], after, upTo) + if after < times[n] <= upTo then {n} else {};
    }
  }

  lemma {:induction false} InjectionFits(a: set<nat>, b: set<nat>, f: nat -> nat)
    requires forall x | x in a :: f(x) in b
    requires forall x, y | x in a && y in a && f(x) == f(y) :: x == y
    ensures |a| <= |b|
  {
    if a != {} {
      var x :| x in a;
      InjectionFits(a - {x}, b - {f(x)}, f);
    }
  }

  ghost predicate Accounted(g: Gate, limit: nat, window: nat) {
    TicketsOk(g, limit, window) && MakersOk(g)
  }

  lemma {:induction false} RunIsAccounted(balances: map<int, int>, events: seq<Event>, limit: nat, window: nat)
    ensures Accounted(Ran(balances, events, limit, window), limit, window)
  {
    RunKeepsOk(balances, events, limit, window);
  }

  /** The thread behind a record was let in, for the record's own sender. */
  ghost predicate Admitted(g: Gate, i: nat) {
    && i < |g.makers| && i < |g.world.bank.records| && g.makers[i] in g.tickets
    && var k := g.tickets[g.makers[i]];
    && k.lane.sender == g.world.bank.records[i].sender
    && i in RowsIn(g, k.lane, k.reading - 1, k.reading)
  }

  lemma {:induction false} MakerIsAdmitted(g: Gate, i: nat, limit: nat, window: nat)
    requires Accounted(g, limit, window) && i < |g.world.bank.records|
    ensures Admitted(g, i)
  {
    assert g.makers[i] in g.world.threads;
    assert TicketOk(g, g.makers[i], limit, window);
  }

  /** No record escapes the count: each one's maker was let in by the limiter for the record's own sender. */
  lemma {:induction false} EveryRecordWasAdmitted(balances: map<int, int>, events: seq<Event>, limit: nat,
                                                  window: nat, i: nat)
    requires i < |Ran(balances, events, limit, window).world.bank.records|
    ensures Admitted(Ran(balances, events, limit, window), i)
  {
    RunIsAccounted(balances, events, limit, window);
    MakerIsAdmitted(Ran(balances, events, limit, window), i, limit, window);
  }

  function PlaceOf(g: Gate, i: nat): nat {
    if i < |g.makers| && g.makers[i] in g.tickets then g.tickets[g.makers[i]].place else 0
  }

  /** The records of a lane are no more than its granted calls, window by window. */
  lemma {:induction false} RowsFit(g: Gate, limit: nat, window: nat, lane: Lane, after: int, upTo: int)
    requires Accounted(g, limit, window)
    ensures |RowsIn(g, lane, after, upTo)| <= CountIn(Granted(LaneCalls(g, lane), limit, window), after, upTo)
  {
    var granted := Granted(LaneCalls(g, lane), limit, window);
    var rows := RowsIn(g, lane, after, upTo);
    forall i | i in rows ensures PlaceOf(g, i) in PlacesIn(granted, after, upTo) {
      assert TicketOk(g, g.makers[i], limit, window);
    }
    InjectionFits(rows, PlacesIn(granted, after, upTo), i => PlaceOf(g, i));
    PlacesCount(granted, after, upTo);
  }

  lemma {:induction false} RanRowsFit(balances: map<int, int>, events: seq<Event>, limit: nat, window: nat,
                                      lane: Lane, after: int, upTo: int)
    ensures var g := Ran(balances, events, limit, window);
            |RowsIn(g, lane, after, upTo)| <= CountIn(Granted(LaneCalls(g, lane), limit, window), after, upTo)
  {
    RunIsAccounted(balances, events, limit, window);
    RowsFit(Ran(balances, events, limit, window), limit, window, lane, after, upTo);
  }

  lemma {:induction false} GrantsBound(rows: nat, calls: seq<int>, limit: nat, window: nat, end: int)
    requires rows <= CountIn(Granted(calls, limit, window), end - window, end) && Nondecreasing(calls)
    ensures rows <= limit
  {
    WindowHoldsAtMostLimit(calls, limit, window, end);
  }

  /**
   Over every interleaving of requests behind the limiter, with readings in order: in one life of the
   process, the records of one sender whose requests were let in within any window number at most `limit`.
   */
  lemma {:induction false} RowsPerWindow(balances: map<int, int>, events: seq<Event>, limit: nat, window: nat,
                                         lane: Lane, end: int)
    requires Nondecreasing(LaneCalls(Ran(balances, events, limit, window), lane))
    ensures |RowsIn(Ran(balances, events, limit, window), lane, end - window, end)| <= limit
  {
    var g := Ran(balances, events, limit, window);
    RanRowsFit(balances, events, limit, window, lane, end - window, end);
    GrantsBound(|RowsIn(g, lane, end - window, end)|, LaneCalls(g, lane), limit, window, end);
  }
}
