/** One transfer request in place: the service's methods over the table and the host's balances, refining the steps. */
module TransferExecutor {
  import opened Common
  import opened RequestIds
  import opened TransferSaga
  import opened TransferResults
  import RateLimiter

  /** A request thread that nothing interrupts. */
  function Alone(b: Bank, x: Thread): (Bank, Pc)
    requires Placed(b.records, x.pc)
    decreases x.pc.Rank()
  {
    if x.pc.Rank() == 0 then (b, x.pc) else
      StaysPlaced(b, x);
      var (t, pc) := Step(b, x);
      Alone(t, x.(pc := pc))
  }

  lemma {:induction false} StaysPlaced(b: Bank, x: Thread)
    requires Placed(b.records, x.pc)
    ensures var (t, pc) := Step(b, x);
            Placed(t.records, pc) && (x.pc.Rank() > 0 ==> pc.Rank() < x.pc.Rank())
  {
    LookupFinds(b.records, RequestId(x.req.sender, x.req.key));
  }

  lemma {:induction false} AloneStep(b: Bank, x: Thread)
    requires Placed(b.records, x.pc) && x.pc.Rank() > 0
    ensures var (t, pc) := Step(b, x);
            Placed(t.records, pc) && Alone(b, x) == Alone(t, x.(pc := pc))
  {
    StaysPlaced(b, x);
  }

  function Gos(t: nat, k: nat): seq<Action> {
    if k == 0 then [] else Gos(t, k - 1) + [Go(t)]
  }

  lemma {:induction false} GosFirst(w: World, t: nat, k: nat)
    requires k > 0
    ensures Run(w, Gos(t, k)) == Run(Act(w, Go(t)), Gos(t, k - 1))
  {
    assert (Gos(t, k - 1) + [Go(t)])[..|Gos(t, k - 1)|] == Gos(t, k - 1);
    if k > 1 {
      GosFirst(w, t, k - 1);
      assert (Gos(t, k - 2) + [Go(t)])[..|Gos(t, k - 2)|] == Gos(t, k - 2);
    } else {
      assert Gos(t, 0) == [] && Gos(t, 1) == [Go(t)];
      assert [Go(t)][..0] == [];
    }
  }

  lemma {:induction false} GoMoves(b: Bank, threads: map<nat, Thread>, t: nat, x: Thread)
    requires Placed(b.records, x.pc)
    ensures var (b1, pc) := Step(b, x);
            Act(World(b, threads[t := x]), Go(t)) == World(b1, threads[t := x.(pc := pc)])
  {
    var (b1, pc) := Step(b, x);
    assert threads[t := x][t := x.(pc := pc)] == threads[t := x.(pc := pc)];
  }

  /** An uninterrupted request is one of the interleavings, so every result about those holds of it. */
  lemma {:induction false} AloneIsAnInterleaving(b: Bank, threads: map<nat, Thread>, t: nat, x: Thread, k: nat)
    requires Placed(b.records, x.pc) && k >= x.pc.Rank()
    ensures var (b1, pc) := Alone(b, x);
            Run(World(b, threads[t := x]), Gos(t, k)) == World(b1, threads[t := x.(pc := pc)])
    decreases k
  {
    if k > 0 {
      var (b1, pc) := Step(b, x);
      GosFirst(World(b, threads[t := x]), t, k);
      GoMoves(b, threads, t, x);
      RankFalls(b, x);
      AloneIsAnInterleaving(b1, threads, t, x.(pc := pc), k - 1);
    }
  }

  /** Each step comes closer to the end, and a finished request stays where it is. */
  lemma {:induction false} RankFalls(b: Bank, x: Thread)
    requires Placed(b.records, x.pc)
    ensures var (b1, pc) := Step(b, x);
            && Placed(b1.records, pc)
            && (x.pc.Rank() > 0 ==> pc.Rank() < x.pc.Rank())
            && (x.pc.Rank() == 0 ==> (b1, pc) == (b, x.pc))
            && Alone(b1, x.(pc := pc)) == Alone(b, x)
  {
    if x.pc.Rank() > 0 {
      AloneStep(b, x);
    } else {
      assert x.(pc := x.pc) == x;
    }
  }

  // ----- in place -----

  class TransferStore {
    var records: seq<Record>

    constructor ()
      ensures records == []
    {
      records := [];
    }

    /** INSERT under UNIQUE(request_id): the new row, or None when the id is taken. */
    method CreatePending(q: Request) returns (row: Option<nat>)
      modifies this
      ensures row.Some? <==> Lookup(old(records), RequestId(q.sender, q.key)).None?
      ensures row.Some? ==> row.value == |old(records)| && records == old(records) + [NewRecord(q)]
      ensures row.None? ==> records == old(records)
    {
      var id := RequestId(q.sender, q.key);
      if Lookup(records, id).Some? {
        return None;
      }
      row := Some(|records|);
      records := records + [Record(id, q.sender, None, q.amount, Pending, NO_CALLS)];
    }

    method SetReceiver(i: nat, receiver: int)
      requires i < |records|
      modifies this
      ensures records == old(records)[i := old(records)[i].(receiver := Some(receiver))]
    {
      records := records[i := records[i].(receiver := Some(receiver))];
    }

    method Finish(i: nat, status: Status)
      requires i < |records|
      modifies this
      ensures records == old(records)[i := old(records)[i].(status := status)]
    {
      records := records[i := records[i].(status := status)];
    }
  }

  class BalanceHost {
    var balances: map<int, int>
    ghost var base: map<int, int>

    constructor (initial: map<int, int>)
      ensures balances == initial && base == initial
    {
      balances, base := initial, initial;
    }

    /** Adds `delta` to the user's balance; whether the call returned. */
    method AdjustBalance(user: int, delta: int, fate: Fate) returns (returned: bool)
      modifies this
      ensures base == old(base)
      ensures balances == if user in old(balances) && !fate.RaisedUnapplied?
                          then old(balances)[user := old(balances)[user] + delta]
                          else old(balances)
      ensures returned <==> user in old(balances) && fate.Returned?
    {
      if user !in balances || fate.RaisedUnapplied? {
        return false;
      }
      balances := balances[user := balances[user] + delta];
      return fate.Returned?;
    }
  }

  ghost function BankOf(store: TransferStore, host: BalanceHost): Bank
    reads store, host
  {
    Bank(host.balances, host.base, store.records)
  }

  /** One balance call for a record, with the bookkeeping of what it did. */
  method Call(store: TransferStore, host: BalanceHost, kind: Pc, i: nat, user: int, delta: int, fate: Fate)
    returns (returned: bool)
    requires i < |store.records|
    modifies store, host
    ensures BankOf(store, host) == CallStep(old(BankOf(store, host)), kind, i, user, delta, fate)
    ensures returned == CallReturned(old(BankOf(store, host)), user, fate)
  {
    var applied := user in host.balances && !fate.RaisedUnapplied?;
    returned := host.AdjustBalance(user, delta, fate);
    store.records := store.records[i := WithCalls(store.records[i], kind, applied)];
  }

  /** `_execute` from the first balance call on: debit, credit, and the refund when the credit raised. */
  method MoveMoney(store: TransferStore, host: BalanceHost, i: nat, receiver: int, x: Thread) returns (code: nat)
    requires x.pc == Debit(i, receiver) && i < |store.records|
    modifies store, host
    ensures (BankOf(store, host), Responded(code)) == Alone(old(BankOf(store, host)), x)
  {
    ghost var b := BankOf(store, host);
    var q := x.req;
    AloneStep(b, x);
    var debited := Call(store, host, x.pc, i, q.sender, 0 - q.amount, x.fates.debit);
    if !debited {
      AloneStep(BankOf(store, host), x.(pc := Pc.Finish(i, Failed, 502)));
      store.Finish(i, Failed);
      return 502;
    }
    var y := x.(pc := Credit(i, receiver));
    AloneStep(BankOf(store, host), y);
    var credited := Call(store, host, y.pc, i, receiver, q.amount, x.fates.credit);
    if credited {
      AloneStep(BankOf(store, host), x.(pc := Pc.Finish(i, Succeeded, 200)));
      store.Finish(i, Succeeded);
      return 200;
    }
    code := Compensate(store, host, i, receiver, x.(pc := Refund(i, receiver)));
  }

  method Compensate(store: TransferStore, host: BalanceHost, i: nat, receiver: int, x: Thread) returns (code: nat)
    requires x.pc == Refund(i, receiver) && i < |store.records|
    modifies store, host
    ensures (BankOf(store, host), Responded(code)) == Alone(old(BankOf(store, host)), x)
  {
    AloneStep(BankOf(store, host), x);
    var refunded := Call(store, host, x.pc, i, x.req.sender, x.req.amount, x.fates.refund);
    var status := if refunded then Compensated else NeedsAttention;
    AloneStep(BankOf(store, host), x.(pc := Pc.Finish(i, status, 502)));
    store.Finish(i, status);
    return 502;
  }

  /** `_execute`: the checks that end in `failed`, then the money. */
  method Execute(store: TransferStore, host: BalanceHost, i: nat, x: Thread) returns (code: nat)
    requires x.pc == Precheck(i) && i < |store.records|
    modifies store, host
    ensures (BankOf(store, host), Responded(code)) == Alone(old(BankOf(store, host)), x)
  {
    ghost var b := BankOf(store, host);
    var q := x.req;
    AloneStep(b, x);
    if q.knownBalance < q.amount {
      AloneStep(b, x.(pc := Pc.Finish(i, Failed, 400)));
      store.Finish(i, Failed);
      return 400;
    }
    AloneStep(b, x.(pc := Resolve(i)));
    match x.fates.resolution {
      case Raised =>
        return 502;
      case Rejected(why) =>
        code := RejectionCode(why);
      case BadId =>
        code := 502;
      case Found(receiver) =>
        if receiver != q.sender {
          AloneStep(b, x.(pc := Bind(i, receiver)));
          store.SetReceiver(i, receiver);
          code := MoveMoney(store, host, i, receiver, x.(pc := Debit(i, receiver)));
          return;
        }
        code := 400;
    }
    AloneStep(b, x.(pc := Pc.Finish(i, Failed, code)));
    store.Finish(i, Failed);
  }

  /** `transfer` from the idempotent claim on: execution or replay. */
  method ClaimAndServe(store: TransferStore, host: BalanceHost, x: Thread) returns (code: nat)
    requires x.pc == Claim
    modifies store, host
    ensures (BankOf(store, host), Responded(code)) == Alone(old(BankOf(store, host)), x)
  {
    var id := RequestId(x.req.sender, x.req.key);
    ghost var b := BankOf(store, host);
    AloneStep(b, x);
    LookupFinds(b.records, id);
    var row := store.CreatePending(x.req);
    match row {
      case None =>
        var held := Lookup(store.records, id);
        AloneStep(b, x.(pc := Replay(held.value)));
        code := ReplayCode(store.records[held.value].status);
      case Some(i) =>
        code := Execute(store, host, i, x.(pc := Precheck(i)));
    }
  }

  /**
   `transfer` after authentication: the limiter and validation before the claim. A refused or invalid
   request leaves the table and the balances alone.
   */
  method Transfer(limiter: RateLimiter.Limiter, store: TransferStore, host: BalanceHost,
                  now: int, wellFormed: bool, q: Request, fates: Fates)
    returns (code: nat)
    modifies limiter, store, host
    ensures var queue := if q.sender in old(limiter.events) then old(limiter.events)[q.sender] else [];
            var allowed := RateLimiter.Allows(queue, limiter.limit, limiter.window, now);
            && limiter.events
                 == old(limiter.events)[q.sender := RateLimiter.Next(queue, limiter.limit, limiter.window, now)]
            && if allowed && wellFormed && q.amount > 0 then
                 (BankOf(store, host), Responded(code)) == Alone(old(BankOf(store, host)), Thread(q, fates, Claim))
               else
                 BankOf(store, host) == old(BankOf(store, host)) && code == if allowed then 400 else 429
  {
    var allowed := limiter.Allow(q.sender, now);
    if !allowed {
      return 429;
    }
    if !wellFormed || q.amount <= 0 {
      return 400;
    }
    code := ClaimAndServe(store, host, Thread(q, fates, Claim));
  }

  // ----- when an uninterrupted request strands its record -----

  /** What is still ahead of a thread that executes a record makes it end pending. */
  predicate WillStrand(x: Thread) {
    match x.pc
    case Precheck(_) => x.req.knownBalance >= x.req.amount && x.fates.resolution.Raised?
    case Resolve(_) => x.fates.resolution.Raised?
    case _ => false
  }

  lemma {:induction false} EndsPendingIff(b: Bank, x: Thread)
    requires x.pc.Executes() && Placed(b.records, x.pc) && b.records[x.pc.i].status == Pending
    requires x.pc.Finish? ==> x.pc.status != Pending
    ensures var (t, pc) := Alone(b, x);
            && !pc.Executes() && |t.records| == |b.records|
            && (t.records[x.pc.i].status == Pending <==> WillStrand(x))
    decreases x.pc.Rank()
  {
    var (t, pc) := Step(b, x);
    AloneStep(b, x);
    if pc.Executes() {
      EndsPendingIff(t, x.(pc := pc));
    }
  }

  lemma {:induction false} RunConcat(w: World, a: seq<Action>, b: seq<Action>)
    ensures Run(w, a + b) == Run(Run(w, a), b)
  {
    if b == [] {
      assert a + b == a;
    } else {
      assert (a + b)[..|a + b| - 1] == a + b[..|b| - 1];
      RunConcat(w, a, b[..|b| - 1]);
    }
  }

  /** A request served without interruption in any reachable world. */
  function Served(t: nat, q: Request, fates: Fates): seq<Action> {
    [Submit(t, q, fates)] + Gos(t, 9)
  }

  lemma {:induction false} ServedAlone(w: World, t: nat, q: Request, fates: Fates)
    requires t !in w.threads && q.amount > 0
    ensures var (b, pc) := Alone(w.bank, Thread(q, fates, Claim));
            Run(w, Served(t, q, fates)) == World(b, w.threads[t := Thread(q, fates, pc)])
  {
    var x := Thread(q, fates, Claim);
    RunConcat(w, [Submit(t, q, fates)], Gos(t, 9));
    assert [Submit(t, q, fates)][..0] == [];
    AloneIsAnInterleaving(w.bank, w.threads, t, x, 9);
  }

  /**
   A request with a new id, served without interruption in any reachable world, leaves its record
   stranded if and only if its known balance covered the amount and resolving the recipient raised
   something that is no business error.
   */
  lemma {:induction false} ServedStrandsIff(balances: map<int, int>, trace: seq<Action>, t: nat, q: Request,
                                            fates: Fates)
    requires t !in Run(Opening(balances), trace).threads && q.amount > 0
    requires Lookup(Run(Opening(balances), trace).bank.records, RequestId(q.sender, q.key)).None?
    ensures var i := |Run(Opening(balances), trace).bank.records|;
            var w := Run(Opening(balances), trace + Served(t, q, fates));
            && |w.bank.records| == i + 1 && w.bank.records[i].requestId == RequestId(q.sender, q.key)
            && (Stranded(w, i) <==> q.knownBalance >= q.amount && fates.resolution.Raised?)
  {
    var w0 := Run(Opening(balances), trace);
    var i := |w0.bank.records|;
    var x := Thread(q, fates, Claim);
    RunConcat(Opening(balances), trace, Served(t, q, fates));
    ServedAlone(w0, t, q, fates);
    RunKeepsInv(balances, trace, false);
    AloneStep(w0.bank, x);
    var b1 := Step(w0.bank, x).0;
    EndsPendingIff(b1, x.(pc := Precheck(i)));
    KeepsItsRow(b1, x.(pc := Precheck(i)));
    forall s | s in w0.threads ensures !w0.threads[s].pc.Holds(i) {
      assert ThreadOk(w0.bank.records, w0.threads[s], false);
    }
  }

  /** Executing a record never changes its id. */
  lemma {:induction false} KeepsItsRow(b: Bank, x: Thread)
    requires x.pc.Executes() && Placed(b.records, x.pc)
    ensures |Alone(b, x).0.records| == |b.records|
    ensures Alone(b, x).0.records[x.pc.i].requestId == b.records[x.pc.i].requestId
    decreases x.pc.Rank()
  {
    AloneStep(b, x);
    var (t, pc) := Step(b, x);
    if pc.Executes() {
      KeepsItsRow(t, x.(pc := pc));
    }
  }

  // ----- when the refund makes money -----

  /** The credit was applied although its call raised, and the refund was applied after it. */
  predicate MakesMoney(b: Bank, q: Request, r: int, f: Fates) {
    && CallReturned(b, q.sender, f.debit) && Applied(b, r, f.credit) && !CallReturned(b, r, f.credit)
    && Applied(b, q.sender, f.refund)
  }

  /** The debit was applied although its call raised, or neither credit nor refund was applied after it. */
  predicate LosesMoney(b: Bank, q: Request, r: int, f: Fates) {
    || (Applied(b, q.sender, f.debit) && !CallReturned(b, q.sender, f.debit))
    || (CallReturned(b, q.sender, f.debit) && !Applied(b, r, f.credit) && !Applied(b, q.sender, f.refund))
  }

  /**
   A request that reaches its balance calls, served without interruption: exactly when its record makes
   money, when it loses money, and when it ends compensated or succeeded.
   */
  lemma {:induction false} RefundMakesMoneyIff(b: Bank, x: Thread, r: int)
    requires x.pc.Debit? && x.pc.r == r && Placed(b.records, x.pc) && x.req.sender != r
    requires var rec := b.records[x.pc.i];
             rec.amount == x.req.amount > 0 && rec.calls == NO_CALLS && rec.status == Pending
    ensures var (t, pc) := Alone(b, x);
            && |t.records| == |b.records|
            && var rec := t.records[x.pc.i];
            var debited, credited := CallReturned(b, x.req.sender, x.fates.debit), CallReturned(b, r, x.fates.credit);
            && (Value(OnAll, rec) > 0 <==> MakesMoney(b, x.req, r, x.fates))
            && (Value(OnAll, rec) < 0 <==> LosesMoney(b, x.req, r, x.fates))
            && (rec.status == Compensated <==> debited && !credited && CallReturned(b, x.req.sender, x.fates.refund))
            && (rec.status == Succeeded <==> debited && credited)
            && (pc == Responded(200) <==> rec.status == Succeeded)
  {
    AloneStep(b, x);
    var (b1, pc1) := Step(b, x);
    if pc1.Credit? {
      CreditOutcome(b1, x.(pc := pc1), r);
    } else {
      AloneStep(b1, x.(pc := pc1));
    }
  }

  lemma {:induction false} CreditOutcome(b: Bank, x: Thread, r: int)
    requires x.pc.Credit? && x.pc.r == r && Placed(b.records, x.pc)
    requires b.records[x.pc.i].calls == Calls(1, 0, 0, true, false, false)
    ensures var (t, pc) := Alone(b, x);
            var credited, refunded := CallReturned(b, r, x.fates.credit), CallReturned(b, x.req.sender, x.fates.refund);
            && |t.records| == |b.records|
            && var rec := t.records[x.pc.i];
            && rec.amount == b.records[x.pc.i].amount
            && rec.calls.debited && (rec.calls.credited <==> Applied(b, r, x.fates.credit))
            && (rec.calls.refunded <==> !credited && Applied(b, x.req.sender, x.fates.refund))
            && rec.status == (if credited then Succeeded else if refunded then Compensated else NeedsAttention)
            && (pc == Responded(200) <==> credited)
  {
    AloneStep(b, x);
    var (b1, pc1) := Step(b, x);
    if pc1.Refund? {
      AloneStep(b1, x.(pc := pc1));
      var (b2, pc2) := Step(b1, x.(pc := pc1));
      AloneStep(b2, x.(pc := pc2));
    } else {
      AloneStep(b1, x.(pc := pc1));
    }
  }

  /**
   A credit that was applied although its call raised is compensated all the same: the sender is whole,
   the receiver richer, and the log says the money was returned.
   */
  lemma {:induction false} CompensationCanCreateMoney(q: Request, r: int, balances: map<int, int>)
    requires 0 < q.amount <= q.knownBalance && q.sender != r && q.sender in balances && r in balances
    ensures var b := Bank(balances, balances, []);
            var (b1, pc) := Alone(b, Thread(q, Fates(Found(r), Returned, RaisedApplied, Returned), Claim));
            && pc == Responded(502)
            && |b1.records| == 1 && b1.records[0].status == Compensated
            && b1.balances == balances[r := balances[r] + q.amount]
  {
    var b := Bank(balances, balances, []);
    var x := Thread(q, Fates(Found(r), Returned, RaisedApplied, Returned), Claim);
    AloneStep(b, x);
    assert Lookup(b.records, RequestId(q.sender, q.key)).None?;
    var b1 := b.(records := [NewRecord(q)]);
    assert [] + [NewRecord(q)] == [NewRecord(q)];
    AloneStep(b1, x.(pc := Precheck(0)));
    AloneStep(b1, x.(pc := Resolve(0)));
    AloneStep(b1, x.(pc := Bind(0, r)));
    SpendAndRefund(Step(b1, x.(pc := Bind(0, r))).0, x, r);
  }

  lemma {:induction false} SpendAndRefund(b: Bank, x: Thread, r: int)
    requires |b.records| == 1 && x.req.sender in b.balances && r in b.balances && r != x.req.sender
    requires x.fates == Fates(Found(r), Returned, RaisedApplied, Returned)
    ensures var (b1, pc) := Alone(b, x.(pc := Debit(0, r)));
            && pc == Responded(502)
            && |b1.records| == 1 && b1.records[0].status == Compensated
            && b1.balances == b.balances[r := b.balances[r] + x.req.amount]
  {
    AloneStep(b, x.(pc := Debit(0, r)));
    var b1 := Step(b, x.(pc := Debit(0, r))).0;
    AloneStep(b1, x.(pc := Credit(0, r)));
    var b2 := Step(b1, x.(pc := Credit(0, r))).0;
    AloneStep(b2, x.(pc := Refund(0, r)));
    var b3 := Step(b2, x.(pc := Refund(0, r))).0;
    AloneStep(b3, x.(pc := Finish(0, Compensated, 502)));
    assert b3.balances == b.balances[r := b.balances[r] + x.req.amount];
  }
}
