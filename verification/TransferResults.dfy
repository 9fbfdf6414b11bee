/** What every run of the transfer saga guarantees, under both failure models. */
module TransferResults {
  import opened Common
  import opened RequestIds
  import opened TransferSaga

  // ----- conservation -----

  lemma {:induction false} SumSame(m: Measure, n: Measure, records: seq<Record>)
    requires forall i | 0 <= i < |records| :: Value(m, records[i]) == Value(n, records[i])
    ensures Sum(m, records) == Sum(n, records)
  {
    if records != [] {
      SumSame(m, n, records[..|records| - 1]);
    }
  }

  lemma {:induction false} SumOpposite(m: Measure, n: Measure, records: seq<Record>)
    requires forall i | 0 <= i < |records| :: Value(m, records[i]) == 0 - Value(n, records[i])
    ensures Sum(m, records) == 0 - Sum(n, records)
  {
    if records != [] {
      SumOpposite(m, n, records[..|records| - 1]);
    }
  }

  lemma {:induction false} SumWithin(m: Measure, bound: Measure, records: seq<Record>)
    requires forall i | 0 <= i < |records| ::
      0 - Value(bound, records[i]) <= Value(m, records[i]) <= Value(bound, records[i])
    ensures 0 - Sum(bound, records) <= Sum(m, records) <= Sum(bound, records)
  {
    if records != [] {
      SumWithin(m, bound, records[..|records| - 1]);
    }
  }

  /**
   Definite model, at every step of every interleaving, crashes included: the balances sum to what they
   would be without transfers, minus the amounts debited and so far neither credited nor refunded.
   */
  lemma {:induction false} MoneyIsMissingNotMade(balances: map<int, int>, trace: seq<Action>)
    requires Definite(trace)
    ensures var b := Run(Opening(balances), trace).bank;
            && b.balances.Keys == b.base.Keys
            && Total(b.balances, b.base.Keys) == Total(b.base, b.base.Keys) - Sum(MissingAmount, b.records)
  {
    RunKeepsInv(balances, trace, true);
    var b := Run(Opening(balances), trace).bank;
    forall i | 0 <= i < |b.records| ensures Value(OnAll, b.records[i]) == 0 - Value(MissingAmount, b.records[i]) {
      assert RecordOk(b.records[i], true);
    }
    SumOpposite(OnAll, MissingAmount, b.records);
  }

  /** Nobody is between claiming a record and finishing it. */
  ghost predicate Idle(w: World) {
    forall t | t in w.threads :: !w.threads[t].pc.Executes()
  }

  /** Without crashes, a pending row is being executed or has seen no balance call. */
  ghost predicate Tended(w: World) {
    forall i | 0 <= i < |w.bank.records|
      && w.bank.records[i].status == Pending && w.bank.records[i].calls != NO_CALLS :: Held(w, i)
  }

  ghost predicate Held(w: World, i: nat) {
    exists t :: t in w.threads && w.threads[t].pc.Holds(i)
  }

  /** A step leaves its row executed by the same thread, or finished, or untouched. */
  lemma {:induction false} StepTends(w: World, t: nat, i: nat)
    requires Inv(w, false) && t in w.threads && w.threads[t].pc.Holds(i)
    ensures var w1 := Act(w, Go(t));
            && i < |w1.bank.records|
            && (|| w1.threads[t].pc.Holds(i)
                || w1.bank.records[i].status != Pending || w1.bank.records[i].calls == NO_CALLS)
  {
    assert ThreadOk(w.bank.records, w.threads[t], false);
  }

  lemma {:induction false} ActTends(w: World, a: Action)
    requires Inv(w, false) && Tended(w) && !a.Die?
    ensures Tended(Act(w, a))
  {
    var w1 := Act(w, a);
    forall i | 0 <= i < |w1.bank.records|
      && w1.bank.records[i].status == Pending && w1.bank.records[i].calls != NO_CALLS
      ensures Held(w1, i)
    {
      if a.Go? && a.t in w.threads {
        assert ThreadOk(w.bank.records, w.threads[a.t], false);
        StepTouches(w.bank, w.threads[a.t], false);
        if w.threads[a.t].pc.Holds(i) {
          StepTends(w, a.t, i);
          assert w1.threads[a.t].pc.Holds(i);
        } else {
          NotHeldByStepper(w, a.t, i);
        }
      } else {
        assert i < |w.bank.records| && w.bank.records[i].status == Pending && w.bank.records[i].calls != NO_CALLS;
        assert Held(w, i);
        var s :| s in w.threads && w.threads[s].pc.Holds(i);
        assert w1.threads[s] == w.threads[s];
      }
    }
  }

  lemma {:induction false} NotHeldByStepper(w: World, t: nat, i: nat)
    requires Inv(w, false) && Tended(w) && t in w.threads && !w.threads[t].pc.Holds(i)
    requires var r := Act(w, Go(t)).bank.records; i < |r| && r[i].status == Pending && r[i].calls != NO_CALLS
    ensures Held(Act(w, Go(t)), i)
  {
    var w1 := Act(w, Go(t));
    assert ThreadOk(w.bank.records, w.threads[t], false);
    StepTouches(w.bank, w.threads[t], false);
    assert i < |w.bank.records|;
    assert Held(w, i);
    var s :| s in w.threads && w.threads[s].pc.Holds(i);
    assert w1.threads[s].pc.Holds(i);
  }

  lemma {:induction false} CrashFreeRunTends(balances: map<int, int>, trace: seq<Action>)
    requires CrashFree(trace)
    ensures Tended(Run(Opening(balances), trace))
  {
    if trace != [] {
      var n := |trace| - 1;
      CrashFreeRunTends(balances, trace[..n]);
      RunKeepsInv(balances, trace[..n], false);
      ActTends(Run(Opening(balances), trace[..n]), trace[n]);
    }
  }

  /**
   Definite model, no crash, nothing in flight: the deficit is exactly the needs_attention amounts, and
   every balance is its transfer-free value plus the fold of the log by status.
   */
  lemma {:induction false} LogTellsTheBalances(balances: map<int, int>, trace: seq<Action>)
    requires Definite(trace) && CrashFree(trace) && Idle(Run(Opening(balances), trace))
    ensures var b := Run(Opening(balances), trace).bank;
            && b.balances.Keys == b.base.Keys
            && Total(b.balances, b.base.Keys) == Total(b.base, b.base.Keys) - Sum(AttentionAmount, b.records)
            && forall u | u in b.base :: b.balances[u] == b.base[u] + Sum(LogEffect(u), b.records)
  {
    var w := Run(Opening(balances), trace);
    var b := w.bank;
    RunKeepsInv(balances, trace, true);
    CrashFreeRunTends(balances, trace);
    forall i | 0 <= i < |b.records|
      ensures Value(OnAll, b.records[i]) == 0 - Value(AttentionAmount, b.records[i])
      ensures forall u :: Value(OnUser(u), b.records[i]) == Value(LogEffect(u), b.records[i])
    {
      IdleRowTellsItsEffect(w, i);
    }
    SumOpposite(OnAll, AttentionAmount, b.records);
    forall u | u in b.base ensures b.balances[u] == b.base[u] + Sum(LogEffect(u), b.records) {
      SumSame(OnUser(u), LogEffect(u), b.records);
    }
  }

  lemma {:induction false} IdleRowTellsItsEffect(w: World, i: nat)
    requires Inv(w, true) && Idle(w) && Tended(w) && i < |w.bank.records|
    ensures Value(OnAll, w.bank.records[i]) == 0 - Value(AttentionAmount, w.bank.records[i])
    ensures forall u :: Value(OnUser(u), w.bank.records[i]) == Value(LogEffect(u), w.bank.records[i])
  {
    var r := w.bank.records[i];
    assert RecordOk(r, true);
    if r.status == Pending {
      assert !Held(w, i);
      assert r.calls == NO_CALLS;
    }
  }

  /**
   Ambiguous model: a record changes its sender by -a or 0 and its receiver by 0 or +a, a succeeded one by
   exactly -a and +a; so each balance is off by the sum of those changes, and all of them together by at
   most the amounts of the records that did not succeed.
   */
  lemma {:induction false} DriftIsBounded(balances: map<int, int>, trace: seq<Action>)
    ensures var b := Run(Opening(balances), trace).bank;
            && (forall i | 0 <= i < |b.records| ::
                  var r := b.records[i];
                  && (SenderChange(r) == 0 - r.amount || SenderChange(r) == 0)
                  && (ReceiverChange(r) == 0 || ReceiverChange(r) == r.amount)
                  && (r.status == Succeeded ==> SenderChange(r) == 0 - r.amount && ReceiverChange(r) == r.amount))
            && b.balances.Keys == b.base.Keys
            && (forall u | u in b.base :: b.balances[u] == b.base[u] + Sum(OnUser(u), b.records))
            && 0 - Sum(UnsettledAmount, b.records)
               <= Total(b.balances, b.base.Keys) - Total(b.base, b.base.Keys)
               <= Sum(UnsettledAmount, b.records)
  {
    RunKeepsInv(balances, trace, false);
    var b := Run(Opening(balances), trace).bank;
    forall i | 0 <= i < |b.records| ensures RecordOk(b.records[i], false) {
    }
    SumWithin(OnAll, UnsettledAmount, b.records);
  }

  // ----- once per request, and never again once finished -----

  /** One record per sender and key; on it at most one debit, then at most one credit, then at most one refund. */
  lemma {:induction false} EachRequestExecutesOnce(balances: map<int, int>, trace: seq<Action>, i: nat, j: nat)
    requires var n := |Run(Opening(balances), trace).bank.records|; i < n && j < n
    ensures var records := Run(Opening(balances), trace).bank.records;
            && (records[i].requestId == records[j].requestId ==> i == j)
            && Ordered(records[i].calls, false)
  {
    RunKeepsInv(balances, trace, false);
    assert RecordOk(Run(Opening(balances), trace).bank.records[i], false);
  }

  /** Nothing but the fate of calls already made: no field changes, no call is added, and none is taken back. */
  predicate SameButLate(a: Record, b: Record) {
    && b == a.(calls := b.calls)
    && b.calls.debits == a.calls.debits && b.calls.credits == a.calls.credits && b.calls.refunds == a.calls.refunds
    && AppliedStays(a.calls, b.calls)
  }

  predicate AppliedStays(a: Calls, b: Calls) {
    (a.debited ==> b.debited) && (a.credited ==> b.credited) && (a.refunded ==> b.refunded)
  }

  /**
   A finished row is never written and gets no further call; only a call that raised may still arrive, and
   not at all for a succeeded row or in the definite model. Every row keeps its identity and its calls.
   */
  predicate RowForward(a: Record, b: Record, definite: bool) {
    && (a.status != Pending ==> SameButLate(a, b))
    && (a.status == Succeeded || (definite && a.status != Pending) ==> b == a)
    && b.requestId == a.requestId && b.sender == a.sender && b.amount == a.amount
    && a.calls.debits <= b.calls.debits && a.calls.credits <= b.calls.credits && a.calls.refunds <= b.calls.refunds
    && AppliedStays(a.calls, b.calls)
  }

  ghost predicate TableForward(a: seq<Record>, b: seq<Record>, definite: bool) {
    |a| <= |b| && forall i | 0 <= i < |a| :: RowForward(a[i], b[i], definite)
  }

  lemma {:induction false} StepMovesForward(b: Bank, x: Thread, definite: bool)
    requires ThreadOk(b.records, x, false)
    ensures TableForward(b.records, Step(b, x).0.records, definite)
  {
  }

  lemma {:induction false} LateMovesForward(b: Bank, i: nat, call: CallKind)
    requires InFlight(b, i, call) && RecordOk(b.records[i], false)
    ensures TableForward(b.records, Arrived(b, i, call).records, false)
  {
  }

  lemma {:induction false} ActMovesForward(w: World, a: Action, definite: bool)
    requires Inv(w, false) && (definite ==> DefiniteAction(a))
    ensures TableForward(w.bank.records, Act(w, a).bank.records, definite)
  {
    if a.Go? && a.t in w.threads {
      StepMovesForward(w.bank, w.threads[a.t], definite);
    } else if a.Late? && InFlight(w.bank, a.i, a.call) {
      LateMovesForward(w.bank, a.i, a.call);
    }
  }

  /** From any moment of any run on. */
  lemma {:induction false} FinishedRowsAreFinal(balances: map<int, int>, a: seq<Action>, b: seq<Action>, definite: bool)
    requires definite ==> Definite(b)
    ensures TableForward(Run(Opening(balances), a).bank.records, Run(Opening(balances), a + b).bank.records, definite)
  {
    if b == [] {
      assert a + b == a;
    } else {
      var n := |b| - 1;
      var ab := a + b[..n];
      assert a + b == ab + [b[n]] && (a + b)[..|a + b| - 1] == ab;
      FinishedRowsAreFinal(balances, a, b[..n], definite);
      RunKeepsInv(balances, ab, false);
      ActMovesForward(Run(Opening(balances), ab), b[n], definite);
    }
  }

  /**
   A request answered 200, first time or replay, has a record of its own sender that succeeded: debited
   once, credited once, never refunded.
   */
  lemma {:induction false} OkMeansMovedOnce(balances: map<int, int>, trace: seq<Action>, t: nat) returns (i: nat)
    requires var w := Run(Opening(balances), trace); t in w.threads && w.threads[t].pc == Responded(200)
    ensures var w := Run(Opening(balances), trace);
            var req := w.threads[t].req;
            && i < |w.bank.records|
            && w.bank.records[i].requestId == RequestId(req.sender, req.key)
            && w.bank.records[i].sender == req.sender
            && w.bank.records[i].status == Succeeded
            && w.bank.records[i].calls == Calls(1, 1, 0, true, true, false)
  {
    RunKeepsInv(balances, trace, false);
    var w := Run(Opening(balances), trace);
    var req := w.threads[t].req;
    assert ThreadOk(w.bank.records, w.threads[t], false);
    i :| 0 <= i < |w.bank.records| && w.bank.records[i].requestId == RequestId(req.sender, req.key)
         && w.bank.records[i].status == Succeeded;
    OwnerOfId(w.bank.records[i], req);
  }

  lemma {:induction false} OwnerOfId(r: Record, req: Request)
    requires RecordOk(r, false) && r.requestId == RequestId(req.sender, req.key)
    ensures r.sender == req.sender
  {
    var key :| r.requestId == RequestId(r.sender, key);
    RequestIdInjective(r.sender, key, req.sender, req.key);
  }

  /** Two requests meet in one record, as executor or as replay, only if they have the same sender and key. */
  lemma {:induction false} OnlyOwnRecords(balances: map<int, int>, trace: seq<Action>, s: nat, t: nat)
    requires var th := Run(Opening(balances), trace).threads;
             && s in th && t in th
             && (th[s].pc.Executes() || th[s].pc.Replay?) && (th[t].pc.Executes() || th[t].pc.Replay?)
             && th[s].pc.i == th[t].pc.i
    ensures var w := Run(Opening(balances), trace);
            && w.threads[s].req.sender == w.threads[t].req.sender && w.threads[s].req.key == w.threads[t].req.key
            && w.threads[s].pc.i < |w.bank.records|
            && w.bank.records[w.threads[s].pc.i].sender == w.threads[s].req.sender
            && (w.threads[s].pc.Executes() && w.threads[t].pc.Executes() ==> s == t)
  {
    RunKeepsInv(balances, trace, false);
    var w := Run(Opening(balances), trace);
    var x, y := w.threads[s], w.threads[t];
    assert ThreadOk(w.bank.records, x, false) && ThreadOk(w.bank.records, y, false);
    RequestIdInjective(x.req.sender, x.req.key, y.req.sender, y.req.key);
    OwnerOfId(w.bank.records[x.pc.i], x.req);
  }

  // ----- what a lost thread leaves behind -----

  /** A pending row that nobody executes. */
  ghost predicate Stranded(w: World, i: nat) {
    i < |w.bank.records| && w.bank.records[i].status == Pending && !Held(w, i)
  }

  /** A step for a record leaves alone the rows of others, and holds none that was free. */
  lemma {:induction false} GoKeepsStranded(w: World, t: nat, i: nat)
    requires Inv(w, false) && Stranded(w, i) && t in w.threads && Placed(w.bank.records, w.threads[t].pc)
    ensures Stranded(Moved(w, t), i) && Moved(w, t).bank.records[i] == w.bank.records[i]
  {
    var v := Moved(w, t);
    assert ThreadOk(w.bank.records, w.threads[t], false);
    StepTouches(w.bank, w.threads[t], false);
    forall s | s in v.threads ensures !v.threads[s].pc.Holds(i) {
      assert !w.threads[s].pc.Holds(i);
    }
  }

  lemma {:induction false} ActKeepsStranded(w: World, a: Action, i: nat)
    requires Inv(w, false) && Stranded(w, i)
    ensures Stranded(Act(w, a), i) && SameButLate(w.bank.records[i], Act(w, a).bank.records[i])
  {
    if a.Go? {
      if a.t in w.threads && Placed(w.bank.records, w.threads[a.t].pc) {
        GoKeepsStranded(w, a.t, i);
      }
    } else {
      var v := Act(w, a);
      forall s | s in v.threads ensures !v.threads[s].pc.Holds(i) {
        assert s in w.threads ==> !w.threads[s].pc.Holds(i);
      }
    }
  }

  /**
   A row stranded by a crash, or by an exception while resolving the recipient that is no business error,
   stays so for ever: nobody writes it or makes another call for it, and every later request with its key
   is told to wait.
   */
  lemma {:induction false} StrandedForever(balances: map<int, int>, a: seq<Action>, b: seq<Action>, i: nat)
    requires Stranded(Run(Opening(balances), a), i)
    ensures var w := Run(Opening(balances), a + b);
            && Stranded(w, i) && SameButLate(Run(Opening(balances), a).bank.records[i], w.bank.records[i])
            && forall t | t in w.threads && w.threads[t].pc == Replay(i) ::
                 Act(w, Go(t)).threads[t].pc == Responded(409) && Act(w, Go(t)).bank == w.bank
  {
    if b == [] {
      assert a + b == a;
    } else {
      var n := |b| - 1;
      var ab := a + b[..n];
      assert a + b == ab + [b[n]] && (a + b)[..|a + b| - 1] == ab;
      StrandedForever(balances, a, b[..n], i);
      RunKeepsInv(balances, ab, false);
      ActKeepsStranded(Run(Opening(balances), ab), b[n], i);
    }
  }

  /** The one way besides dying in which a thread lets go of a pending row. */
  predicate Abandons(x: Thread, i: nat) {
    x.pc == Resolve(i) && x.fates.resolution.Raised?
  }

  lemma {:induction false} GoStrandsIff(w: World, t: nat, i: nat)
    requires Inv(w, false) && t in w.threads && Placed(w.bank.records, w.threads[t].pc)
    ensures Stranded(Moved(w, t), i) <==> Stranded(w, i) || Abandons(w.threads[t], i)
  {
    var x := w.threads[t];
    var v := Moved(w, t);
    assert ThreadOk(w.bank.records, x, false);
    StepTouches(w.bank, x, false);
    if x.pc.Holds(i) {
      HolderStrandsIff(w, t, i);
    } else if i < |w.bank.records| {
      SameHolders(w, t, i);
    } else if i < |v.bank.records| {
      assert v.threads[t].pc.Holds(i);
      assert Held(v, i);
    }
  }

  lemma {:induction false} HolderStrandsIff(w: World, t: nat, i: nat)
    requires Inv(w, false) && t in w.threads && w.threads[t].pc.Holds(i)
    ensures !Stranded(w, i) && (Stranded(Moved(w, t), i) <==> Abandons(w.threads[t], i))
  {
    var v := Moved(w, t);
    assert ThreadOk(w.bank.records, w.threads[t], false);
    assert Held(w, i);
    OnlyHolder(w, t, i);
    assert forall s | s in v.threads && s != t :: v.threads[s] == w.threads[s];
    if v.threads[t].pc.Holds(i) {
      assert Held(v, i);
    }
  }

  lemma {:induction false} OnlyHolder(w: World, t: nat, i: nat)
    requires Inv(w, false) && t in w.threads && w.threads[t].pc.Holds(i)
    ensures forall s | s in w.threads && w.threads[s].pc.Holds(i) :: s == t
  {
  }

  lemma {:induction false} SameHolders(w: World, t: nat, i: nat)
    requires Inv(w, false) && t in w.threads && Placed(w.bank.records, w.threads[t].pc)
    requires i < |w.bank.records| && !w.threads[t].pc.Holds(i)
    ensures Held(Moved(w, t), i) <==> Held(w, i)
  {
    var v := Moved(w, t);
    assert ThreadOk(w.bank.records, w.threads[t], false);
    StepTouches(w.bank, w.threads[t], false);
    if Held(w, i) {
      var s :| s in w.threads && w.threads[s].pc.Holds(i);
      assert v.threads[s].pc.Holds(i);
    }
    if Held(v, i) {
      var s :| s in v.threads && v.threads[s].pc.Holds(i);
      assert s != t && w.threads[s].pc.Holds(i);
    }
  }

  lemma {:induction false} DieStrandsIff(w: World, t: nat, i: nat)
    requires Inv(w, false) && t in w.threads
    ensures Stranded(Act(w, Die(t)), i) <==> Stranded(w, i) || w.threads[t].pc.Holds(i)
  {
    var v := Act(w, Die(t));
    assert ThreadOk(w.bank.records, w.threads[t], false);
    if w.threads[t].pc.Holds(i) {
      OnlyHolder(w, t, i);
      assert Held(w, i);
    } else if Held(w, i) {
      var s :| s in w.threads && w.threads[s].pc.Holds(i);
      assert v.threads[s].pc.Holds(i);
    }
  }

  /**
   What strands a record: in every reachable world, after any action, a record is stranded if and only if
   it was, or its thread died on it, or the resolution of its recipient raised something that is no
   business error.
   */
  lemma {:induction false} StrandsIff(balances: map<int, int>, trace: seq<Action>, a: Action, i: nat)
    ensures var w := Run(Opening(balances), trace);
            Stranded(Act(w, a), i) <==>
              || Stranded(w, i)
              || (a.Die? && a.t in w.threads && w.threads[a.t].pc.Holds(i))
              || (a.Go? && a.t in w.threads && Abandons(w.threads[a.t], i))
  {
    RunKeepsInv(balances, trace, false);
    var w := Run(Opening(balances), trace);
    if a.Go? && a.t in w.threads {
      assert ThreadOk(w.bank.records, w.threads[a.t], false);
      GoStrandsIff(w, a.t, i);
    } else if a.Die? && a.t in w.threads {
      DieStrandsIff(w, a.t, i);
    } else {
      OtherActsStrandNothing(w, a, i);
    }
  }

  lemma {:induction false} OtherActsStrandNothing(w: World, a: Action, i: nat)
    requires a.Submit? || a.Outside? || a.Late? || a.t !in w.threads
    ensures Stranded(Act(w, a), i) <==> Stranded(w, i)
  {
    var v := Act(w, a);
    if Held(w, i) {
      var s :| s in w.threads && w.threads[s].pc.Holds(i);
      assert v.threads[s].pc.Holds(i);
    }
    if Held(v, i) {
      var s :| s in v.threads && v.threads[s].pc.Holds(i);
      assert s in w.threads && w.threads[s].pc.Holds(i);
    }
  }

  /**
   Once its thread has died on it, or let go of it so, a record stays pending, and its key waits, through
   every continuation.
   */
  lemma {:induction false} LostRecordsWaitForever(balances: map<int, int>, a: seq<Action>, act: Action,
                                                  b: seq<Action>, i: nat)
    requires var th := Run(Opening(balances), a).threads;
             || (act.Die? && act.t in th && th[act.t].pc.Holds(i))
             || (act.Go? && act.t in th && Abandons(th[act.t], i))
    ensures var w := Run(Opening(balances), a + [act] + b);
            && Stranded(w, i)
            && forall t | t in w.threads && w.threads[t].pc == Replay(i) ::
                 Act(w, Go(t)).threads[t].pc == Responded(409) && Act(w, Go(t)).bank == w.bank
  {
    StrandsIff(balances, a, act, i);
    assert (a + [act])[..|a|] == a;
    StrandedForever(balances, a + [act], b, i);
  }

  // ----- when a record makes or loses money -----

  /**
   In every reachable world a record has made money exactly if both credited and refunded, and is short
   exactly if neither.
   */
  lemma {:induction false} RecordMakesMoneyIff(balances: map<int, int>, trace: seq<Action>, i: nat)
    requires i < |Run(Opening(balances), trace).bank.records|
    ensures var r := Run(Opening(balances), trace).bank.records[i];
            && r.amount > 0
            && (Value(OnAll, r) > 0 <==> r.calls.credited && r.calls.refunded)
            && (Value(OnAll, r) < 0 <==> Missing(r))
            && Value(OnAll, r) == Value(TwiceAmount, r) - Value(MissingAmount, r)
            && (r.status == Succeeded || r.status == Failed ==> Value(OnAll, r) <= 0)
            && (r.status == Succeeded ==> Value(OnAll, r) == 0)
  {
    RunKeepsInv(balances, trace, false);
    assert RecordOk(Run(Opening(balances), trace).bank.records[i], false);
  }

  lemma {:induction false} SumDifference(m: Measure, plus: Measure, minus: Measure, records: seq<Record>)
    requires forall i | 0 <= i < |records| :: Value(m, records[i]) == Value(plus, records[i]) - Value(minus, records[i])
    ensures Sum(m, records) == Sum(plus, records) - Sum(minus, records)
  {
    if records != [] {
      SumDifference(m, plus, minus, records[..|records| - 1]);
    }
  }

  /**
   Ambiguous model, at every step of every interleaving, crashes included: the balances sum to what they
   would be without transfers, plus what was credited and also refunded, minus what was debited and neither.
   */
  lemma {:induction false} MoneyMadeAndMissing(balances: map<int, int>, trace: seq<Action>)
    ensures var b := Run(Opening(balances), trace).bank;
            && b.balances.Keys == b.base.Keys
            && Total(b.balances, b.base.Keys)
                 == Total(b.base, b.base.Keys) + Sum(TwiceAmount, b.records) - Sum(MissingAmount, b.records)
  {
    RunKeepsInv(balances, trace, false);
    var b := Run(Opening(balances), trace).bank;
    forall i | 0 <= i < |b.records|
      ensures Value(OnAll, b.records[i]) == Value(TwiceAmount, b.records[i]) - Value(MissingAmount, b.records[i])
    {
      RecordMakesMoneyIff(balances, trace, i);
    }
    SumDifference(OnAll, TwiceAmount, MissingAmount, b.records);
  }

  // ----- who pays, and whom -----

  /** The request made this record, its sender could afford it when it authenticated, and it resolved this receiver. */
  predicate Backs(x: Thread, r: Record) {
    && r.requestId == RequestId(x.req.sender, x.req.key) && r.sender == x.req.sender && r.amount == x.req.amount
    && x.req.knownBalance >= x.req.amount
    && x.fates.resolution.Found? && r.receiver == Some(x.fates.resolution.user)
  }

  predicate PcChecked(x: Thread) {
    && (x.pc.Resolve? || x.pc.Bind? || x.pc.Debit? || x.pc.Credit? || x.pc.Refund? ==>
          x.req.knownBalance >= x.req.amount)
    && (x.pc.Bind? || x.pc.Debit? || x.pc.Credit? || x.pc.Refund? ==> x.fates.resolution == Found(x.pc.r))
  }

  ghost predicate Backed(threads: map<nat, Thread>, r: Record) {
    exists t :: t in threads && Backs(threads[t], r)
  }

  ghost predicate AllChecked(w: World) {
    && (forall t | t in w.threads :: PcChecked(w.threads[t]))
    && (forall i | 0 <= i < |w.bank.records| && w.bank.records[i].calls != NO_CALLS ::
          Backed(w.threads, w.bank.records[i]))
  }

  /** A backing request keeps backing: threads keep their request, and a called record its identity and receiver. */
  lemma {:induction false} StaysBacked(a: map<nat, Thread>, b: map<nat, Thread>, r: Record, q: Record)
    requires Backed(a, r)
    requires forall t | t in a :: t in b && b[t].req == a[t].req && b[t].fates == a[t].fates
    requires q.requestId == r.requestId && q.sender == r.sender && q.amount == r.amount && q.receiver == r.receiver
    ensures Backed(b, q)
  {
    var t :| t in a && Backs(a[t], r);
    assert Backs(b[t], q);
  }

  lemma {:induction false} StepBacks(b: Bank, x: Thread, i: nat)
    requires ThreadOk(b.records, x, false) && PcChecked(x) && i < |Step(b, x).0.records|
    requires Step(b, x).0.records[i].calls != NO_CALLS
    ensures var r := Step(b, x).0.records[i];
            || Backs(x, r)
            || (i < |b.records| && b.records[i].calls != NO_CALLS
                && r.requestId == b.records[i].requestId && r.sender == b.records[i].sender
                && r.amount == b.records[i].amount && r.receiver == b.records[i].receiver)
  {
  }

  lemma {:induction false} StepPcChecked(b: Bank, x: Thread)
    requires Placed(b.records, x.pc) && PcChecked(x)
    ensures PcChecked(x.(pc := Step(b, x).1))
  {
  }

  lemma {:induction false} GoKeepsChecked(w: World, t: nat)
    requires Inv(w, false) && AllChecked(w) && t in w.threads && Placed(w.bank.records, w.threads[t].pc)
    ensures AllChecked(Moved(w, t))
  {
    var x := w.threads[t];
    var v := Moved(w, t);
    assert ThreadOk(w.bank.records, x, false);
    StepPcChecked(w.bank, x);
    forall i | 0 <= i < |v.bank.records| && v.bank.records[i].calls != NO_CALLS
      ensures Backed(v.threads, v.bank.records[i])
    {
      StepBacks(w.bank, x, i);
      if Backs(x, v.bank.records[i]) {
        assert Backs(v.threads[t], v.bank.records[i]);
      } else {
        StaysBacked(w.threads, v.threads, w.bank.records[i], v.bank.records[i]);
      }
    }
  }

  lemma {:induction false} ActKeepsChecked(w: World, a: Action)
    requires Inv(w, false) && AllChecked(w)
    ensures AllChecked(Act(w, a))
  {
    if a.Go? && a.t in w.threads && Placed(w.bank.records, w.threads[a.t].pc) {
      GoKeepsChecked(w, a.t);
    } else {
      var v := Act(w, a);
      forall i | 0 <= i < |v.bank.records| && v.bank.records[i].calls != NO_CALLS
        ensures Backed(v.threads, v.bank.records[i])
      {
        StaysBacked(w.threads, v.threads, w.bank.records[i], v.bank.records[i]);
      }
    }
  }

  lemma {:induction false} RunKeepsChecked(balances: map<int, int>, trace: seq<Action>)
    ensures AllChecked(Run(Opening(balances), trace))
  {
    if trace != [] {
      var n := |trace| - 1;
      RunKeepsChecked(balances, trace[..n]);
      RunKeepsInv(balances, trace[..n], false);
      ActKeepsChecked(Run(Opening(balances), trace[..n]), trace[n]);
    }
  }

  /**
   Behind every balance call stands the request that made its record: the sender's balance covered the
   amount when it was read, and the receiver is the other user that the request resolved.
   */
  lemma {:induction false} CallsAreBacked(balances: map<int, int>, trace: seq<Action>, i: nat) returns (t: nat)
    requires var records := Run(Opening(balances), trace).bank.records; i < |records| && records[i].calls != NO_CALLS
    ensures var w := Run(Opening(balances), trace);
            var r := w.bank.records[i];
            && t in w.threads && Backs(w.threads[t], r) && r.receiver != Some(r.sender)
  {
    RunKeepsChecked(balances, trace);
    RunKeepsInv(balances, trace, false);
    var w := Run(Opening(balances), trace);
    assert RecordOk(w.bank.records[i], false);
    t :| t in w.threads && Backs(w.threads[t], w.bank.records[i]);
  }
}
