/**
 What an uninterrupted request is answered, what it leaves in the table and what it does to each balance, in
 every reachable world: first requests and repeated ones.
 */
module TransferOutcome {
  import opened Common
  import opened RequestIds
  import opened TransferSaga
  import opened TransferExecutor

  /** The host knows the user and the call returned. */
  predicate Answered(b: Bank, user: int, fate: Fate) {
    user in b.balances && fate == Returned
  }

  /** The host knows the user and the call was applied, whether it returned or raised. */
  predicate TookEffect(b: Bank, user: int, fate: Fate) {
    user in b.balances && (fate == Returned || fate == RaisedApplied)
  }

  function Plus(m: map<int, int>, user: int, delta: int, effect: bool): map<int, int> {
    if effect && user in m then m[user := m[user] + delta] else m
  }

  /** The balances after the calls to move q to r: the credit follows an answered debit, the refund a failed credit. */
  function Moved(b: Bank, q: Request, r: int, f: Fates): map<int, int> {
    var debited := Plus(b.balances, q.sender, 0 - q.amount, TookEffect(b, q.sender, f.debit));
    if !Answered(b, q.sender, f.debit) then debited else
    var credited := Plus(debited, r, q.amount, TookEffect(b, r, f.credit));
    if Answered(b, r, f.credit) then credited else
    Plus(credited, q.sender, q.amount, TookEffect(b, q.sender, f.refund))
  }

  /** The request resolves to another user and can be paid: it gets as far as its balance calls. */
  predicate Pays(q: Request, f: Fates) {
    q.amount <= q.knownBalance && f.resolution.Found? && f.resolution.user != q.sender
  }

  /** Code and final status of a request that gets to its balance calls. */
  predicate PaidAnswer(b: Bank, q: Request, r: int, f: Fates, code: nat, status: Status) {
    var debit, credit := Answered(b, q.sender, f.debit), Answered(b, r, f.credit);
    && (code == 200 <==> debit && credit) && (code == 502 <==> !(debit && credit))
    && (status == Failed <==> !debit)
    && (status == Succeeded <==> debit && credit)
    && (status == Compensated <==> debit && !credit && Answered(b, q.sender, f.refund))
    && (status == NeedsAttention <==> debit && !credit && !Answered(b, q.sender, f.refund))
  }

  /** Code and final status of one that does not. */
  predicate UnpaidAnswer(q: Request, f: Fates, code: nat, status: Status) {
    var covered := q.amount <= q.knownBalance;
    && (code == 400 <==> !covered || f.resolution == Found(q.sender))
    && (code == 404 <==> covered && f.resolution == Rejected(NoMatch))
    && (code == 409 <==> covered && f.resolution == Rejected(SeveralMatches))
    && (code == 503 <==> covered && f.resolution == Rejected(NoAdminKey))
    && (code == 502 <==> covered && (f.resolution.BadId? || f.resolution.Raised?))
    && (status == Pending <==> covered && f.resolution.Raised?)
    && (status == Failed <==> !(covered && f.resolution.Raised?))
  }

  /** The table and the balances after a first request, and its answer. */
  predicate FirstAnswer(b: Bank, t: Bank, q: Request, f: Fates, code: nat) {
    var n := |b.records|;
    && |t.records| == n + 1 && t.records[..n] == b.records && t.base == b.base
    && var r := t.records[n];
    && r.requestId == RequestId(q.sender, q.key) && r.sender == q.sender && r.amount == q.amount
    && if Pays(q, f) then
         && r.receiver == Some(f.resolution.user) && t.balances == Moved(b, q, f.resolution.user, f)
         && PaidAnswer(b, q, f.resolution.user, f, code, r.status)
       else
         && r.receiver == None && t.balances == b.balances && r.calls == NO_CALLS
         && UnpaidAnswer(q, f, code, r.status)
  }

  /** From the refund on. */
  lemma {:induction false} RefundAlone(b: Bank, x: Thread)
    requires x.pc.Refund? && Placed(b.records, x.pc)
    ensures var (t, pc) := Alone(b, x);
            var i, refunded := x.pc.i, Answered(b, x.req.sender, x.fates.refund);
            && pc == Responded(502) && t.base == b.base
            && t.balances == Plus(b.balances, x.req.sender, x.req.amount, TookEffect(b, x.req.sender, x.fates.refund))
            && |t.records| == |b.records| && t.records[..i] == b.records[..i]
            && t.records[i]
                 == b.records[i].(calls := t.records[i].calls,
                                  status := if refunded then Compensated else NeedsAttention)
  {
    AloneStep(b, x);
    var (b1, pc1) := Step(b, x);
    AloneStep(b1, x.(pc := pc1));
  }

  /** From the credit on. */
  lemma {:induction false} CreditAlone(b: Bank, x: Thread)
    requires x.pc.Credit? && Placed(b.records, x.pc)
    ensures var (t, pc) := Alone(b, x);
            var i, r, f := x.pc.i, x.pc.r, x.fates;
            var credited := Plus(b.balances, r, x.req.amount, TookEffect(b, r, f.credit));
            && t.base == b.base && |t.records| == |b.records| && t.records[..i] == b.records[..i]
            && t.records[i] == b.records[i].(calls := t.records[i].calls, status := t.records[i].status)
            && if Answered(b, r, f.credit) then
                 pc == Responded(200) && t.records[i].status == Succeeded && t.balances == credited
               else
                 && pc == Responded(502)
                 && t.balances == Plus(credited, x.req.sender, x.req.amount, TookEffect(b, x.req.sender, f.refund))
                 && t.records[i].status
                      == if Answered(b, x.req.sender, f.refund) then Compensated else NeedsAttention
  {
    AloneStep(b, x);
    var (b1, pc1) := Step(b, x);
    if pc1.Refund? {
      RefundAlone(b1, x.(pc := pc1));
    } else {
      AloneStep(b1, x.(pc := pc1));
    }
  }

  /** From the debit on. */
  lemma {:induction false} DebitAlone(b: Bank, x: Thread)
    requires x.pc.Debit? && Placed(b.records, x.pc)
    ensures var (t, pc) := Alone(b, x);
            var i := x.pc.i;
            && t.base == b.base && |t.records| == |b.records| && t.records[..i] == b.records[..i]
            && t.records[i] == b.records[i].(calls := t.records[i].calls, status := t.records[i].status)
            && t.balances == Moved(b, x.req, x.pc.r, x.fates)
            && pc.Responded? && PaidAnswer(b, x.req, x.pc.r, x.fates, pc.code, t.records[i].status)
  {
    AloneStep(b, x);
    var (b1, pc1) := Step(b, x);
    if pc1.Credit? {
      CreditAlone(b1, x.(pc := pc1));
    } else {
      AloneStep(b1, x.(pc := pc1));
    }
  }

  /** From the checks on. */
  lemma {:induction false} ExecuteAlone(b: Bank, x: Thread)
    requires x.pc.Precheck? && Placed(b.records, x.pc) && b.records[x.pc.i] == NewRecord(x.req)
    requires x.pc.i == |b.records| - 1
    ensures var (t, pc) := Alone(b, x);
            pc.Responded? && FirstAnswer(b.(records := b.records[..x.pc.i]), t, x.req, x.fates, pc.code)
  {
    var i := x.pc.i;
    AloneStep(b, x);
    var y := x.(pc := Step(b, x).1);
    AloneStep(b, y);
    if Pays(x.req, x.fates) {
      var r := x.fates.resolution.user;
      AloneStep(b, x.(pc := Bind(i, r)));
      var b1 := b.(records := b.records[i := b.records[i].(receiver := Some(r))]);
      DebitAlone(b1, x.(pc := Debit(i, r)));
      assert b1.records[..i] == b.records[..i];
    } else if y.pc.Resolve? && Step(b, y).1.Finish? {
      AloneStep(b, x.(pc := Step(b, y).1));
    }
  }

  lemma {:induction false} FirstAlone(b: Bank, q: Request, f: Fates)
    requires forall i | 0 <= i < |b.records| :: b.records[i].requestId != RequestId(q.sender, q.key)
    ensures var (t, pc) := Alone(b, Thread(q, f, Claim));
            pc.Responded? && FirstAnswer(b, t, q, f, pc.code)
  {
    var x := Thread(q, f, Claim);
    LookupFinds(b.records, RequestId(q.sender, q.key));
    AloneStep(b, x);
    var b1 := b.(records := b.records + [NewRecord(q)]);
    ExecuteAlone(b1, x.(pc := Precheck(|b.records|)));
    assert b1.records[..|b.records|] == b.records;
    assert b1.(records := b.records) == b;
  }

  /**
   A first request, served without interruption in any reachable world: 400 if its balance does not cover the
   amount or it resolves to the sender, 404, 409 and 503 by the rejection, 502 for an unusable id, any other
   exception or a failed call, and 200 otherwise; with the final status of its record and every balance.
   */
  lemma {:induction false} FirstRequestAnswered(balances: map<int, int>, trace: seq<Action>, t: nat, q: Request,
                                                f: Fates)
    requires t !in Run(Opening(balances), trace).threads && q.amount > 0
    requires forall i | 0 <= i < |Run(Opening(balances), trace).bank.records| ::
      Run(Opening(balances), trace).bank.records[i].requestId != RequestId(q.sender, q.key)
    ensures var w0, w := Run(Opening(balances), trace), Run(Opening(balances), trace + Served(t, q, f));
            && t in w.threads && w.threads[t].pc.Responded?
            && FirstAnswer(w0.bank, w.bank, q, f, w.threads[t].pc.code)
  {
    var w0 := Run(Opening(balances), trace);
    RunConcat(Opening(balances), trace, Served(t, q, f));
    ServedAlone(w0, t, q, f);
    FirstAlone(w0.bank, q, f);
  }

  lemma {:induction false} ReplayAlone(b: Bank, q: Request, f: Fates, i: nat)
    requires i < |b.records| && b.records[i].requestId == RequestId(q.sender, q.key) && DistinctIds(b.records)
    ensures var (t, pc) := Alone(b, Thread(q, f, Claim));
            && t == b && pc.Responded?
            && (pc.code == 200 <==> b.records[i].status == Succeeded)
            && (pc.code == 409 <==> b.records[i].status == Pending)
            && (pc.code == 400 <==> b.records[i].status != Succeeded && b.records[i].status != Pending)
  {
    var x := Thread(q, f, Claim);
    LookupFinds(b.records, RequestId(q.sender, q.key));
    AloneStep(b, x);
    AloneStep(b, x.(pc := Replay(i)));
  }

  /**
   A repeated request, served without interruption in any reachable world, leaves table and balances as they are
   and is answered 200 if and only if its record succeeded, 409 if and only if it is pending, and otherwise 400.
   */
  lemma {:induction false} RepeatedRequestAnswered(balances: map<int, int>, trace: seq<Action>, t: nat, q: Request,
                                                   f: Fates, i: nat)
    requires t !in Run(Opening(balances), trace).threads && q.amount > 0
    requires var records := Run(Opening(balances), trace).bank.records;
             i < |records| && records[i].requestId == RequestId(q.sender, q.key)
    ensures var w0, w := Run(Opening(balances), trace), Run(Opening(balances), trace + Served(t, q, f));
            && w.bank == w0.bank && t in w.threads && w.threads[t].pc.Responded?
            && var code, status := w.threads[t].pc.code, w0.bank.records[i].status;
            && (code == 200 <==> status == Succeeded)
            && (code == 409 <==> status == Pending)
            && (code == 400 <==> status == Failed || status == Compensated || status == NeedsAttention)
  {
    var w0 := Run(Opening(balances), trace);
    RunConcat(Opening(balances), trace, Served(t, q, f));
    ServedAlone(w0, t, q, f);
    RunKeepsInv(balances, trace, false);
    ReplayAlone(w0.bank, q, f, i);
  }

  lemma {:induction false} AnswerMatchesRow(b: Bank, t: Bank, q: Request, f: Fates, code: nat)
    requires FirstAnswer(b, t, q, f, code)
    ensures var status := t.records[|b.records|].status;
            && (code == 200 <==> status == Succeeded)
            && (status == Pending <==> q.amount <= q.knownBalance && f.resolution.Raised?)
  {
    match f.resolution
    case Found(user) => assert Pays(q, f) || q.knownBalance < q.amount || f.resolution == Found(q.sender);
    case Rejected(why) => assert why == NoMatch || why == SeveralMatches || why == NoAdminKey;
    case _ =>
  }

  /**
   So a request sent again after its first answer, in whatever world it then finds, is told of the outcome it had:
   200 exactly if the first answer was 200, and 409 exactly if it was left pending.
   */
  lemma {:induction false} RepeatTellsTheOutcome(balances: map<int, int>, trace: seq<Action>, t: nat, again: nat,
                                                 q: Request, f: Fates, g: Fates)
    requires t !in Run(Opening(balances), trace).threads && again !in Run(Opening(balances), trace).threads
    requires q.amount > 0 && again != t
    requires forall i | 0 <= i < |Run(Opening(balances), trace).bank.records| ::
      Run(Opening(balances), trace).bank.records[i].requestId != RequestId(q.sender, q.key)
    ensures var w1 := Run(Opening(balances), trace + Served(t, q, f));
            var w2 := Run(Opening(balances), trace + Served(t, q, f) + Served(again, q, g));
            && w2.bank == w1.bank
            && t in w1.threads && w1.threads[t].pc.Responded? && again in w2.threads && w2.threads[again].pc.Responded?
            && (w2.threads[again].pc.code == 200 <==> w1.threads[t].pc.code == 200)
            && (w2.threads[again].pc.code == 409 <==> q.amount <= q.knownBalance && f.resolution.Raised?)
  {
    var w0 := Run(Opening(balances), trace);
    FirstRequestAnswered(balances, trace, t, q, f);
    RunConcat(Opening(balances), trace, Served(t, q, f));
    ServedAlone(w0, t, q, f);
    AnswerMatchesRow(w0.bank, Run(Opening(balances), trace + Served(t, q, f)).bank, q, f,
                     Run(Opening(balances), trace + Served(t, q, f)).threads[t].pc.code);
    RepeatedRequestAnswered(balances, trace + Served(t, q, f), again, q, g, |w0.bank.records|);
  }
}
