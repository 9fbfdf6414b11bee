/**
 The balance transfer saga of `transfer_server.py`: any number of request threads interleaved with
 each other and with crashes, over the transfer table and the host's balances. Amounts and balances
 are whole cents. A balance call that raised was not applied or, in the ambiguous model, may have been
 or may be at any later time.
 */
module TransferSaga {
  import opened Common
  import opened RequestIds

  datatype Status = Pending | Failed | Succeeded | Compensated | NeedsAttention

  /** The balance calls issued for one record, and which of them took effect. */
  datatype Calls = Calls(debits: nat, credits: nat, refunds: nat, debited: bool, credited: bool, refunded: bool)

  const NO_CALLS := Calls(0, 0, 0, false, false, false)

  /** A row of the transfer table; `calls` is bookkeeping the table itself does not hold. */
  datatype Record = Record(requestId: string, sender: int, receiver: Option<int>, amount: int, status: Status,
                           calls: Calls)

  /** `adjust_balance` returned (applied once), or raised without or despite having been applied. */
  datatype Fate = Returned | RaisedUnapplied | RaisedApplied

  datatype Rejection = NoMatch | SeveralMatches | NoAdminKey

  /** `resolve_recipient`: a user, a business error, an unusable id, or any other exception. */
  datatype Resolution = Found(user: int) | Rejected(why: Rejection) | BadId | Raised

  function RejectionCode(why: Rejection): nat {
    match why case NoMatch => 404 case SeveralMatches => 409 case NoAdminKey => 503
  }

  /** A request past validation; `knownBalance` is the balance read when it authenticated. */
  datatype Request = Request(sender: int, knownBalance: int, key: string, amount: int)

  datatype Fates = Fates(resolution: Resolution, debit: Fate, credit: Fate, refund: Fate)

  datatype Pc =
    | Claim
    | Precheck(i: nat)
    | Resolve(i: nat)
    | Bind(i: nat, r: int)
    | Debit(i: nat, r: int)
    | Credit(i: nat, r: int)
    | Refund(i: nat, r: int)
    | Finish(i: nat, status: Status, code: nat)
    | Replay(i: nat)
    | Responded(code: nat)
    | Dead
  {
    /** Executing record i, as opposed to claiming, replaying or being over. */
    predicate Executes() {
      Precheck? || Resolve? || Bind? || Debit? || Credit? || Refund? || Finish?
    }

    predicate Holds(k: nat) { Executes() && this.i == k }

    function Rank(): nat {
      match this
      case Claim => 9 case Precheck(_) => 8 case Resolve(_) => 7 case Bind(_, _) => 6 case Debit(_, _) => 5
      case Credit(_, _) => 4 case Refund(_, _) => 3 case Finish(_, _, _) => 2 case Replay(_) => 1
      case Responded(_) => 0 case Dead => 0
    }
  }

  datatype Thread = Thread(req: Request, fates: Fates, pc: Pc)

  /** `base` is what the balances would be had no transfer touched them. */
  datatype Bank = Bank(balances: map<int, int>, base: map<int, int>, records: seq<Record>)

  // ----- one thread -----

  /** UNIQUE(request_id): the position of the record with that id. */
  function Lookup(records: seq<Record>, id: string): Option<nat> {
    if records == [] then None
    else if records[|records| - 1].requestId == id then Some(|records| - 1)
    else Lookup(records[..|records| - 1], id)
  }

  /** A call for a user the host does not know raises and does nothing. */
  predicate Applied(b: Bank, user: int, fate: Fate) {
    user in b.balances && !fate.RaisedUnapplied?
  }

  predicate CallReturned(b: Bank, user: int, fate: Fate) {
    user in b.balances && fate.Returned?
  }

  function Bumped(m: map<int, int>, user: int, delta: int): (r: map<int, int>)
    requires user in m
    ensures r.Keys == m.Keys
    ensures forall u | u in m :: r[u] == m[u] + if u == user then delta else 0
  {
    m[user := m[user] + delta]
  }

  function Adjusted(b: Bank, user: int, delta: int, fate: Fate): map<int, int> {
    if Applied(b, user, fate) then Bumped(b.balances, user, delta) else b.balances
  }

  function WithCalls(r: Record, kind: Pc, applied: bool): Record {
    var c := r.calls;
    if kind.Debit? then r.(calls := c.(debits := c.debits + 1, debited := c.debited || applied))
    else if kind.Credit? then r.(calls := c.(credits := c.credits + 1, credited := c.credited || applied))
    else r.(calls := c.(refunds := c.refunds + 1, refunded := c.refunded || applied))
  }

  /** One balance call made for record i. */
  function CallStep(b: Bank, kind: Pc, i: nat, user: int, delta: int, fate: Fate): Bank
    requires i < |b.records|
  {
    b.(balances := Adjusted(b, user, delta, fate),
       records := b.records[i := WithCalls(b.records[i], kind, Applied(b, user, fate))])
  }

  function NewRecord(q: Request): Record {
    Record(RequestId(q.sender, q.key), q.sender, None, q.amount, Pending, NO_CALLS)
  }

  function ReplayCode(status: Status): nat {
    match status case Succeeded => 200 case Pending => 409 case _ => 400
  }

  predicate Placed(records: seq<Record>, pc: Pc) {
    pc.Executes() || pc.Replay? ==> pc.i < |records|
  }

  function Step(b: Bank, x: Thread): (Bank, Pc)
    requires Placed(b.records, x.pc)
  {
    var q := x.req;
    match x.pc
    case Claim =>
      var held := Lookup(b.records, RequestId(q.sender, q.key));
      if held.Some? then (b, Replay(held.value))
      else (b.(records := b.records + [NewRecord(q)]), Precheck(|b.records|))
    case Precheck(i) =>
      (b, if q.knownBalance < q.amount then Finish(i, Failed, 400) else Resolve(i))
    case Resolve(i) =>
      (b, match x.fates.resolution
          case Rejected(why) => Finish(i, Failed, RejectionCode(why))
          case BadId => Finish(i, Failed, 502)
          case Raised => Responded(502)
          case Found(r) => if r == q.sender then Finish(i, Failed, 400) else Bind(i, r))
    case Bind(i, r) =>
      (b.(records := b.records[i := b.records[i].(receiver := Some(r))]), Debit(i, r))
    case Debit(i, r) =>
      (CallStep(b, x.pc, i, q.sender, 0 - q.amount, x.fates.debit),
       if CallReturned(b, q.sender, x.fates.debit) then Credit(i, r) else Finish(i, Failed, 502))
    case Credit(i, r) =>
      (CallStep(b, x.pc, i, r, q.amount, x.fates.credit),
       if CallReturned(b, r, x.fates.credit) then Finish(i, Succeeded, 200) else Refund(i, r))
    case Refund(i, r) =>
      (CallStep(b, x.pc, i, q.sender, q.amount, x.fates.refund),
       Finish(i, if CallReturned(b, q.sender, x.fates.refund) then Compensated else NeedsAttention, 502))
    case Finish(i, status, code) =>
      (b.(records := b.records[i := b.records[i].(status := status)]), Responded(code))
    case Replay(i) => (b, Responded(ReplayCode(b.records[i].status)))
    case Responded(_) => (b, x.pc)
    case Dead => (b, x.pc)
  }

  // ----- interleavings -----

  datatype World = World(bank: Bank, threads: map<nat, Thread>)

  datatype Action =
    | Submit(t: nat, req: Request, fates: Fates)
    | Go(t: nat)
    | Die(t: nat)
    | Late(i: nat, call: CallKind)
    | Outside(user: int, delta: int)

  function Shifted(b: Bank, user: int, delta: int): Bank
    requires user in b.balances && user in b.base
  {
    b.(balances := Bumped(b.balances, user, delta), base := Bumped(b.base, user, delta))
  }

  datatype CallKind = DebitCall | CreditCall | RefundCall

  /** A call of record i that raised unapplied, for a user the host knows, and may still reach it. */
  predicate InFlight(b: Bank, i: nat, call: CallKind) {
    i < |b.records| && var r := b.records[i];
    match call
    case DebitCall => r.calls.debits > 0 && !r.calls.debited && r.sender in b.balances
    case CreditCall => r.calls.credits > 0 && !r.calls.credited && r.receiver.Some? && r.receiver.value in b.balances
    case RefundCall => r.calls.refunds > 0 && !r.calls.refunded && r.sender in b.balances
  }

  function LateRow(r: Record, call: CallKind): Record {
    match call
    case DebitCall => r.(calls := r.calls.(debited := true))
    case CreditCall => r.(calls := r.calls.(credited := true))
    case RefundCall => r.(calls := r.calls.(refunded := true))
  }

  /** The host applies the call after all. */
  function Arrived(b: Bank, i: nat, call: CallKind): Bank
    requires InFlight(b, i, call)
  {
    var r := b.records[i];
    b.(balances := match call
                   case DebitCall => Bumped(b.balances, r.sender, 0 - r.amount)
                   case CreditCall => Bumped(b.balances, r.receiver.value, r.amount)
                   case RefundCall => Bumped(b.balances, r.sender, r.amount),
       records := b.records[i := LateRow(r, call)])
  }

  function Moved(w: World, t: nat): World
    requires t in w.threads && Placed(w.bank.records, w.threads[t].pc)
  {
    var (b, pc) := Step(w.bank, w.threads[t]);
    World(b, w.threads[t := w.threads[t].(pc := pc)])
  }

  /** Outside is any balance change that is not a transfer. */
  function Act(w: World, a: Action): World {
    match a
    case Submit(t, req, fates) =>
      if t in w.threads || req.amount <= 0 then w else w.(threads := w.threads[t := Thread(req, fates, Claim)])
    case Go(t) => if t in w.threads && Placed(w.bank.records, w.threads[t].pc) then Moved(w, t) else w
    case Die(t) => if t in w.threads then w.(threads := w.threads[t := w.threads[t].(pc := Dead)]) else w
    case Late(i, call) => if InFlight(w.bank, i, call) then w.(bank := Arrived(w.bank, i, call)) else w
    case Outside(user, delta) =>
      if user in w.bank.balances && user in w.bank.base then
        w.(bank := Shifted(w.bank, user, delta))
      else w
  }

  function Run(w: World, trace: seq<Action>): World {
    if trace == [] then w else Act(Run(w, trace[..|trace| - 1]), trace[|trace| - 1])
  }

  function Opening(balances: map<int, int>): World {
    World(Bank(balances, balances, []), map[])
  }

  /** The definite model: a balance call that raised was not applied, and never will be. */
  predicate DefiniteFates(f: Fates) {
    !f.debit.RaisedApplied? && !f.credit.RaisedApplied? && !f.refund.RaisedApplied?
  }

  predicate Definite(trace: seq<Action>) {
    forall k | 0 <= k < |trace| :: DefiniteAction(trace[k])
  }

  predicate DefiniteAction(a: Action) {
    !a.Late? && (a.Submit? ==> DefiniteFates(a.fates))
  }

  predicate CrashFree(trace: seq<Action>) {
    forall k | 0 <= k < |trace| :: !trace[k].Die?
  }

  // ----- sums over records and over accounts -----

  function SenderChange(r: Record): int {
    (if r.calls.debited then 0 - r.amount else 0) + (if r.calls.refunded then r.amount else 0)
  }

  function ReceiverChange(r: Record): int {
    if r.calls.credited then r.amount else 0
  }

  /** Debited, and neither credited nor refunded. */
  predicate Missing(r: Record) {
    r.calls.debited && !r.calls.credited && !r.calls.refunded
  }

  datatype Measure =
    | OnUser(user: int)       // what the calls did to one balance
    | OnAll                   // what the calls did to all balances together
    | MissingAmount           // debited and not yet anywhere else
    | TwiceAmount             // credited and also refunded
    | AttentionAmount         // by status: needs_attention
    | UnsettledAmount         // by status: anything but succeeded
    | LogEffect(user: int)    // what the log says happened to one balance

  function Value(m: Measure, r: Record): int {
    match m
    case OnUser(u) =>
      (if r.sender == u then SenderChange(r) else 0) + (if r.receiver == Some(u) then ReceiverChange(r) else 0)
    case OnAll => SenderChange(r) + ReceiverChange(r)
    case MissingAmount => if Missing(r) then r.amount else 0
    case TwiceAmount => if r.calls.credited && r.calls.refunded then r.amount else 0
    case AttentionAmount => if r.status == NeedsAttention then r.amount else 0
    case UnsettledAmount => if r.status == Succeeded then 0 else r.amount
    case LogEffect(u) =>
      (if r.sender == u && (r.status == Succeeded || r.status == NeedsAttention) then 0 - r.amount else 0)
      + (if r.receiver == Some(u) && r.status == Succeeded then r.amount else 0)
  }

  function Sum(m: Measure, records: seq<Record>): int {
    if records == [] then 0 else Sum(m, records[..|records| - 1]) + Value(m, records[|records| - 1])
  }

  /** The sum of the balances of some users. */
  function Total(m: map<int, int>, users: set<int>): int
    requires users <= m.Keys
  {
    if users == {} then 0 else
      var u := Least(users);
      m[u] + Total(m, users - {u})
  }

  lemma {:induction false} SumUpdate(m: Measure, records: seq<Record>, i: nat, r: Record)
    requires i < |records|
    ensures Sum(m, records[i := r]) == Sum(m, records) - Value(m, records[i]) + Value(m, r)
  {
    var n := |records| - 1;
    if i == n {
      assert records[i := r][..n] == records[..n];
    } else {
      assert records[i := r][..n] == records[..n][i := r];
      SumUpdate(m, records[..n], i, r);
    }
  }

  lemma {:induction false} SumAppend(m: Measure, records: seq<Record>, r: Record)
    ensures Sum(m, records + [r]) == Sum(m, records) + Value(m, r)
  {
    assert (records + [r])[..|records|] == records;
  }

  lemma {:induction false} TotalUpdate(m: map<int, int>, users: set<int>, u: int, delta: int)
    requires users <= m.Keys && u in m
    ensures Total(Bumped(m, u, delta), users) == Total(m, users) + if u in users then delta else 0
  {
    if users != {} {
      TotalUpdate(m, users - {Least(users)}, u, delta);
    }
  }

  // ----- what every reachable world satisfies -----

  /** What a status says about the calls behind it. */
  predicate Explains(status: Status, c: Calls, definite: bool) {
    match status
    case Pending => true
    case Failed => c.credits == 0 && (definite ==> !c.debited)
    case Succeeded => c.debited && c.credited && c.refunds == 0
    case Compensated => c.debited && c.refunded && (definite ==> !c.credited)
    case NeedsAttention => c.debited && c.refunds == 1 && (definite ==> !c.credited && !c.refunded)
  }

  /** Each call at most once, in the order debit, credit, refund, and each only after the one before. */
  predicate Ordered(c: Calls, definite: bool) {
    && c.debits <= 1 && c.credits <= 1 && c.refunds <= 1
    && (c.debited ==> c.debits == 1) && (c.credited ==> c.credits == 1) && (c.refunded ==> c.refunds == 1)
    && (c.credits == 1 ==> c.debited) && (c.refunds == 1 ==> c.credits == 1)
    && (definite ==> !(c.credited && c.refunds == 1))
  }

  ghost predicate RecordOk(r: Record, definite: bool) {
    && r.amount > 0 && r.receiver != Some(r.sender)
    && Ordered(r.calls, definite) && Explains(r.status, r.calls, definite)
    && Keyed(r)
  }

  /** The id was made from the sender's own id and some key. */
  ghost predicate Keyed(r: Record) {
    exists key :: r.requestId == RequestId(r.sender, key)
  }

  predicate DistinctIds(records: seq<Record>) {
    forall i, j | 0 <= i < j < |records| :: records[i].requestId != records[j].requestId
  }

  ghost predicate Balanced(b: Bank) {
    && b.balances.Keys == b.base.Keys
    && (forall u | u in b.base :: b.balances[u] == b.base[u] + Sum(OnUser(u), b.records))
    && Total(b.balances, b.base.Keys) == Total(b.base, b.base.Keys) + Sum(OnAll, b.records)
  }

  ghost predicate TableOk(records: seq<Record>, definite: bool) {
    (forall i | 0 <= i < |records| :: RecordOk(records[i], definite)) && DistinctIds(records)
  }

  ghost predicate BankOk(b: Bank, definite: bool) {
    TableOk(b.records, definite) && Balanced(b)
  }

  /** The record of an executing thread: its own request, pending, with the calls made so far. */
  predicate AtPc(x: Thread, r: Record, definite: bool) {
    && r.requestId == RequestId(x.req.sender, x.req.key) && r.sender == x.req.sender && r.amount == x.req.amount
    && r.status == Pending
    && match x.pc
       case Bind(_, u) => r.calls == NO_CALLS && u != r.sender
       case Debit(_, u) => r.calls == NO_CALLS && r.receiver == Some(u)
       case Credit(_, u) => r.calls == Calls(1, 0, 0, true, false, false) && r.receiver == Some(u)
       case Refund(_, u) => (r.calls == Calls(1, 1, 0, true, r.calls.credited, false) && r.receiver == Some(u)
                             && (definite ==> !r.calls.credited))
       case Finish(_, status, code) =>
         status != Pending && Explains(status, r.calls, definite) && (code == 200 <==> status == Succeeded)
       case _ => r.calls == NO_CALLS
  }

  predicate SucceededUnder(records: seq<Record>, id: string) {
    exists i :: 0 <= i < |records| && records[i].requestId == id && records[i].status == Succeeded
  }

  ghost predicate ThreadOk(records: seq<Record>, x: Thread, definite: bool) {
    && x.req.amount > 0
    && (definite ==> DefiniteFates(x.fates))
    && Placed(records, x.pc)
    && (x.pc.Executes() ==> AtPc(x, records[x.pc.i], definite))
    && (x.pc.Replay? ==> records[x.pc.i].requestId == RequestId(x.req.sender, x.req.key))
    && (x.pc == Responded(200) ==> SucceededUnder(records, RequestId(x.req.sender, x.req.key)))
  }

  ghost predicate ThreadsOk(records: seq<Record>, threads: map<nat, Thread>, definite: bool) {
    forall t | t in threads :: ThreadOk(records, threads[t], definite)
  }

  /** No record is executed by two threads. */
  ghost predicate OneExecutor(threads: map<nat, Thread>) {
    forall s, t | s in threads && t in threads && threads[s].pc.Executes() && threads[t].pc.Executes()
      && threads[s].pc.i == threads[t].pc.i :: s == t
  }

  ghost predicate Inv(w: World, definite: bool) {
    BankOk(w.bank, definite) && ThreadsOk(w.bank.records, w.threads, definite) && OneExecutor(w.threads)
  }

  lemma {:induction false} LookupFinds(records: seq<Record>, id: string)
    ensures var k := Lookup(records, id);
            if k.Some? then k.value < |records| && records[k.value].requestId == id
            else forall i | 0 <= i < |records| :: records[i].requestId != id
  {
    if records != [] && records[|records| - 1].requestId != id {
      var front := records[..|records| - 1];
      LookupFinds(front, id);
      forall i | 0 <= i < |records| && Lookup(records, id).None? ensures records[i].requestId != id {
        assert i < |front| ==> records[i] == front[i];
      }
    }
  }

  // ----- the bank under one step -----

  ghost predicate StepSound(b: Bank, x: Thread, definite: bool)
    requires Placed(b.records, x.pc)
  {
    var (b1, pc) := Step(b, x);
    BankOk(b1, definite) && ThreadOk(b1.records, x.(pc := pc), definite)
  }

  /** A row written with the same identity, whose effect on the sums is the balance change made. */
  ghost predicate Matches(b: Bank, i: nat, r: Record, balances: map<int, int>, user: int, delta: int)
    requires i < |b.records|
  {
    && r.requestId == b.records[i].requestId && r.sender == b.records[i].sender
    && (forall u :: Value(OnUser(u), r) == Value(OnUser(u), b.records[i]) + if u == user then delta else 0)
    && Value(OnAll, r) == Value(OnAll, b.records[i]) + delta
    && (if delta == 0 then balances == b.balances
        else user in b.balances && balances == Bumped(b.balances, user, delta))
  }

  lemma {:induction false} WriteKeepsBalanced(b: Bank, i: nat, r: Record, balances: map<int, int>, user: int,
                                              delta: int)
    requires Balanced(b) && i < |b.records| && Matches(b, i, r, balances, user, delta)
    ensures Balanced(b.(balances := balances, records := b.records[i := r]))
  {
    forall u | u in b.base ensures balances[u] == b.base[u] + Sum(OnUser(u), b.records[i := r]) {
      SumUpdate(OnUser(u), b.records, i, r);
      assert Value(OnUser(u), r) == Value(OnUser(u), b.records[i]) + if u == user then delta else 0;
    }
    SumUpdate(OnAll, b.records, i, r);
    if delta != 0 {
      TotalUpdate(b.balances, b.base.Keys, user, delta);
    }
  }

  lemma {:induction false} WriteKeepsTable(records: seq<Record>, i: nat, r: Record, definite: bool)
    requires TableOk(records, definite) && i < |records| && RecordOk(r, definite) && r.requestId == records[i].requestId
    ensures TableOk(records[i := r], definite)
  {
  }

  lemma {:induction false} NewRecordKeepsBank(b: Bank, q: Request, definite: bool)
    requires BankOk(b, definite) && q.amount > 0 && Lookup(b.records, RequestId(q.sender, q.key)).None?
    ensures BankOk(b.(records := b.records + [NewRecord(q)]), definite)
  {
    LookupFinds(b.records, RequestId(q.sender, q.key));
    SumAppend(OnAll, b.records, NewRecord(q));
    forall u | u in b.base ensures b.balances[u] == b.base[u] + Sum(OnUser(u), b.records + [NewRecord(q)]) {
      SumAppend(OnUser(u), b.records, NewRecord(q));
    }
  }

  // Each call leaves a sound row and thread, and moves the balances by exactly the row's new effect.

  lemma {:induction false} DebitMatches(b: Bank, x: Thread, definite: bool)
    requires ThreadOk(b.records, x, definite) && x.pc.Debit? && RecordOk(b.records[x.pc.i], definite)
    ensures var b1 := Step(b, x).0;
            && Matches(b, x.pc.i, b1.records[x.pc.i], b1.balances, x.req.sender,
                       if Applied(b, x.req.sender, x.fates.debit) then 0 - x.req.amount else 0)
            && RecordOk(b1.records[x.pc.i], definite)
  {
    assert Keyed(Step(b, x).0.records[x.pc.i]);
  }

  lemma {:induction false} DebitIsSound(b: Bank, x: Thread, definite: bool)
    requires BankOk(b, definite) && ThreadOk(b.records, x, definite) && x.pc.Debit?
    ensures StepSound(b, x, definite)
  {
    var b1 := Step(b, x).0;
    DebitMatches(b, x, definite);
    WriteKeepsBalanced(b, x.pc.i, b1.records[x.pc.i], b1.balances, x.req.sender,
                       if Applied(b, x.req.sender, x.fates.debit) then 0 - x.req.amount else 0);
    WriteKeepsTable(b.records, x.pc.i, b1.records[x.pc.i], definite);
  }

  lemma {:induction false} CreditIsSound(b: Bank, x: Thread, definite: bool)
    requires BankOk(b, definite) && ThreadOk(b.records, x, definite) && x.pc.Credit?
    ensures StepSound(b, x, definite)
  {
    var b1 := Step(b, x).0;
    assert RecordOk(b.records[x.pc.i], definite) && Keyed(b1.records[x.pc.i]);
    var delta := if Applied(b, x.pc.r, x.fates.credit) then x.req.amount else 0;
    WriteKeepsBalanced(b, x.pc.i, b1.records[x.pc.i], b1.balances, x.pc.r, delta);
    WriteKeepsTable(b.records, x.pc.i, b1.records[x.pc.i], definite);
  }

  lemma {:induction false} RefundIsSound(b: Bank, x: Thread, definite: bool)
    requires BankOk(b, definite) && ThreadOk(b.records, x, definite) && x.pc.Refund?
    ensures StepSound(b, x, definite)
  {
    var b1 := Step(b, x).0;
    assert RecordOk(b.records[x.pc.i], definite) && Keyed(b1.records[x.pc.i]);
    var delta := if Applied(b, x.req.sender, x.fates.refund) then x.req.amount else 0;
    WriteKeepsBalanced(b, x.pc.i, b1.records[x.pc.i], b1.balances, x.req.sender, delta);
    WriteKeepsTable(b.records, x.pc.i, b1.records[x.pc.i], definite);
  }

  lemma {:induction false} BindIsSound(b: Bank, x: Thread, definite: bool)
    requires BankOk(b, definite) && ThreadOk(b.records, x, definite) && x.pc.Bind?
    ensures StepSound(b, x, definite)
  {
    assert RecordOk(b.records[x.pc.i], definite);
    var r := b.records[x.pc.i].(receiver := Some(x.pc.r));
    assert Keyed(r);
    WriteKeepsBalanced(b, x.pc.i, r, b.balances, 0, 0);
    WriteKeepsTable(b.records, x.pc.i, r, definite);
  }

  lemma {:induction false} FinishIsSound(b: Bank, x: Thread, definite: bool)
    requires BankOk(b, definite) && ThreadOk(b.records, x, definite) && x.pc.Finish?
    ensures StepSound(b, x, definite)
  {
    assert RecordOk(b.records[x.pc.i], definite);
    var r := b.records[x.pc.i].(status := x.pc.status);
    assert Keyed(r);
    WriteKeepsBalanced(b, x.pc.i, r, b.balances, 0, 0);
    WriteKeepsTable(b.records, x.pc.i, r, definite);
    assert Step(b, x).0.records[x.pc.i].requestId == RequestId(x.req.sender, x.req.key);
  }

  lemma {:induction false} ClaimIsSound(b: Bank, x: Thread, definite: bool)
    requires BankOk(b, definite) && ThreadOk(b.records, x, definite) && x.pc.Claim?
    ensures StepSound(b, x, definite)
  {
    LookupFinds(b.records, RequestId(x.req.sender, x.req.key));
    if Lookup(b.records, RequestId(x.req.sender, x.req.key)).None? {
      NewRecordKeepsBank(b, x.req, definite);
    }
  }

  lemma {:induction false} ChecksAreSound(b: Bank, x: Thread, definite: bool)
    requires BankOk(b, definite) && ThreadOk(b.records, x, definite) && (x.pc.Precheck? || x.pc.Resolve?)
    ensures StepSound(b, x, definite)
  {
    assert Step(b, x).0 == b;
  }

  lemma {:induction false} ReplayIsSound(b: Bank, x: Thread, definite: bool)
    requires BankOk(b, definite) && ThreadOk(b.records, x, definite) && (x.pc.Replay? || x.pc.Responded? || x.pc.Dead?)
    ensures StepSound(b, x, definite)
  {
    assert Step(b, x).0 == b;
    if x.pc.Replay? && b.records[x.pc.i].status == Succeeded {
      assert SucceededUnder(b.records, RequestId(x.req.sender, x.req.key));
    }
  }

  lemma {:induction false} StepIsSound(b: Bank, x: Thread, definite: bool)
    requires BankOk(b, definite) && ThreadOk(b.records, x, definite)
    ensures StepSound(b, x, definite)
  {
    match x.pc
    case Claim => ClaimIsSound(b, x, definite);
    case Bind(_, _) => BindIsSound(b, x, definite);
    case Debit(_, _) => DebitIsSound(b, x, definite);
    case Credit(_, _) => CreditIsSound(b, x, definite);
    case Refund(_, _) => RefundIsSound(b, x, definite);
    case Finish(_, _, _) => FinishIsSound(b, x, definite);
    case Precheck(_) => ChecksAreSound(b, x, definite);
    case Resolve(_) => ChecksAreSound(b, x, definite);
    case _ => ReplayIsSound(b, x, definite);
  }

  // ----- the other threads -----

  /** What one step may do to the table: nothing, append a row, or rewrite the pending row its thread executes. */
  ghost predicate Touches(b: Bank, b1: Bank, pc: Pc) {
    && |b.records| <= |b1.records|
    && (forall k | 0 <= k < |b.records| && !pc.Holds(k) :: b1.records[k] == b.records[k])
    && (forall k | 0 <= k < |b.records| ::
          && b1.records[k].requestId == b.records[k].requestId && b1.records[k].sender == b.records[k].sender
          && b1.records[k].amount == b.records[k].amount)
    && b1.base == b.base
  }

  lemma {:induction false} StepTouches(b: Bank, x: Thread, definite: bool)
    requires ThreadOk(b.records, x, definite)
    ensures Touches(b, Step(b, x).0, x.pc)
    ensures forall k :: Step(b, x).1.Holds(k) ==> x.pc.Holds(k) || (x.pc.Claim? && k == |b.records|)
    ensures |Step(b, x).0.records| > |b.records| ==> Step(b, x).1.Executes()
  {
  }

  lemma {:induction false} OthersStayOk(b: Bank, b1: Bank, x: Thread, y: Thread, definite: bool)
    requires ThreadOk(b.records, x, definite) && ThreadOk(b.records, y, definite) && Touches(b, b1, x.pc)
    requires x.pc.Executes() && y.pc.Executes() ==> x.pc.i != y.pc.i
    ensures ThreadOk(b1.records, y, definite)
  {
    var id := RequestId(y.req.sender, y.req.key);
    if y.pc == Responded(200) {
      var i :| 0 <= i < |b.records| && b.records[i].requestId == id && b.records[i].status == Succeeded;
      assert b1.records[i] == b.records[i];
    }
  }

  lemma {:induction false} GoKeepsInv(w: World, t: nat, definite: bool)
    requires Inv(w, definite) && t in w.threads && Placed(w.bank.records, w.threads[t].pc)
    ensures Inv(Moved(w, t), definite)
  {
    var x := w.threads[t];
    assert ThreadOk(w.bank.records, x, definite);
    StepIsSound(w.bank, x, definite);
    StepTouches(w.bank, x, definite);
    var (b1, pc) := Step(w.bank, x);
    forall s | s in w.threads && s != t ensures ThreadOk(b1.records, w.threads[s], definite) {
      OthersStayOk(w.bank, b1, x, w.threads[s], definite);
    }
    OneExecutorKept(w, t, pc, definite);
  }

  lemma {:induction false} OneExecutorKept(w: World, t: nat, pc: Pc, definite: bool)
    requires ThreadsOk(w.bank.records, w.threads, definite) && OneExecutor(w.threads) && t in w.threads
    requires forall k :: pc.Holds(k) ==> w.threads[t].pc.Holds(k) || k == |w.bank.records|
    ensures OneExecutor(w.threads[t := w.threads[t].(pc := pc)])
  {
    forall s | s in w.threads && s != t && pc.Executes() && w.threads[s].pc.Executes()
      ensures w.threads[s].pc.i != pc.i
    {
      assert ThreadOk(w.bank.records, w.threads[s], definite);
      assert pc.Holds(pc.i);
    }
  }

  lemma {:induction false} OutsideKeepsBalanced(b: Bank, user: int, delta: int)
    requires Balanced(b) && user in b.base
    ensures Balanced(Shifted(b, user, delta))
  {
    TotalUpdate(b.balances, b.base.Keys, user, delta);
    TotalUpdate(b.base, b.base.Keys, user, delta);
  }

  lemma {:induction false} SameTableKeepsInv(w: World, w1: World, definite: bool)
    requires Inv(w, definite)
    requires w1.threads == w.threads && w1.bank.records == w.bank.records && Balanced(w1.bank)
    ensures Inv(w1, definite)
  {
  }

  lemma {:induction false} OutsideKeepsInv(w: World, user: int, delta: int, definite: bool)
    requires Inv(w, definite)
    ensures Inv(Act(w, Outside(user, delta)), definite)
  {
    if user in w.bank.base {
      OutsideKeepsBalanced(w.bank, user, delta);
      SameTableKeepsInv(w, w.(bank := Shifted(w.bank, user, delta)), definite);
    }
  }

  // ----- a call that arrives late -----

  /** The row it leaves is sound, and the balances moved by exactly its new effect. */
  lemma {:induction false} LateIsSound(b: Bank, i: nat, call: CallKind)
    requires InFlight(b, i, call) && RecordOk(b.records[i], false)
    ensures RecordOk(LateRow(b.records[i], call), false)
    ensures var r := b.records[i];
            Matches(b, i, LateRow(r, call), Arrived(b, i, call).balances,
                    if call.CreditCall? then r.receiver.value else r.sender,
                    if call.DebitCall? then 0 - r.amount else r.amount)
  {
    assert Keyed(LateRow(b.records[i], call));
  }

  lemma {:induction false} LateKeepsBank(b: Bank, i: nat, call: CallKind)
    requires BankOk(b, false) && InFlight(b, i, call)
    ensures BankOk(Arrived(b, i, call), false)
  {
    var r := b.records[i];
    LateIsSound(b, i, call);
    WriteKeepsBalanced(b, i, LateRow(r, call), Arrived(b, i, call).balances,
                       if call.CreditCall? then r.receiver.value else r.sender,
                       if call.DebitCall? then 0 - r.amount else r.amount);
    WriteKeepsTable(b.records, i, LateRow(r, call), false);
  }

  lemma {:induction false} LateKeepsThread(b: Bank, i: nat, call: CallKind, x: Thread)
    requires InFlight(b, i, call) && ThreadOk(b.records, x, false)
    ensures ThreadOk(Arrived(b, i, call).records, x, false)
  {
    var records := Arrived(b, i, call).records;
    var id := RequestId(x.req.sender, x.req.key);
    if x.pc == Responded(200) {
      var k :| 0 <= k < |b.records| && b.records[k].requestId == id && b.records[k].status == Succeeded;
      assert records[k].requestId == id && records[k].status == Succeeded;
    }
  }

  lemma {:induction false} LateKeepsInv(w: World, i: nat, call: CallKind)
    requires Inv(w, false) && InFlight(w.bank, i, call)
    ensures Inv(w.(bank := Arrived(w.bank, i, call)), false)
  {
    LateKeepsBank(w.bank, i, call);
    forall t | t in w.threads ensures ThreadOk(Arrived(w.bank, i, call).records, w.threads[t], false) {
      LateKeepsThread(w.bank, i, call, w.threads[t]);
    }
  }

  lemma {:induction false} SubmitKeepsInv(w: World, t: nat, x: Thread, definite: bool)
    requires Inv(w, definite) && t !in w.threads && x.pc.Claim? && x.req.amount > 0
    requires (definite ==> DefiniteFates(x.fates))
    ensures Inv(w.(threads := w.threads[t := x]), definite)
  {
  }

  lemma {:induction false} DieKeepsInv(w: World, t: nat, definite: bool)
    requires Inv(w, definite) && t in w.threads
    ensures Inv(w.(threads := w.threads[t := w.threads[t].(pc := Dead)]), definite)
  {
    assert ThreadOk(w.bank.records, w.threads[t], definite);
  }

  lemma {:induction false} ActKeepsInv(w: World, a: Action, definite: bool)
    requires Inv(w, definite) && (definite ==> DefiniteAction(a))
    ensures Inv(Act(w, a), definite)
  {
    match a
    case Submit(t, req, fates) =>
      if t !in w.threads && req.amount > 0 {
        SubmitKeepsInv(w, t, Thread(req, fates, Claim), definite);
      }
    case Go(t) =>
      if t in w.threads && Placed(w.bank.records, w.threads[t].pc) {
        GoKeepsInv(w, t, definite);
      }
    case Die(t) =>
      if t in w.threads {
        DieKeepsInv(w, t, definite);
      }
    case Late(i, call) =>
      if InFlight(w.bank, i, call) {
        LateKeepsInv(w, i, call);
      }
    case Outside(user, delta) => OutsideKeepsInv(w, user, delta, definite);
  }

  lemma {:induction false} RunKeepsInv(balances: map<int, int>, trace: seq<Action>, definite: bool)
    requires definite ==> Definite(trace)
    ensures Inv(Run(Opening(balances), trace), definite)
  {
    if trace != [] {
      var n := |trace| - 1;
      RunKeepsInv(balances, trace[..n], definite);
      ActKeepsInv(Run(Opening(balances), trace[..n]), trace[n], definite);
    }
  }
}
