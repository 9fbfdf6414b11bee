/**
 The executor's durable tables (`StateStore` in `quota_sync.py`) and the per-account loop of `main`.

 A table is a map or a sequence and every commit is one assignment. Event ids are positions in
 `events`: AUTOINCREMENT ids never leave a gap, because a rolled-back insert gives its id back and
 no row is ever deleted. The target rows of an event are kept inside it, keyed as their tables are.
 */
module StateStore {
  import opened Common
  import opened CycleDetector

  datatype Windows = Windows(daily: bool, weekly: bool, monthly: bool)

  datatype TargetStatus = Pending | Processing | Failed | Done | Skipped {
    predicate Terminal() { Done? || Skipped? }
  }

  datatype BalanceRow = BalanceRow(target: real, status: TargetStatus)

  datatype Event = Event(
    accountId: int,
    cycleResetAt: int,
    groupIds: seq<int>,
    windows: Windows,
    resetTargets: map<int, TargetStatus>,
    balanceTargets: map<int, BalanceRow>,
    complete: bool)

  datatype Db = Db(accounts: map<int, State>, events: seq<Event>)

  // ----- what each statement does to the tables -----

  function Row(db: Db, a: int): Option<State> {
    if a in db.accounts then Some(db.accounts[a]) else None
  }

  function Coalesce<T>(given: Option<T>, kept: Option<T>): Option<T> {
    if given.Some? then given else kept
  }

  /** The row after `write_observation`: the confirmed boundary moves only with `updateCycle`, and never back. */
  function Observed(row: Option<State>, sn: Snapshot, updateCycle: bool): State {
    match row
    case None => State(sn.resetAt, sn.sampleAt, sn.usedPercent, sn.windowCost)
    case Some(st) =>
      State(if updateCycle && st.resetAt < sn.resetAt then sn.resetAt else st.resetAt,
            sn.sampleAt, sn.usedPercent, Coalesce(sn.windowCost, st.windowCost))
  }

  /** The row after `_upsert_state`, part of the transaction that creates an event. */
  function Confirmed(row: Option<State>, sn: Snapshot): State {
    State(sn.resetAt, sn.sampleAt, sn.usedPercent,
          Coalesce(sn.windowCost, if row.Some? then row.value.windowCost else None))
  }

  function WithObservation(db: Db, a: int, sn: Snapshot, updateCycle: bool): Db {
    db.(accounts := db.accounts[a := Observed(Row(db, a), sn, updateCycle)])
  }

  /** UNIQUE(event_key): the key stands for the pair of account and boundary. */
  predicate KeyTaken(events: seq<Event>, a: int, resetAt: int) {
    exists i | 0 <= i < |events| :: events[i].accountId == a && events[i].cycleResetAt == resetAt
  }

  /** What a reset verdict queues. `Withhold`: a dry run, or balance mode without its attribute definition. */
  datatype Plan =
    | Withhold
    | QueueSubscriptions(groupIds: seq<int>, windows: Windows, ids: seq<int>)
    | QueueBalances(groupIds: seq<int>, windows: Windows, rows: seq<(int, real)>)
  {
    function Ids(): seq<int> {
      match this
      case Withhold => []
      case QueueSubscriptions(_, _, ids) => ids
      case QueueBalances(_, _, rows) => Users(rows)
    }
  }

  function Users(rows: seq<(int, real)>): (ids: seq<int>)
    ensures |ids| == |rows| && forall i | 0 <= i < |rows| :: ids[i] == rows[i].0
  {
    seq(|rows|, i requires 0 <= i < |rows| => rows[i].0)
  }

  function BalanceRows(rows: seq<(int, real)>): map<int, BalanceRow> {
    if rows == [] then map[] else
      BalanceRows(rows[..|rows| - 1])[rows[|rows| - 1].0 := BalanceRow(rows[|rows| - 1].1, Pending)]
  }

  function ResetRows(ids: seq<int>): map<int, TargetStatus> {
    map id | id in ids :: Pending
  }

  function NewEvent(a: int, sn: Snapshot, plan: Plan): Event
    requires !plan.Withhold?
  {
    Event(a, sn.resetAt, plan.groupIds, plan.windows,
          if plan.QueueSubscriptions? then ResetRows(plan.ids) else map[],
          if plan.QueueBalances? then BalanceRows(plan.rows) else map[],
          false)
  }

  predicate Insertable(db: Db, a: int, sn: Snapshot, plan: Plan) {
    !KeyTaken(db.events, a, sn.resetAt) && NoDuplicates(plan.Ids())
  }

  /**
   `create_event` / `create_balance_event`: event, targets and boundary in one transaction, or, when
   a uniqueness constraint fails, a rollback followed by an observation that moves the boundary.
   */
  function WithEvent(db: Db, a: int, sn: Snapshot, plan: Plan): Db
    requires !plan.Withhold?
  {
    if Insertable(db, a, sn, plan) then
      Db(db.accounts[a := Confirmed(Row(db, a), sn)], db.events + [NewEvent(a, sn, plan)])
    else WithObservation(db, a, sn, true)
  }

  /** One iteration of the per-account loop of `main`. */
  function Polled(db: Db, p: Poll): Db {
    match Decide(Row(db, p.accountId), p.snapshot, p.thresholds)
    case Stale => db
    case Baseline => WithObservation(db, p.accountId, p.snapshot, true)
    case Suspicious | Observe | NotRearmed => WithObservation(db, p.accountId, p.snapshot, false)
    case Reset(_) =>
      if p.plan.Withhold? then db else WithEvent(db, p.accountId, p.snapshot, p.plan)
  }

  datatype Poll = Poll(accountId: int, snapshot: Snapshot, thresholds: Thresholds, plan: Plan)

  /** Any number of passes of the loop; a crash or a failed request only ends the sequence early. */
  function AllPolled(db: Db, polls: seq<Poll>): Db {
    if polls == [] then db else Polled(AllPolled(db, polls[..|polls| - 1]), polls[|polls| - 1])
  }

  function WithResetTarget(db: Db, event: nat, id: int, status: TargetStatus): Db {
    if event < |db.events| && id in db.events[event].resetTargets then
      db.(events := db.events[event := db.events[event].(
        resetTargets := db.events[event].resetTargets[id := status])])
    else db
  }

  predicate AllTerminal(targets: map<int, TargetStatus>) {
    forall id | id in targets :: targets[id].Terminal()
  }

  predicate AllSettled(rows: map<int, BalanceRow>) {
    forall id | id in rows :: rows[id].status.Terminal()
  }

  function WithBalanceRow(db: Db, event: nat, user: int, row: BalanceRow): Db {
    if event < |db.events| && user in db.events[event].balanceTargets then
      db.(events := db.events[event := db.events[event].(
        balanceTargets := db.events[event].balanceTargets[user := row])])
    else db
  }

  function Finished(e: Event): Event { e.(complete := AllTerminal(e.resetTargets)) }

  function BalanceFinished(e: Event): Event { e.(complete := AllSettled(e.balanceTargets)) }

  // ----- the store, updated in place -----

  class Store {
    var accounts: map<int, State>
    var events: seq<Event>

    function Contents(): (db: Db)
      reads this
    {
      Db(accounts, events)
    }

    constructor ()
      ensures Contents() == Db(map[], [])
    {
      accounts, events := map[], [];
    }

    method WriteObservation(a: int, sn: Snapshot, updateCycle: bool)
      modifies this`accounts
      ensures Contents() == WithObservation(old(Contents()), a, sn, updateCycle)
    {
      var cycle := sn.resetAt;
      var cost := sn.windowCost;
      if a in accounts {
        var existing := accounts[a];
        if !updateCycle || existing.resetAt >= sn.resetAt {
          cycle := existing.resetAt;
        }
        if cost.None? {
          cost := existing.windowCost;
        }
      }
      accounts := accounts[a := State(cycle, sn.sampleAt, sn.usedPercent, cost)];
    }

    /** None: a uniqueness constraint failed, the transaction rolled back and no event exists. */
    method CreateEvent(a: int, sn: Snapshot, groupIds: seq<int>, windows: Windows, ids: seq<int>)
      returns (event: Option<nat>)
      modifies this
      ensures Contents() == WithEvent(old(Contents()), a, sn, QueueSubscriptions(groupIds, windows, ids))
      ensures event.Some? <==> Insertable(old(Contents()), a, sn, QueueSubscriptions(groupIds, windows, ids))
      ensures event.Some? ==> event.value == |old(events)| == |events| - 1
      ensures event.Some? ==>
        forall id :: id in events[event.value].resetTargets <==> id in ids
      ensures event.Some? ==>
        forall id | id in events[event.value].resetTargets :: events[event.value].resetTargets[id] == Pending
    {
      if KeyTaken(events, a, sn.resetAt) {
        WriteObservation(a, sn, true);
        return None;
      }
      var rows: map<int, TargetStatus> := map[];
      for i := 0 to |ids|
        invariant NoDuplicates(ids[..i])
        invariant rows == ResetRows(ids[..i])
        invariant unchanged(this)
      {
        if ids[i] in rows {
          assert ids[i] in ids[..i];
          WriteObservation(a, sn, true);
          return None;
        }
        assert ids[..i + 1] == ids[..i] + [ids[i]];
        rows := rows[ids[i] := Pending];
      }
      assert ids[..|ids|] == ids;
      event := Some(|events|);
      events := events + [Event(a, sn.resetAt, groupIds, windows, rows, map[], false)];
      var cost := sn.windowCost;
      if cost.None? && a in accounts {
        cost := accounts[a].windowCost;
      }
      accounts := accounts[a := State(sn.resetAt, sn.sampleAt, sn.usedPercent, cost)];
    }

    method CreateBalanceEvent(a: int, sn: Snapshot, groupIds: seq<int>, windows: Windows, rows: seq<(int, real)>)
      returns (event: Option<nat>)
      modifies this
      ensures Contents() == WithEvent(old(Contents()), a, sn, QueueBalances(groupIds, windows, rows))
      ensures event.Some? <==> Insertable(old(Contents()), a, sn, QueueBalances(groupIds, windows, rows))
      ensures event.Some? ==> event.value == |old(events)| == |events| - 1
    {
      if KeyTaken(events, a, sn.resetAt) {
        WriteObservation(a, sn, true);
        return None;
      }
      var table: map<int, BalanceRow> := map[];
      for i := 0 to |rows|
        invariant NoDuplicates(Users(rows)[..i])
        invariant table == BalanceRows(rows[..i])
        invariant table.Keys == set k | 0 <= k < i :: rows[k].0
        invariant unchanged(this)
      {
        if rows[i].0 in table {
          assert rows[i].0 in Users(rows)[..i];
          WriteObservation(a, sn, true);
          return None;
        }
        assert rows[..i + 1][..i] == rows[..i];
        assert Users(rows)[..i + 1] == Users(rows)[..i] + [rows[i].0];
        table := table[rows[i].0 := BalanceRow(rows[i].1, Pending)];
      }
      assert rows[..|rows|] == rows && Users(rows)[..|rows|] == Users(rows);
      event := Some(|events|);
      events := events + [Event(a, sn.resetAt, groupIds, windows, map[], table, false)];
      var cost := sn.windowCost;
      if cost.None? && a in accounts {
        cost := accounts[a].windowCost;
      }
      accounts := accounts[a := State(sn.resetAt, sn.sampleAt, sn.usedPercent, cost)];
    }

    method MarkTarget(event: nat, id: int, status: TargetStatus)
      modifies this`events
      ensures Contents() == WithResetTarget(old(Contents()), event, id, status)
    {
      if event < |events| && id in events[event].resetTargets {
        var e := events[event];
        events := events[event := e.(resetTargets := e.resetTargets[id := status])];
      }
    }

    method FinishEvent(event: nat)
      requires event < |events|
      modifies this`events
      ensures events == old(events)[event := Finished(old(events)[event])]
    {
      var e := events[event];
      if exists id | id in e.resetTargets :: !e.resetTargets[id].Terminal() {
        events := events[event := e.(complete := false)];
      } else {
        events := events[event := e.(complete := true)];
      }
    }

    method MarkBalanceTarget(event: nat, user: int, status: TargetStatus)
      modifies this`events
      ensures Contents() ==
        if event < |old(events)| && user in old(events)[event].balanceTargets
        then WithBalanceRow(old(Contents()), event, user, old(events)[event].balanceTargets[user].(status := status))
        else old(Contents())
    {
      if event < |events| && user in events[event].balanceTargets {
        var e := events[event];
        events := events[event := e.(balanceTargets :=
          e.balanceTargets[user := e.balanceTargets[user].(status := status)])];
      }
    }

    method RetargetBalance(event: nat, user: int, target: real)
      modifies this`events
      ensures Contents() ==
        if event < |old(events)| && user in old(events)[event].balanceTargets
        then WithBalanceRow(old(Contents()), event, user, old(events)[event].balanceTargets[user].(target := target))
        else old(Contents())
    {
      if event < |events| && user in events[event].balanceTargets {
        var e := events[event];
        events := events[event := e.(balanceTargets :=
          e.balanceTargets[user := e.balanceTargets[user].(target := target)])];
      }
    }

    method FinishBalanceEvent(event: nat)
      requires event < |events|
      modifies this`events
      ensures events == old(events)[event := BalanceFinished(old(events)[event])]
    {
      var e := events[event];
      if exists user | user in e.balanceTargets :: !e.balanceTargets[user].status.Terminal() {
        events := events[event := e.(complete := false)];
      } else {
        events := events[event := e.(complete := true)];
      }
    }
  }

  /** The per-account loop of `main`. */
  method PollAccounts(store: Store, polls: seq<Poll>)
    modifies store
    ensures store.Contents() == AllPolled(old(store.Contents()), polls)
  {
    for i := 0 to |polls|
      invariant store.Contents() == AllPolled(old(store.Contents()), polls[..i])
    {
      assert polls[..i + 1][..i] == polls[..i];
      var p := polls[i];
      var row := if p.accountId in store.accounts then Some(store.accounts[p.accountId]) else None;
      match Decide(row, p.snapshot, p.thresholds) {
        case Stale =>
        case Baseline =>
          store.WriteObservation(p.accountId, p.snapshot, true);
        case Suspicious | Observe | NotRearmed =>
          store.WriteObservation(p.accountId, p.snapshot, false);
        case Reset(_) =>
          match p.plan {
            case Withhold =>
            case QueueSubscriptions(groupIds, windows, ids) =>
              var _ := store.CreateEvent(p.accountId, p.snapshot, groupIds, windows, ids);
            case QueueBalances(groupIds, windows, rows) =>
              var _ := store.CreateBalanceEvent(p.accountId, p.snapshot, groupIds, windows, rows);
          }
      }
    }
    assert polls[..|polls|] == polls;
  }
}
