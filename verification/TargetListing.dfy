/** How the targets of an event are listed: distinct by construction, and never with a zero balance. */
module TargetListing {
  import opened Common
  import opened StateStore
  import opened HostCycle
  import opened RetryEngine
  import opened EventPass

  /** One item of a group's subscription page; its id may be missing or unreadable. */
  datatype Item = Item(id: Option<int>, sub: Subscription)

  /** The last item listed under each id, over all groups and pages in order. */
  function Latest(items: seq<Item>): map<int, Subscription> {
    if items == [] then map[] else
      var last := items[|items| - 1];
      var before := Latest(items[..|items| - 1]);
      if last.id.Some? then before[last.id.value := last.sub] else before
  }

  function Flatten(groups: seq<seq<Item>>): seq<Item> {
    if groups == [] then [] else Flatten(groups[..|groups| - 1]) + groups[|groups| - 1]
  }

  /** The last item with the id is at this position. */
  predicate LastAt(items: seq<Item>, k: nat, id: int) {
    && k < |items| && items[k].id == Some(id)
    && forall j | k < j < |items| :: items[j].id != Some(id)
  }

  /** A listed id has a last item. */
  lemma {:induction false} ListedHasLast(items: seq<Item>, id: int) returns (k: nat)
    requires id in Latest(items)
    ensures LastAt(items, k, id)
  {
    var n := |items| - 1;
    if items[n].id == Some(id) {
      k := n;
    } else {
      k := ListedHasLast(items[..n], id);
      assert forall j | k < j < n :: items[..n][j] == items[j];
    }
  }

  /** The last item with an id is the one that is listed. */
  lemma {:induction false} LatestIsLast(items: seq<Item>, id: int, k: nat)
    requires LastAt(items, k, id)
    ensures id in Latest(items) && Latest(items)[id] == items[k].sub
  {
    var n := |items| - 1;
    if k < n {
      assert LastAt(items[..n], k, id);
      LatestIsLast(items[..n], id, k);
      assert items[n].id != Some(id);
    }
  }

  /** Pages are read one after the other. */
  lemma {:induction false} FlattenInOrder(a: seq<seq<Item>>, b: seq<seq<Item>>, page: seq<Item>)
    ensures Flatten(a + b) == Flatten(a) + Flatten(b)
    ensures Flatten([page]) == page
  {
    assert [page][..0] == [];
    if b == [] {
      assert a + b == a;
    } else {
      var n := |b| - 1;
      assert (a + b)[..|a + b| - 1] == a + b[..n];
      FlattenInOrder(a, b[..n], page);
    }
  }

  method AddPage(ghost before: seq<Item>, listed: map<int, Subscription>, page: seq<Item>)
    returns (targets: map<int, Subscription>)
    requires listed == Latest(before)
    ensures targets == Latest(before + page)
  {
    targets := listed;
    assert before + page[..0] == before;
    for k := 0 to |page|
      invariant targets == Latest(before + page[..k])
    {
      assert (before + page[..k + 1])[..|before| + k] == before + page[..k];
      if page[k].id.Some? {
        targets := targets[page[k].id.value := page[k].sub];
      }
    }
    assert page[..|page|] == page;
  }

  method CollectById(groups: seq<seq<Item>>) returns (targets: map<int, Subscription>)
    ensures targets == Latest(Flatten(groups))
  {
    targets := map[];
    for g := 0 to |groups|
      invariant targets == Latest(Flatten(groups[..g]))
    {
      targets := AddPage(Flatten(groups[..g]), targets, groups[g]);
      assert groups[..g + 1][..g] == groups[..g];
    }
    assert groups[..|groups|] == groups;
  }

  /** `AdminApi.subscriptions`: a dictionary by id, returned in ascending order of id. */
  method Subscriptions(groups: seq<seq<Item>>) returns (rows: seq<(int, Subscription)>)
    ensures forall i, j | 0 <= i < j < |rows| :: rows[i].0 < rows[j].0
    ensures forall i | 0 <= i < |rows| ::
      rows[i].0 in Latest(Flatten(groups)) && rows[i].1 == Latest(Flatten(groups))[rows[i].0]
    ensures forall id | id in Latest(Flatten(groups)) :: exists i :: 0 <= i < |rows| && rows[i].0 == id
  {
    var targets := CollectById(groups);
    var keys := SortedIds(targets.Keys);
    rows := [];
    for i := 0 to |keys|
      invariant |rows| == i
      invariant forall k | 0 <= k < i :: rows[k] == (keys[k], targets[keys[k]])
    {
      assert keys[i] in keys;
      rows := rows + [(keys[i], targets[keys[i]])];
    }
    forall id | id in targets ensures exists i :: 0 <= i < |rows| && rows[i].0 == id {
      assert id in keys;
      var i :| 0 <= i < |keys| && keys[i] == id;
      assert rows[i].0 == id;
    }
  }

  /** `eligible_targets`: the ids whose latest row is in a target group, active, not deleted and not expired. */
  method EligibleTargets(groups: seq<seq<Item>>, groupIds: seq<int>, now: int) returns (ids: seq<int>)
    ensures StrictlyIncreasing(ids) && NoDuplicates(ids)
    ensures forall id :: id in ids <==>
      && id in Latest(Flatten(groups))
      && var row := Latest(Flatten(groups))[id];
      row.groupId in groupIds && row.active && !row.deleted && row.expiresAt > now
  {
    var rows := Subscriptions(groups);
    ids := [];
    for i := 0 to |rows|
      invariant StrictlyIncreasing(ids)
      invariant forall id | id in ids :: exists k :: 0 <= k < i && rows[k].0 == id && Eligible(rows[k].1, groupIds, now)
      invariant forall k | 0 <= k < i && Eligible(rows[k].1, groupIds, now) :: rows[k].0 in ids
    {
      if Eligible(rows[i].1, groupIds, now) {
        assert forall k | 0 <= k < |ids| :: ids[k] in ids;
        ids := ids + [rows[i].0];
      }
    }
  }

  /** The user's attribute is a positive number. */
  predicate HasBalance(attributes: map<int, RawValue>, user: int) {
    user in attributes && attributes[user].Number? && attributes[user].value > 0.0
  }

  lemma {:induction false} UsersSnoc(targets: seq<(int, real)>, user: int, value: real)
    ensures Users(targets + [(user, value)]) == Users(targets) + [user]
  {
  }

  /** What has been collected of these users: targets with their own positive balance, ascending, and warnings. */
  ghost predicate Collected(attributes: map<int, RawValue>, users: seq<int>, targets: seq<(int, real)>,
                            warnings: seq<int>)
  {
    && StrictlyIncreasing(Users(targets))
    && (forall i | 0 <= i < |targets| ::
          && targets[i].1 > 0.0
          && targets[i].0 in attributes && attributes[targets[i].0] == Number(targets[i].1))
    && (forall user :: user in Users(targets) <==> user in users && HasBalance(attributes, user))
    && forall user :: user in warnings <==> user in users && !HasBalance(attributes, user)
  }

  lemma {:induction false} CollectedTarget(attributes: map<int, RawValue>, users: seq<int>, user: int,
                                           targets: seq<(int, real)>, warnings: seq<int>)
    requires Collected(attributes, users, targets, warnings) && HasBalance(attributes, user)
    requires forall x | x in users :: x < user
    ensures Collected(attributes, users + [user], targets + [(user, attributes[user].value)], warnings)
  {
    var ids := Users(targets);
    UsersSnoc(targets, user, attributes[user].value);
    assert forall i | 0 <= i < |ids| :: ids[i] in ids;
  }

  lemma {:induction false} CollectedWarning(attributes: map<int, RawValue>, users: seq<int>, user: int,
                                            targets: seq<(int, real)>, warnings: seq<int>)
    requires Collected(attributes, users, targets, warnings) && !HasBalance(attributes, user)
    ensures Collected(attributes, users + [user], targets, warnings + [user])
  {
  }

  /** `collect_balance_targets`: each user is either a target with a positive balance or a warning. */
  method CollectBalanceTargets(attributes: map<int, RawValue>, userIds: seq<int>)
    returns (targets: seq<(int, real)>, warnings: seq<int>)
    ensures StrictlyIncreasing(Users(targets)) && NoDuplicates(Users(targets))
    ensures forall i | 0 <= i < |targets| ::
      && targets[i].1 > 0.0
      && targets[i].0 in attributes && attributes[targets[i].0] == Number(targets[i].1)
    ensures forall user :: user in Users(targets) <==> user in userIds && HasBalance(attributes, user)
    ensures forall user :: user in warnings <==> user in userIds && !HasBalance(attributes, user)
  {
    var users := SortedIds(set user | user in userIds);
    targets, warnings := [], [];
    for i := 0 to |users|
      invariant Collected(attributes, users[..i], targets, warnings)
    {
      var user := users[i];
      assert users[..i + 1] == users[..i] + [user];
      var value := ParseBalance(if user in attributes then attributes[user] else Absent);
      if value.None? {
        CollectedWarning(attributes, users[..i], user, targets, warnings);
        warnings := warnings + [user];
      } else {
        CollectedTarget(attributes, users[..i], user, targets, warnings);
        targets := targets + [(user, value.value)];
      }
    }
    assert users[..|users|] == users;
  }
}
