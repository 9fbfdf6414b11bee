/**
 The per-sender sliding window of `transfer_server.py`: the pruned deque against the full history
 of allowed calls. Clock readings are integers, taken before the lock; lists are in lock order.
 */
module RateLimiter {
  // ----- the deque -----

  function Pruned(queue: seq<int>, edge: int): seq<int> {
    if queue != [] && queue[0] <= edge then Pruned(queue[1..], edge) else queue
  }

  class Limiter {
    const limit: nat
    const window: nat
    var events: map<int, seq<int>>

    constructor (limit: nat, window: nat)
      ensures this.limit == limit && this.window == window && events == map[]
    {
      this.limit, this.window := limit, window;
      events := map[];
    }

    method Allow(key: int, now: int) returns (allowed: bool)
      modifies this
      ensures var queue := if key in old(events) then old(events)[key] else [];
              && allowed == Allows(queue, limit, window, now)
              && events == old(events)[key := Next(queue, limit, window, now)]
    {
      var queue: seq<int> := if key in events then events[key] else [];
      ghost var before := queue;
      while queue != [] && queue[0] <= now - window
        invariant Pruned(queue, now - window) == Pruned(before, now - window)
        decreases |queue|
      {
        queue := queue[1..];
      }
      events := events[key := queue];
      if |queue| >= limit {
        return false;
      }
      events := events[key := queue + [now]];
      return true;
    }
  }

  function Allows(queue: seq<int>, limit: nat, window: nat, now: int): bool {
    |Pruned(queue, now - window)| < limit
  }

  function Next(queue: seq<int>, limit: nat, window: nat, now: int): seq<int> {
    var kept := Pruned(queue, now - window);
    if |kept| < limit then kept + [now] else kept
  }

  /** One sender's deque after its calls. */
  function Queue(calls: seq<int>, limit: nat, window: nat): seq<int> {
    if calls == [] then [] else
      Next(Queue(calls[..|calls| - 1], limit, window), limit, window, calls[|calls| - 1])
  }

  /** The readings of the calls the limiter allowed. */
  function Granted(calls: seq<int>, limit: nat, window: nat): seq<int> {
    if calls == [] then [] else
      var n := |calls| - 1;
      Granted(calls[..n], limit, window)
        + if Allows(Queue(calls[..n], limit, window), limit, window, calls[n]) then [calls[n]] else []
  }

  // ----- the full history -----

  function CountIn(times: seq<int>, after: int, upTo: int): nat {
    if times == [] then 0 else
      var t := times[|times| - 1];
      CountIn(times[..|times| - 1], after, upTo) + if after < t <= upTo then 1 else 0
  }

  predicate Nondecreasing(times: seq<int>) {
    forall i, j | 0 <= i <= j < |times| :: times[i] <= times[j]
  }

  lemma {:induction false} CountConcat(a: seq<int>, b: seq<int>, after: int, upTo: int)
    ensures CountIn(a + b, after, upTo) == CountIn(a, after, upTo) + CountIn(b, after, upTo)
  {
    if b == [] {
      assert a + b == a;
    } else {
      var n := |b| - 1;
      assert (a + b)[..|a + b| - 1] == a + b[..n];
      CountConcat(a, b[..n], after, upTo);
    }
  }

  predicate UpTo(times: seq<int>, x: int) {
    forall i | 0 <= i < |times| :: times[i] <= x
  }

  predicate Beyond(times: seq<int>, x: int) {
    forall i | 0 <= i < |times| :: times[i] > x
  }

  lemma {:induction false} CountNone(a: seq<int>, after: int, upTo: int)
    requires UpTo(a, after)
    ensures CountIn(a, after, upTo) == 0
  {
    if a != [] {
      CountNone(a[..|a| - 1], after, upTo);
    }
  }

  lemma {:induction false} CountAll(a: seq<int>, after: int, upTo: int)
    requires Beyond(a, after) && UpTo(a, upTo)
    ensures CountIn(a, after, upTo) == |a|
  {
    if a != [] {
      CountAll(a[..|a| - 1], after, upTo);
    }
  }

  lemma {:induction false} CountOne(t: int, after: int, upTo: int)
    ensures CountIn([t], after, upTo) == if after < t <= upTo then 1 else 0
  {
    assert [t][..0] == [];
  }

  /** A wider interval holds at least as many. */
  lemma {:induction false} CountWider(a: seq<int>, after: int, upTo: int, earlier: int, later: int)
    requires earlier <= after && UpTo(a, later)
    ensures CountIn(a, after, upTo) <= CountIn(a, earlier, later)
  {
    if a != [] {
      CountWider(a[..|a| - 1], after, upTo, earlier, later);
    }
  }

  lemma {:induction false} UpToParts(a: seq<int>, b: seq<int>, x: int)
    ensures UpTo(a + b, x) <==> UpTo(a, x) && UpTo(b, x)
  {
    assert forall i | 0 <= i < |a| :: (a + b)[i] == a[i];
    assert forall i | 0 <= i < |b| :: (a + b)[|a| + i] == b[i];
  }

  lemma {:induction false} OrderedTail(queue: seq<int>)
    requires Nondecreasing(queue) && queue != []
    ensures Nondecreasing(queue[1..]) && Beyond(queue, queue[0] - 1)
  {
    forall i, j | 0 <= i <= j < |queue[1..]| ensures queue[1..][i] <= queue[1..][j] {
      assert queue[i + 1] <= queue[j + 1];
    }
  }

  lemma {:induction false} Regrouped(a: seq<int>, b: seq<int>, c: seq<int>)
    ensures a + (b + c) == (a + b) + c
  {
  }

  /** On an ordered deque, pruning splits off exactly the entries at or before the edge. */
  lemma {:induction false} PrunedSplits(queue: seq<int>, edge: int) returns (gone: seq<int>)
    requires Nondecreasing(queue)
    ensures queue == gone + Pruned(queue, edge)
    ensures UpTo(gone, edge)
    ensures Beyond(Pruned(queue, edge), edge) && Nondecreasing(Pruned(queue, edge))
  {
    gone := [];
    if queue != [] {
      OrderedTail(queue);
      if queue[0] <= edge {
        var rest := PrunedSplits(queue[1..], edge);
        gone := [queue[0]] + rest;
        UpToParts([queue[0]], rest, edge);
        Regrouped([queue[0]], rest, Pruned(queue[1..], edge));
        assert queue == [queue[0]] + queue[1..];
      }
    }
  }

  lemma {:induction false} AppendNondecreasing(a: seq<int>, t: int)
    requires Nondecreasing(a) && UpTo(a, t)
    ensures Nondecreasing(a + [t])
  {
  }

  /** Moving a cut from one end of the middle part to the other. */
  lemma {:induction false} MovedCut(earlier: seq<int>, dropped: seq<int>, kept: seq<int>, last: seq<int>)
    ensures earlier + (dropped + kept) + last == (earlier + dropped) + (kept + last)
  {
  }

  /** What pruning and one more call leave of an ordered deque. */
  lemma {:induction false} NextOrdered(queue: seq<int>, limit: nat, window: nat, now: int)
    requires Nondecreasing(Pruned(queue, now - window)) && UpTo(Pruned(queue, now - window), now)
    ensures Nondecreasing(Next(queue, limit, window, now)) && UpTo(Next(queue, limit, window, now), now)
  {
    AppendNondecreasing(Pruned(queue, now - window), now);
    UpToParts(Pruned(queue, now - window), [now], now);
  }

  /** One more call: what the history gains, the deque gains; what the deque loses is out of the window. */
  lemma {:induction false} OneMoreCall(history: seq<int>, earlier: seq<int>, queue: seq<int>, now: int, limit: nat,
                                       window: nat)
    returns (gone: seq<int>)
    requires history == earlier + queue && Nondecreasing(queue) && UpTo(queue, now)
    requires UpTo(earlier, now - window)
    ensures history + (if Allows(queue, limit, window, now) then [now] else [])
         == gone + Next(queue, limit, window, now)
    ensures UpTo(gone, now - window)
    ensures Nondecreasing(Next(queue, limit, window, now)) && UpTo(Next(queue, limit, window, now), now)
  {
    var dropped := PrunedSplits(queue, now - window);
    var kept := Pruned(queue, now - window);
    gone := earlier + dropped;
    assert UpTo(gone, now - window) by {
      UpToParts(earlier, dropped, now - window);
    }
    assert UpTo(kept, now) by {
      UpToParts(dropped, kept, now);
    }
    NextOrdered(queue, limit, window, now);
    if Allows(queue, limit, window, now) {
      MovedCut(earlier, dropped, kept, [now]);
    } else {
      Regrouped(earlier, dropped, kept);
      assert history + [] == history;
    }
  }

  /** The deque is the tail of the history; what it has dropped no later window can reach. */
  lemma {:induction false} QueueIsRecentHistory(calls: seq<int>, limit: nat, window: nat) returns (gone: seq<int>)
    requires Nondecreasing(calls)
    ensures Granted(calls, limit, window) == gone + Queue(calls, limit, window)
    ensures Nondecreasing(Queue(calls, limit, window))
    ensures if calls == [] then gone == []
            else UpTo(gone, calls[|calls| - 1] - window) && UpTo(Queue(calls, limit, window), calls[|calls| - 1])
  {
    if calls == [] {
      gone := [];
    } else {
      var n := |calls| - 1;
      var earlier := QueueIsRecentHistory(calls[..n], limit, window);
      gone := OneMoreCall(Granted(calls[..n], limit, window), earlier, Queue(calls[..n], limit, window),
                          calls[n], limit, window);
    }
  }

  lemma {:induction false} OrderedPrefix(calls: seq<int>, now: int)
    requires Nondecreasing(calls + [now])
    ensures Nondecreasing(calls) && UpTo(calls, now)
  {
    assert forall i | 0 <= i < |calls| :: (calls + [now])[i] == calls[i];
    assert (calls + [now])[|calls|] == now;
  }

  /** What pruning keeps is what the window still counts. */
  lemma {:induction false} PrunedCounts(queue: seq<int>, edge: int, now: int)
    requires Nondecreasing(queue) && UpTo(queue, now)
    ensures |Pruned(queue, edge)| == CountIn(queue, edge, now)
  {
    var dropped := PrunedSplits(queue, edge);
    var kept := Pruned(queue, edge);
    UpToParts(dropped, kept, now);
    CountConcat(dropped, kept, edge, now);
    CountNone(dropped, edge, now);
    CountAll(kept, edge, now);
  }

  /** Of a history whose first part is out of the window, the window counts what pruning the second leaves. */
  lemma {:induction false} SplitCount(gone: seq<int>, queue: seq<int>, after: int, upTo: int)
    requires UpTo(gone, after) && Nondecreasing(queue) && UpTo(queue, upTo)
    ensures CountIn(gone + queue, after, upTo) == |Pruned(queue, after)|
  {
    CountConcat(gone, queue, after, upTo);
    CountNone(gone, after, upTo);
    PrunedCounts(queue, after, upTo);
  }

  /**
   With readings nondecreasing in lock order, a call is refused exactly when `limit` calls were
   already allowed within the window that ends at it.
   */
  lemma {:induction false} DequeRefinesHistory(calls: seq<int>, now: int, limit: nat, window: nat)
    requires Nondecreasing(calls + [now])
    ensures Allows(Queue(calls, limit, window), limit, window, now)
       <==> CountIn(Granted(calls, limit, window), now - window, now) < limit
  {
    OrderedPrefix(calls, now);
    var gone := QueueIsRecentHistory(calls, limit, window);
    SplitCount(gone, Queue(calls, limit, window), now - window, now);
  }

  lemma {:induction false} GrantedNotLater(calls: seq<int>, limit: nat, window: nat, now: int)
    requires Nondecreasing(calls + [now])
    ensures UpTo(Granted(calls, limit, window), now)
  {
    OrderedPrefix(calls, now);
    var gone := QueueIsRecentHistory(calls, limit, window);
    UpToParts(gone, Queue(calls, limit, window), now);
  }

  /** The call at `now` was allowed, so the windows it falls into had room. */
  lemma {:induction false} RoomForOneMore(calls: seq<int>, now: int, limit: nat, window: nat, end: int)
    requires Nondecreasing(calls + [now]) && now <= end
    requires Allows(Queue(calls, limit, window), limit, window, now)
    ensures CountIn(Granted(calls, limit, window), end - window, end) < limit
  {
    DequeRefinesHistory(calls, now, limit, window);
    GrantedNotLater(calls, limit, window, now);
    CountWider(Granted(calls, limit, window), end - window, end, now - window, now);
  }

  /** One more call keeps a window within the limit. */
  lemma {:induction false} WindowStep(calls: seq<int>, now: int, limit: nat, window: nat, end: int)
    requires Nondecreasing(calls + [now])
    requires CountIn(Granted(calls, limit, window), end - window, end) <= limit
    ensures CountIn(Granted(calls + [now], limit, window), end - window, end) <= limit
  {
    var before := Granted(calls, limit, window);
    OneMoreGrant(calls, now, limit, window);
    if Allows(Queue(calls, limit, window), limit, window, now) {
      CountConcat(before, [now], end - window, end);
      CountOne(now, end - window, end);
      if now <= end {
        RoomForOneMore(calls, now, limit, window, end);
      }
    }
  }

  /** A call appends its reading to the granted ones if it is allowed, and leaves them otherwise. */
  lemma {:induction false} OneMoreGrant(calls: seq<int>, now: int, limit: nat, window: nat)
    ensures Queue(calls + [now], limit, window) == Next(Queue(calls, limit, window), limit, window, now)
    ensures Granted(calls + [now], limit, window)
         == if Allows(Queue(calls, limit, window), limit, window, now)
            then Granted(calls, limit, window) + [now] else Granted(calls, limit, window)
  {
    assert (calls + [now])[..|calls|] == calls;
    assert Granted(calls, limit, window) + [] == Granted(calls, limit, window);
  }

  /** No window of that length, wherever it ends, holds more than `limit` allowed calls. */
  lemma {:induction false} WindowHoldsAtMostLimit(calls: seq<int>, limit: nat, window: nat, end: int)
    requires Nondecreasing(calls)
    ensures CountIn(Granted(calls, limit, window), end - window, end) <= limit
  {
    if calls != [] {
      var front, now := calls[..|calls| - 1], calls[|calls| - 1];
      assert calls == front + [now];
      OrderedPrefix(front, now);
      WindowHoldsAtMostLimit(front, limit, window, end);
      WindowStep(front, now, limit, window, end);
    }
  }

  // ----- readings out of order -----

  /** The refusal rule: a call is allowed exactly when fewer than `limit` were allowed in (now - window, now]. */
  predicate LikeHistory(calls: seq<int>, limit: nat, window: nat, now: int) {
    Allows(Queue(calls, limit, window), limit, window, now)
      == (CountIn(Granted(calls, limit, window), now - window, now) < limit)
  }

  /** After any ordered calls ending with reading a, the call with reading b is judged by the rule. */
  ghost predicate JudgesLikeHistory(limit: nat, window: nat, a: int, b: int) {
    forall calls: seq<int> :: Nondecreasing(calls + [a]) ==> LikeHistory(calls + [a], limit, window, b)
  }

  function Burst(t: int, k: nat): (s: seq<int>)
    ensures |s| == k && forall i | 0 <= i < k :: s[i] == t
  {
    if k == 0 then [] else Burst(t, k - 1) + [t]
  }

  /** A burst of calls at one reading, no more than the limit, is all allowed and all queued. */
  lemma {:induction false} BurstIsGranted(t: int, k: nat, limit: nat, window: nat)
    requires k <= limit && window > 0
    ensures Queue(Burst(t, k), limit, window) == Burst(t, k)
    ensures Granted(Burst(t, k), limit, window) == Burst(t, k)
  {
    if k > 0 {
      BurstIsGranted(t, k - 1, limit, window);
      OneMoreGrant(Burst(t, k - 1), t, limit, window);
      assert Pruned(Burst(t, k - 1), t - window) == Burst(t, k - 1);
    }
  }

  lemma {:induction false} PruneEverything(queue: seq<int>, edge: int)
    requires UpTo(queue, edge)
    ensures Pruned(queue, edge) == []
  {
    if queue != [] {
      PruneEverything(queue[1..], edge);
    }
  }

  /** Nothing allowed after a reading counts at it. */
  lemma {:induction false} CountEarlier(a: seq<int>, after: int, upTo: int)
    requires Beyond(a, upTo)
    ensures CountIn(a, after, upTo) == 0
  {
    if a != [] {
      CountEarlier(a[..|a| - 1], after, upTo);
    }
  }

  /** Where the deque is a full burst of later readings, the call is refused though its own window is empty. */
  lemma {:induction false} RefusedBehindBurst(burst: seq<int>, limit: nat, window: nat, b: int)
    requires limit >= 1 && |burst| == limit && Beyond(burst, b)
    requires Queue(burst, limit, window) == burst && Granted(burst, limit, window) == burst
    ensures !LikeHistory(burst, limit, window, b)
  {
    CountEarlier(burst, b - window, b);
    assert Pruned(burst, b - window) == burst;
  }

  /** A full burst served first makes an earlier reading find the deque full. */
  lemma {:induction false} LateReadingRefused(limit: nat, window: nat, a: int, b: int)
    requires limit >= 1 && window > 0 && b < a
    ensures !JudgesLikeHistory(limit, window, a, b)
  {
    assert !LikeHistory(Burst(a, limit - 1) + [a], limit, window, b) by {
      BurstIsGranted(a, limit, limit, window);
      RefusedBehindBurst(Burst(a, limit), limit, window, b);
    }
    assert Nondecreasing(Burst(a, limit - 1) + [a]);
  }

  /**
   A call is judged by the refusal rule after every past if and only if readings come in order, or nothing is
   ever allowed.
   */
  lemma {:induction false} JudgesLikeHistoryIffOrdered(limit: nat, window: nat, a: int, b: int)
    requires window > 0
    ensures JudgesLikeHistory(limit, window, a, b) <==> a <= b || limit == 0
  {
    if limit >= 1 && b < a {
      LateReadingRefused(limit, window, a, b);
    } else if limit >= 1 {
      forall calls: seq<int> | Nondecreasing(calls + [a]) ensures LikeHistory(calls + [a], limit, window, b) {
        UpToParts(calls, [a], b);
        OrderedPrefix(calls, a);
        AppendNondecreasing(calls + [a], b);
        DequeRefinesHistory(calls + [a], b, limit, window);
      }
    }
  }

  /** Whatever the order of its readings, no window of the limiter's grants is overfull. */
  ghost predicate NeverOverfull(limit: nat, window: nat) {
    forall calls: seq<int>, end: int :: WindowOk(calls, limit, window, end)
  }

  predicate WindowOk(calls: seq<int>, limit: nat, window: nat, end: int) {
    CountIn(Granted(calls, limit, window), end - window, end) <= limit
  }

  ghost predicate Apart(times: seq<int>, window: nat) {
    forall i | 0 < i < |times| :: times[i - 1] + window <= times[i]
  }

  function Newest(times: seq<int>): seq<int> {
    if times == [] then [] else [times[|times| - 1]]
  }

  lemma {:induction false} PrunedOne(last: int, edge: int)
    ensures Pruned([last], edge) == if last <= edge then [] else [last]
  {
    assert [last][1..] == [];
  }

  /** With one slot, a call is granted only a window after the last grant. */
  lemma {:induction false} OneSlotStep(granted: seq<int>, window: nat, now: int)
    requires Apart(granted, window)
    ensures if Allows(Newest(granted), 1, window, now)
            then Apart(granted + [now], window) && Next(Newest(granted), 1, window, now) == Newest(granted + [now])
            else Next(Newest(granted), 1, window, now) == Newest(granted)
  {
    if granted != [] {
      PrunedOne(granted[|granted| - 1], now - window);
    }
  }

  /** With one slot, the deque is the last grant, and grants are a window apart. */
  lemma {:induction false} OneSlotHolds(calls: seq<int>, window: nat)
    ensures Queue(calls, 1, window) == Newest(Granted(calls, 1, window)) && Apart(Granted(calls, 1, window), window)
  {
    if calls != [] {
      var front, now := calls[..|calls| - 1], calls[|calls| - 1];
      OneSlotHolds(front, window);
      OneSlotStep(Granted(front, 1, window), window, now);
      OneMoreGrant(front, now, 1, window);
      assert calls == front + [now];
    }
  }

  /** Readings a window apart: at most one of them in any window. */
  lemma {:induction false} ApartCount(times: seq<int>, window: nat, end: int)
    requires Apart(times, window)
    ensures CountIn(times, end - window, end) <= 1
    ensures times != [] && times[|times| - 1] <= end - window ==> CountIn(times, end - window, end) == 0
  {
    if times != [] {
      ApartCount(times[..|times| - 1], window, end);
    }
  }

  /** After a full burst, a call that empties the deque, and an earlier one that finds room: all are granted. */
  lemma {:induction false} OverfullGrants(burst: seq<int>, limit: nat, window: nat)
    requires limit >= 2 && window > 0 && UpTo(burst, 0)
    requires Queue(burst, limit, window) == burst && Granted(burst, limit, window) == burst
    ensures Granted(burst + [window] + [0], limit, window) == burst + [window] + [0]
  {
    PruneEverything(burst, 0);
    OneMoreGrant(burst, window, limit, window);
    assert Queue(burst + [window], limit, window) == [window];
    assert Pruned([window], 0 - window) == [window];
    OneMoreGrant(burst + [window], 0, limit, window);
  }

  lemma {:induction false} OverfullCount(burst: seq<int>, window: nat)
    requires window > 0 && UpTo(burst, 0) && Beyond(burst, 0 - window)
    ensures CountIn(burst + [window] + [0], 0 - window, 0) == |burst| + 1
  {
    CountAll(burst, 0 - window, 0);
    CountConcat(burst, [window], 0 - window, 0);
    CountConcat(burst + [window], [0], 0 - window, 0);
    CountOne(window, 0 - window, 0);
    CountOne(0, 0 - window, 0);
  }

  /** The limit's worth of calls at one time, one a window later, and one more at the first time: an overfull window. */
  lemma {:induction false} LateReadingOverfills(limit: nat, window: nat)
    requires limit >= 2 && window > 0
    ensures !NeverOverfull(limit, window)
  {
    var burst := Burst(0, limit);
    var calls := burst + [window] + [0];
    assert Granted(calls, limit, window) == calls by {
      BurstIsGranted(0, limit, limit, window);
      OverfullGrants(burst, limit, window);
    }
    OverfullCount(burst, window);
    assert !WindowOk(calls, limit, window, 0);
  }

  /** Readings in any order keep every window within the limit if and only if the limit is at most one. */
  lemma {:induction false} NeverOverfullIff(limit: nat, window: nat)
    requires window > 0
    ensures NeverOverfull(limit, window) <==> limit <= 1
  {
    if limit >= 2 {
      LateReadingOverfills(limit, window);
    } else {
      forall calls: seq<int>, end: int ensures WindowOk(calls, limit, window, end) {
        if limit == 1 {
          OneSlotHolds(calls, window);
          ApartCount(Granted(calls, 1, window), window, end);
        } else {
          NothingGranted(calls, window);
        }
      }
    }
  }

  lemma {:induction false} NothingGranted(calls: seq<int>, window: nat)
    ensures Granted(calls, 0, window) == []
  {
    if calls != [] {
      NothingGranted(calls[..|calls| - 1], window);
    }
  }
}
