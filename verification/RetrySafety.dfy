/**
 Retries, crashes, lost and late requests and other actors on one subscription. The executor visits its
 targets one at a time; it may die between any two steps of a visit, and between any two steps the
 host row may change by itself or the host may carry out a request whose sender no longer waits for it.
 Events are identified by their position; all are frozen at creation. The host's clock never runs back.
 */
module RetrySafety {
  import opened Common
  import opened StateStore
  import opened HostCycle
  import opened RetryEngine

  /**
   `clears` counts, per cycle, how often the host cleared usage on behalf of an event of that cycle;
   `sent` are the events for which a request has left, whatever its sender was told.
   */
  datatype World = World(
    host: Option<Subscription>,
    status: seq<TargetStatus>,
    clears: map<int, nat>,
    busy: Option<(nat, Pc)>,
    sent: set<nat>,
    clock: int)

  datatype Action =
    | Begin(event: nat)
    | Advance(faults: Faults)
    | Late(event: nat, faults: Faults)
    | Crash
    | Outside(row: Option<Subscription>)

  function Clears(w: World, cycle: int): nat {
    if cycle in w.clears then w.clears[cycle] else 0
  }

  /** A window that an event selects and has been applied to moves only to a start at or after that event's cycle. */
  ghost predicate Rolls(evs: seq<Event>, selects: Windows -> bool, before: Option<int>, after: Option<int>) {
    after == before
    || forall i | 0 <= i < |evs| && selects(evs[i].windows) && WindowApplied(before, evs[i].cycleResetAt) ::
         after.Some? && after.value >= evs[i].cycleResetAt
  }

  /** What other actors may do: use quota, expire, disable, regroup or delete the row, roll windows over. */
  ghost predicate Rely(evs: seq<Event>, before: Option<Subscription>, after: Option<Subscription>) {
    && (before.None? ==> after.None?)
    && (before.Some? && after.Some? ==>
          && Rolls(evs, (w: Windows) => w.weekly, before.value.weeklyStart, after.value.weeklyStart)
          && Rolls(evs, (w: Windows) => w.monthly, before.value.monthlyStart, after.value.monthlyStart))
  }

  /** The host carries a request of event i out, at its own time; nobody may be listening. */
  function Requested(evs: seq<Event>, w: World, i: nat, f: Faults): World
    requires i < |evs|
  {
    var (after, _, cleared) := PostStep(w.host, evs[i], f);
    var cycle := evs[i].cycleResetAt;
    w.(host := after, clears := if cleared then w.clears[cycle := Clears(w, cycle) + 1] else w.clears,
       sent := w.sent + {i}, clock := f.hostNow)
  }

  /** A step of the visit that is not its request. */
  function Moved(evs: seq<Event>, w: World, i: nat, pc: Pc, f: Faults): World
    requires i < |evs| && i < |w.status| && !pc.Post?
  {
    var v := VisitStep(Visit(pc, w.status[i], w.host, false, false), evs[i], f);
    w.(status := w.status[i := v.status], busy := if v.pc.Over? then None else Some((i, v.pc)))
  }

  ghost function Step(evs: seq<Event>, w: World, a: Action): World {
    match a
    case Begin(i) =>
      if w.busy.None? && i < |evs| && i < |w.status| && !w.status[i].Terminal()
      then w.(busy := Some((i, Fetch))) else w
    case Advance(f) =>
      if w.busy.Some? && w.busy.value.0 < |evs| && w.busy.value.0 < |w.status| then
        var (i, pc) := w.busy.value;
        if !pc.Post? then Moved(evs, w, i, pc, f)
        else if f.hostNow < w.clock then w
        else Requested(evs, w, i, f).(busy := Some((i, PostStep(w.host, evs[i], f).1)))
      else w
    case Late(i, f) => if i in w.sent && i < |evs| && f.hostNow >= w.clock then Requested(evs, w, i, f) else w
    case Crash => w.(busy := None)
    case Outside(row) => if Rely(evs, w.host, row) then w.(host := row) else w
  }

  ghost function Run(evs: seq<Event>, w: World, trace: seq<Action>): World {
    if trace == [] then w else Step(evs, Run(evs, w, trace[..|trace| - 1]), trace[|trace| - 1])
  }

  /** Every target pending, nobody at work, nothing sent, any row, any time. */
  predicate Initial(evs: seq<Event>, w: World) {
    w.status == seq(|evs|, _ => Pending) && w.clears == map[] && w.busy.None? && w.sent == {}
  }

  // ----- which events can undo each other -----

  /** An event that can reset anything: it names a group and selects a periodic window. */
  predicate Active(e: Event) {
    e.groupIds != [] && (e.windows.weekly || e.windows.monthly)
  }

  predicate Shares(a: Windows, b: Windows) {
    (a.weekly && b.weekly) || (a.monthly && b.monthly)
  }

  /** Every periodic window of `a` is one of `b`. */
  predicate Within(a: Windows, b: Windows) {
    (a.weekly ==> b.weekly) && (a.monthly ==> b.monthly)
  }

  /** A reset for `a` leaves windows aligned to `b` aligned to `b`. */
  predicate Spares(a: Event, b: Event) {
    || !Shares(a.windows, b.windows)
    || a.cycleResetAt == b.cycleResetAt
    || b.cycleResetAt + WEEK <= a.cycleResetAt
    || (a.cycleResetAt + WEEK <= b.cycleResetAt && Within(a.windows, b.windows))
  }

  /** `b` cannot have been accepted before the time of `a` was over. */
  predicate TooLateFor(a: Event, b: Event) {
    b.cycleResetAt >= a.cycleResetAt + WEEK + BOUNDARY_TOLERANCE
  }

  /**
   Events of one cycle select the same periodic windows, and events of different cycles that share a
   window are at least seven days apart, the earlier one selecting no window that the later one does not
   unless the later one is five minutes further away still.
   */
  ghost predicate Compatible(evs: seq<Event>) {
    forall i, j | 0 <= i < |evs| && 0 <= j < |evs| && Active(evs[i]) && Active(evs[j]) ::
      && (evs[i].cycleResetAt == evs[j].cycleResetAt ==> Within(evs[i].windows, evs[j].windows))
      && (Spares(evs[i], evs[j]) || TooLateFor(evs[i], evs[j]))
  }

  predicate Aligned(host: Option<Subscription>, w: Windows, cycle: int) {
    host.Some? ==> Applied(host.value, w, cycle)
  }

  predicate AlignedTo(host: Option<Subscription>, e: Event) {
    Aligned(host, e.windows, e.cycleResetAt)
  }

  /** What the executor has already concluded at `pc` about the event it is visiting. */
  predicate Concluded(pc: Pc, e: Event) {
    match pc
    case Judge(view) => Applied(view, e.windows, e.cycleResetAt)
    case Check(reply) => Applied(reply, e.windows, e.cycleResetAt)
    case CheckAgain(again) => Applied(again, e.windows, e.cycleResetAt)
    case Commit(outcome) => outcome == Done
    case _ => false
  }

  /** Only an event that names a group gets past the judgement of the first read, and only an active one to done. */
  predicate PcEarned(pc: Pc, e: Event) {
    && (pc.Post? || pc.Check? || pc.FetchAgain? || pc.CheckAgain? ==> e.groupIds != [])
    && (pc == Commit(Done) ==> Active(e))
  }

  ghost predicate WorkOk(evs: seq<Event>, w: World) {
    && |w.status| == |evs|
    && (forall i | i in w.sent :: i < |evs| && evs[i].groupIds != [])
    && (forall i | 0 <= i < |evs| && w.status[i] == Done :: Active(evs[i]))
    && (w.busy.Some? ==>
          var (i, pc) := w.busy.value;
          i < |evs| && !w.status[i].Terminal() && PcEarned(pc, evs[i]))
  }

  /** A step of a visit keeps what its place stands for. */
  lemma {:induction false} VisitJudges(v: Visit, e: Event, f: Faults)
    requires !v.status.Terminal() && PcEarned(v.pc, e)
    ensures var u := VisitStep(v, e, f);
            && PcEarned(u.pc, e)
            && (u.status == Done ==> Active(e))
            && (!u.pc.Over? && !v.pc.Over? ==> !u.status.Terminal())
  {
    if v.pc.Judge? && Eligible(v.pc.view, e.groupIds, f.now) {
      assert e.groupIds != [];
    }
  }

  lemma {:induction false} StepKeepsWorkOk(evs: seq<Event>, w: World, a: Action)
    requires WorkOk(evs, w)
    ensures WorkOk(evs, Step(evs, w, a))
  {
    if a.Advance? && w.busy.Some? {
      var (i, pc) := w.busy.value;
      VisitJudges(Visit(pc, w.status[i], w.host, false, false), evs[i], a.faults);
      if pc.Over? {
        assert VisitStep(Visit(pc, w.status[i], w.host, false, false), evs[i], a.faults).pc.Over?;
      }
    }
  }

  lemma {:induction false} RunKeepsWorkOk(evs: seq<Event>, w: World, trace: seq<Action>)
    requires WorkOk(evs, w)
    ensures WorkOk(evs, Run(evs, w, trace))
  {
    if trace != [] {
      RunKeepsWorkOk(evs, w, trace[..|trace| - 1]);
      StepKeepsWorkOk(evs, Run(evs, w, trace[..|trace| - 1]), trace[|trace| - 1]);
    }
  }

  /** Rollover keeps every aligned event aligned. */
  lemma {:induction false} RelyKeepsAligned(evs: seq<Event>, before: Option<Subscription>,
                                            after: Option<Subscription>, i: nat)
    requires Rely(evs, before, after) && i < |evs| && AlignedTo(before, evs[i])
    ensures AlignedTo(after, evs[i])
  {
    if before.Some? && after.Some? {
      var e := evs[i];
      assert e.windows.weekly && WindowApplied(before.value.weeklyStart, e.cycleResetAt) ==>
        WindowApplied(after.value.weeklyStart, e.cycleResetAt);
      assert e.windows.monthly && WindowApplied(before.value.monthlyStart, e.cycleResetAt) ==>
        WindowApplied(after.value.monthlyStart, e.cycleResetAt);
    }
  }

  /** A reset for `a` keeps the row aligned to `b`, or comes too late to do anything. */
  lemma {:induction false} ResetSpares(row: Subscription, a: Event, b: Event, now: int, dayStart: int)
    requires Applied(row, b.windows, b.cycleResetAt)
    requires Spares(a, b) || now >= a.cycleResetAt
    ensures var (after, _, cleared) := ResetForCycle(row, a.windows, a.cycleResetAt, now, dayStart);
            && Applied(after, b.windows, b.cycleResetAt)
            && (a.cycleResetAt == b.cycleResetAt && Within(a.windows, b.windows) ==> !cleared)
  {
  }

  // ----- at most one clear per cycle -----

  /** A cycle cleared for was cleared for once, in time, and every event of it is still aligned. */
  ghost predicate ClearedOnce(evs: seq<Event>, w: World, c: int) {
    && Clears(w, c) == 1
    && c <= w.clock + WEEK + BOUNDARY_TOLERANCE
    && forall i | 0 <= i < |evs| && Active(evs[i]) && evs[i].cycleResetAt == c :: AlignedTo(w.host, evs[i])
  }

  ghost predicate ClearsOk(evs: seq<Event>, w: World) {
    forall c | Clears(w, c) > 0 :: ClearedOnce(evs, w, c)
  }

  /** What one request did: the count of its own cycle, and the alignment it leaves when it clears. */
  lemma {:induction false} RequestedEffect(evs: seq<Event>, w: World, i: nat, f: Faults)
    requires i < |evs|
    ensures var v := Requested(evs, w, i, f);
            var e := evs[i];
            && (forall c | c != e.cycleResetAt :: Clears(v, c) == Clears(w, c))
            && (PostStep(w.host, e, f).2 ==>
                  && (e.windows.weekly || e.windows.monthly)
                  && Clears(v, e.cycleResetAt) == Clears(w, e.cycleResetAt) + 1
                  && e.cycleResetAt <= f.hostNow + WEEK + BOUNDARY_TOLERANCE
                  && w.host.Some? && !Applied(w.host.value, e.windows, e.cycleResetAt)
                  && AlignedTo(v.host, e))
            && (!PostStep(w.host, e, f).2 ==> v.host == w.host && v.clears == w.clears)
  {
  }

  /**
   The request keeps whatever is aligned and spared, and does not clear what is aligned to a wider event of
   its cycle.
   */
  lemma {:induction false} RequestSpares(evs: seq<Event>, w: World, i: nat, f: Faults, b: Event)
    requires i < |evs| && AlignedTo(w.host, b) && (Spares(evs[i], b) || f.hostNow >= evs[i].cycleResetAt)
    ensures AlignedTo(Requested(evs, w, i, f).host, b)
    ensures evs[i].cycleResetAt == b.cycleResetAt && Within(evs[i].windows, b.windows) ==>
      !PostStep(w.host, evs[i], f).2
  {
    if w.host.Some? {
      ResetSpares(w.host.value, evs[i], b, f.hostNow, f.dayStart);
    }
  }

  /** Events of one cycle with the same windows are aligned together. */
  lemma {:induction false} AlignedTogether(host: Option<Subscription>, a: Event, b: Event)
    requires AlignedTo(host, a) && a.cycleResetAt == b.cycleResetAt && Active(a) && Active(b)
    requires Within(b.windows, a.windows)
    ensures AlignedTo(host, b)
  {
  }

  lemma {:induction false} RequestKeepsCleared(evs: seq<Event>, w: World, i: nat, f: Faults, c: int)
    requires Compatible(evs) && i < |evs| && evs[i].groupIds != [] && f.hostNow >= w.clock
    requires Clears(w, c) > 0 ==> ClearedOnce(evs, w, c)
    requires Clears(Requested(evs, w, i, f), c) > 0
    ensures ClearedOnce(evs, Requested(evs, w, i, f), c)
  {
    var v := Requested(evs, w, i, f);
    RequestedEffect(evs, w, i, f);
    if !PostStep(w.host, evs[i], f).2 {
      assert Clears(w, c) > 0;
    } else if Clears(w, c) > 0 {
      forall j | 0 <= j < |evs| && Active(evs[j]) && evs[j].cycleResetAt == c
        ensures AlignedTo(v.host, evs[j])
        ensures c == evs[i].cycleResetAt ==> !PostStep(w.host, evs[i], f).2
      {
        assert Spares(evs[i], evs[j]) || TooLateFor(evs[i], evs[j]);
        RequestSpares(evs, w, i, f, evs[j]);
      }
    } else {
      forall j | 0 <= j < |evs| && Active(evs[j]) && evs[j].cycleResetAt == c ensures AlignedTo(v.host, evs[j]) {
        AlignedTogether(v.host, evs[i], evs[j]);
      }
    }
  }

  lemma {:induction false} RequestKeepsClearsOk(evs: seq<Event>, w: World, i: nat, f: Faults)
    requires Compatible(evs) && i < |evs| && evs[i].groupIds != [] && f.hostNow >= w.clock && ClearsOk(evs, w)
    ensures ClearsOk(evs, Requested(evs, w, i, f))
  {
    forall c | Clears(Requested(evs, w, i, f), c) > 0 ensures ClearedOnce(evs, Requested(evs, w, i, f), c) {
      RequestKeepsCleared(evs, w, i, f, c);
    }
  }

  /** Nothing but a request or another actor touches the host or the counts. */
  lemma {:induction false} SameHostKeepsClearsOk(evs: seq<Event>, w: World, v: World)
    requires ClearsOk(evs, w) && v.host == w.host && v.clears == w.clears && v.clock == w.clock
    ensures ClearsOk(evs, v)
  {
    forall c | Clears(v, c) > 0 ensures ClearedOnce(evs, v, c) {
      assert Clears(w, c) > 0 && ClearedOnce(evs, w, c);
    }
  }

  lemma {:induction false} OutsideKeepsClearsOk(evs: seq<Event>, w: World, row: Option<Subscription>)
    requires ClearsOk(evs, w) && Rely(evs, w.host, row)
    ensures ClearsOk(evs, w.(host := row))
  {
    var v := w.(host := row);
    forall c | Clears(v, c) > 0 ensures ClearedOnce(evs, v, c) {
      assert Clears(w, c) > 0 && ClearedOnce(evs, w, c);
      forall i | 0 <= i < |evs| && Active(evs[i]) && evs[i].cycleResetAt == c ensures AlignedTo(row, evs[i]) {
        RelyKeepsAligned(evs, w.host, row, i);
      }
    }
  }

  lemma {:induction false} StepKeepsClearsOk(evs: seq<Event>, w: World, a: Action)
    requires Compatible(evs) && WorkOk(evs, w) && ClearsOk(evs, w)
    ensures ClearsOk(evs, Step(evs, w, a))
  {
    match a
    case Advance(f) =>
      if w.busy.Some? && w.busy.value.1.Post? && f.hostNow >= w.clock {
        var i := w.busy.value.0;
        RequestKeepsClearsOk(evs, w, i, f);
        SameHostKeepsClearsOk(evs, Requested(evs, w, i, f), Step(evs, w, a));
      } else {
        SameHostKeepsClearsOk(evs, w, Step(evs, w, a));
      }
    case Late(i, f) =>
      if i in w.sent && f.hostNow >= w.clock {
        RequestKeepsClearsOk(evs, w, i, f);
      }
    case Outside(row) =>
      if Rely(evs, w.host, row) {
        OutsideKeepsClearsOk(evs, w, row);
      }
    case Begin(_) => SameHostKeepsClearsOk(evs, w, Step(evs, w, a));
    case Crash => SameHostKeepsClearsOk(evs, w, Step(evs, w, a));
  }

  lemma {:induction false} RunClearsOnce(evs: seq<Event>, w: World, trace: seq<Action>)
    requires Compatible(evs) && Initial(evs, w)
    ensures ClearsOk(evs, Run(evs, w, trace))
  {
    if trace != [] {
      RunClearsOnce(evs, w, trace[..|trace| - 1]);
      RunKeepsWorkOk(evs, w, trace[..|trace| - 1]);
      StepKeepsClearsOk(evs, Run(evs, w, trace[..|trace| - 1]), trace[|trace| - 1]);
    }
  }

  // ----- done targets stay aligned -----

  ghost predicate SparedByAll(evs: seq<Event>, i: nat)
    requires i < |evs|
  {
    forall j | 0 <= j < |evs| && Active(evs[j]) :: Spares(evs[j], evs[i])
  }

  /** Done, or about to be found done: aligned. */
  ghost predicate DoneOk(evs: seq<Event>, w: World, i: nat)
    requires i < |evs|
  {
    && |w.status| == |evs|
    && (w.status[i] == Done ==> AlignedTo(w.host, evs[i]))
    && (w.busy.Some? && w.busy.value.0 == i && Concluded(w.busy.value.1, evs[i]) ==> AlignedTo(w.host, evs[i]))
  }

  lemma {:induction false} RequestKeepsAligned(evs: seq<Event>, w: World, i: nat, j: nat, f: Faults)
    requires i < |evs| && j < |evs| && evs[j].groupIds != [] && SparedByAll(evs, i) && AlignedTo(w.host, evs[i])
    ensures AlignedTo(Requested(evs, w, j, f).host, evs[i])
  {
    RequestedEffect(evs, w, j, f);
    if PostStep(w.host, evs[j], f).2 {
      RequestSpares(evs, w, j, f, evs[i]);
    }
  }

  /** A reply that shows the row aligned is the row. */
  lemma {:induction false} ReplyIsTheRow(host: Option<Subscription>, e: Event, f: Faults)
    ensures var (after, pc, _) := PostStep(host, e, f);
            Concluded(pc, e) ==> AlignedTo(after, e)
  {
  }

  lemma {:induction false} AdvanceKeepsDoneOk(evs: seq<Event>, w: World, f: Faults, i: nat)
    requires i < |evs| && SparedByAll(evs, i) && WorkOk(evs, w) && DoneOk(evs, w, i)
    ensures DoneOk(evs, Step(evs, w, Advance(f)), i)
  {
    if w.busy.Some? {
      var (j, pc) := w.busy.value;
      if pc.Post? && f.hostNow >= w.clock {
        ReplyIsTheRow(w.host, evs[j], f);
        if AlignedTo(w.host, evs[i]) {
          RequestKeepsAligned(evs, w, i, j, f);
        }
      }
    }
  }

  lemma {:induction false} StepKeepsDoneOk(evs: seq<Event>, w: World, a: Action, i: nat)
    requires i < |evs| && SparedByAll(evs, i) && WorkOk(evs, w) && DoneOk(evs, w, i)
    ensures DoneOk(evs, Step(evs, w, a), i)
  {
    match a
    case Begin(_) =>
    case Advance(f) => AdvanceKeepsDoneOk(evs, w, f, i);
    case Late(j, f) =>
      if j in w.sent && f.hostNow >= w.clock && AlignedTo(w.host, evs[i]) {
        RequestKeepsAligned(evs, w, i, j, f);
      }
    case Crash =>
    case Outside(row) =>
      if Rely(evs, w.host, row) && AlignedTo(w.host, evs[i]) {
        RelyKeepsAligned(evs, w.host, row, i);
      }
  }

  lemma {:induction false} RunKeepsDoneOk(evs: seq<Event>, w: World, trace: seq<Action>, i: nat)
    requires i < |evs| && SparedByAll(evs, i) && Initial(evs, w)
    ensures DoneOk(evs, Run(evs, w, trace), i)
  {
    if trace != [] {
      RunKeepsDoneOk(evs, w, trace[..|trace| - 1], i);
      RunKeepsWorkOk(evs, w, trace[..|trace| - 1]);
      StepKeepsDoneOk(evs, Run(evs, w, trace[..|trace| - 1]), trace[|trace| - 1], i);
    }
  }

  /**
   One event alone: through any crashes, lost or late requests, retries and rollovers, the host clears the
   subscription at most once, and a target marked done is aligned for as long as the row exists.
   */
  lemma {:induction false} OneEventClearsOnce(e: Event, w: World, trace: seq<Action>)
    requires Initial([e], w)
    ensures var after := Run([e], w, trace);
            && Clears(after, e.cycleResetAt) <= 1
            && |after.status| == 1
            && (after.status[0] == Done ==> AlignedTo(after.host, e))
  {
    RunClearsOnce([e], w, trace);
    RunKeepsDoneOk([e], w, trace, 0);
    var after := Run([e], w, trace);
    assert Clears(after, e.cycleResetAt) > 0 ==> ClearedOnce([e], after, e.cycleResetAt);
  }

  /** The executor only ever works on an open target. */
  predicate WorksOnOpen(evs: seq<Event>, w: World) {
    && |w.status| == |evs|
    && (w.busy.Some? ==> w.busy.value.0 < |evs| && !w.status[w.busy.value.0].Terminal())
  }

  lemma {:induction false} RunWorksOnOpen(evs: seq<Event>, w: World, trace: seq<Action>)
    requires WorksOnOpen(evs, w)
    ensures WorksOnOpen(evs, Run(evs, w, trace))
  {
    if trace != [] {
      RunWorksOnOpen(evs, w, trace[..|trace| - 1]);
    }
  }

  /** Once a target is done or skipped it stays so, whatever happens next, for any events at all. */
  lemma {:induction false} TerminalForever(evs: seq<Event>, w: World, a: seq<Action>, b: seq<Action>, i: nat)
    requires Initial(evs, w) && i < |evs|
    ensures |Run(evs, w, a).status| == |Run(evs, w, a + b).status| == |evs|
    ensures Run(evs, w, a).status[i].Terminal() ==> Run(evs, w, a + b).status[i] == Run(evs, w, a).status[i]
  {
    RunWorksOnOpen(evs, w, a);
    RunWorksOnOpen(evs, w, a + b);
    if b == [] {
      assert a + b == a;
    } else {
      var n := |b| - 1;
      assert (a + b)[..|a + b| - 1] == a + b[..n];
      RunWorksOnOpen(evs, w, a + b[..n]);
      TerminalForever(evs, w, a, b[..n], i);
    }
  }
}
