/**
 The cycle detector of `quota_sync.py`: what one account usage snapshot means, given the stored
 row. Percentages and window costs are reals; thresholds are whole seconds, as configured.
 */
module CycleDetector {
  import opened Common

  datatype Snapshot = Snapshot(
    resetAt: int,
    sampleAt: int,
    usedPercent: Option<real>,
    resetAfterSeconds: int,
    windowCost: Option<real>)

  /** One account_state row. */
  datatype State = State(resetAt: int, sampleAt: int, usedPercent: Option<real>, windowCost: Option<real>)

  datatype Thresholds = Thresholds(minShiftSeconds: nat, rearmSeconds: nat, jitterSeconds: nat) {
    function MinShift(): int { minShiftSeconds * SECOND }
    function Rearm(): int { rearmSeconds * SECOND }
    function Jitter(): int { jitterSeconds * SECOND }

    /** An advance no larger than this is taken for jitter of the same cycle. */
    function Guard(): int {
      if Jitter() < BOUNDARY_TOLERANCE then BOUNDARY_TOLERANCE else Jitter()
    }

    /** The bounds `normalizeConfig` enforces on every saved configuration. */
    predicate Accepted() {
      && DAY <= MinShift() <= 8 * DAY
      && DAY <= Rearm() <= WEEK
      && Jitter() <= DAY
      && Jitter() < MinShift()
    }
  }

  datatype Cause = EarlyCycle | CostFollow | FullCycle

  datatype Decision = Baseline | Stale | Suspicious | Observe | NotRearmed | Reset(cause: Cause)

  predicate Rearmed(sn: Snapshot, c: Thresholds) {
    var remaining := sn.resetAt - sn.sampleAt;
    && remaining >= c.Rearm()
    && sn.resetAfterSeconds >= c.rearmSeconds
    && remaining <= WEEK + BOUNDARY_TOLERANCE
  }

  /** Usage is back near zero and visibly below the last written sample. */
  predicate UsageReset(before: Option<real>, after: Option<real>) {
    before.Some? && after.Some? && after.value <= 5.0 && before.value - after.value >= 1.0
  }

  predicate FreshCycle(st: State, sn: Snapshot) {
    st.sampleAt - BOUNDARY_TOLERANCE <= sn.resetAt - WEEK <= sn.sampleAt + BOUNDARY_TOLERANCE
  }

  predicate CostDropped(before: Option<real>, after: Option<real>) {
    before.Some? && after.Some? && after.value < before.value
  }

  function Decide(state: Option<State>, sn: Snapshot, c: Thresholds): Decision {
    if state.None? then Baseline else
    var st := state.value;
    if sn.sampleAt <= st.sampleAt then Stale else
    var shift := sn.resetAt - st.resetAt;
    if shift < -c.Jitter() then Suspicious
    else if Rearmed(sn, c) && UsageReset(st.usedPercent, sn.usedPercent) && FreshCycle(st, sn)
            && shift > c.Guard() then Reset(EarlyCycle)
    else if sn.sampleAt + BOUNDARY_TOLERANCE < st.resetAt
            && CostDropped(st.windowCost, sn.windowCost)
            && sn.resetAt - sn.sampleAt <= WEEK + BOUNDARY_TOLERANCE
            && shift > c.Guard() then Reset(CostFollow)
    else if sn.sampleAt + BOUNDARY_TOLERANCE < st.resetAt then Observe
    else if !Rearmed(sn, c) then NotRearmed
    else if shift < c.MinShift() then Suspicious
    else if !UsageReset(st.usedPercent, sn.usedPercent) then Observe
    else Reset(FullCycle)
  }

  // ----- what a reset verdict guarantees, and for exactly which thresholds -----

  /** Under any thresholds, a reset never names an earlier boundary than the confirmed one. */
  lemma {:induction false} ResetNeverGoesBack(st: State, sn: Snapshot, c: Thresholds)
    requires Decide(Some(st), sn, c).Reset?
    ensures st.resetAt <= sn.resetAt
  {
  }

  ghost predicate ResetsCanRepeat(c: Thresholds) {
    exists st, sn :: Decide(Some(st), sn, c).Reset? && sn.resetAt == st.resetAt
  }

  /**
   A reset can name the confirmed boundary itself exactly when thresholds ask for no shift and for at most
   five minutes left.
   */
  lemma {:induction false} ResetsCanRepeatIff(c: Thresholds)
    ensures ResetsCanRepeat(c) <==> c.MinShift() == 0 && c.Rearm() <= BOUNDARY_TOLERANCE
  {
    if c.MinShift() == 0 && c.Rearm() <= BOUNDARY_TOLERANCE {
      var sn := Snapshot(c.Rearm(), 0, Some(0.0), c.rearmSeconds, None);
      assert Decide(Some(State(c.Rearm(), -1, Some(5.0), None)), sn, c).Reset?;
    }
  }

  /** No verdict names a boundary further ahead than seven days and the tolerance. */
  lemma {:induction false} ResetNeverTooFarAhead(state: Option<State>, sn: Snapshot, c: Thresholds)
    requires Decide(state, sn, c).Reset?
    ensures state.Some? && state.value.sampleAt < sn.sampleAt
    ensures sn.resetAt <= sn.sampleAt + WEEK + BOUNDARY_TOLERANCE
  {
  }

  ghost predicate ResetsStayAhead(c: Thresholds) {
    forall st, sn :: Decide(Some(st), sn, c).Reset? ==> sn.sampleAt + BOUNDARY_TOLERANCE < sn.resetAt
  }

  /**
   Every reset names a boundary more than five minutes ahead of its sample exactly when the
   rearm threshold itself exceeds five minutes. Environment configuration may set less.
   */
  lemma {:induction false} ResetsStayAheadIffRearm(c: Thresholds)
    ensures ResetsStayAhead(c) <==> c.Rearm() > BOUNDARY_TOLERANCE
  {
    if c.Rearm() <= BOUNDARY_TOLERANCE {
      var sn := Snapshot(BOUNDARY_TOLERANCE, 0, Some(0.0), c.rearmSeconds, None);
      var st := State(-c.MinShift(), -1, Some(5.0), None);
      assert Decide(Some(st), sn, c).Reset?;
    }
  }

  ghost predicate ResetsAdvancePastGuard(c: Thresholds) {
    forall st, sn :: Decide(Some(st), sn, c).Reset? ==> sn.resetAt - st.resetAt > c.Guard()
  }

  /**
   Every reset moves the boundary by more than max(jitter, five minutes) exactly when the
   thresholds leave no room below that guard: either the minimum shift exceeds it, or the
   rearm threshold does by five minutes, or rearming can never happen at all.
   */
  lemma {:induction false} ResetsAdvanceIffThresholds(c: Thresholds)
    ensures ResetsAdvancePastGuard(c)
       <==> || c.MinShift() > c.Guard()
            || c.Rearm() - BOUNDARY_TOLERANCE > c.Guard()
            || c.Rearm() > WEEK + BOUNDARY_TOLERANCE
  {
    if c.MinShift() <= c.Guard() && c.Rearm() - BOUNDARY_TOLERANCE <= c.Guard()
      && c.Rearm() <= WEEK + BOUNDARY_TOLERANCE {
      var sn := Snapshot(c.Rearm(), 0, Some(0.0), c.rearmSeconds, None);
      var st := State(c.Rearm() - c.Guard(), -1, Some(5.0), None);
      assert Decide(Some(st), sn, c).Reset?;
    }
  }

  /** Both edges and the advance, for every configuration the native plugin saves. */
  lemma {:induction false} AcceptedResetIsSound(st: State, sn: Snapshot, c: Thresholds)
    requires c.Accepted() && Decide(Some(st), sn, c).Reset?
    ensures sn.sampleAt + BOUNDARY_TOLERANCE < sn.resetAt <= sn.sampleAt + WEEK + BOUNDARY_TOLERANCE
    ensures sn.resetAt - st.resetAt > c.Guard() >= BOUNDARY_TOLERANCE
    ensures st.sampleAt < sn.sampleAt
  {
  }

  // ----- the verdict without the order of its branches -----

  /** The confirmed boundary has come, less the tolerance. */
  predicate Arrived(st: State, sn: Snapshot) {
    sn.sampleAt + BOUNDARY_TOLERANCE >= st.resetAt
  }

  /** A newer sample naming a boundary beyond the guard, and at most one window ahead. */
  predicate Plausible(st: State, sn: Snapshot, c: Thresholds) {
    && sn.sampleAt > st.sampleAt
    && sn.resetAt - st.resetAt > c.Guard()
    && sn.resetAt - sn.sampleAt <= WEEK + BOUNDARY_TOLERANCE
  }

  /**
   Under saved thresholds the order of the checks does not matter: a plausible boundary is a reset
   exactly when usage fell in a rearmed window whose start was sampled or whose time had come with a
   full shift, or the time had not come and the window cost fell.
   */
  lemma {:induction false} ResetIffEvidence(st: State, sn: Snapshot, c: Thresholds)
    requires c.Accepted()
    ensures Decide(Some(st), sn, c).Reset? <==>
      && Plausible(st, sn, c)
      && (|| (Rearmed(sn, c) && UsageReset(st.usedPercent, sn.usedPercent)
              && (FreshCycle(st, sn) || (Arrived(st, sn) && sn.resetAt - st.resetAt >= c.MinShift())))
          || (!Arrived(st, sn) && CostDropped(st.windowCost, sn.windowCost)))
  {
  }

  /**
   Under any thresholds, each verdict on a newer sample has its own exact cause over what was sampled and stored,
   whatever the order of the checks. A boundary that falls back is suspicious; one that is not yet due and shows
   no new cycle is observed.
   */
  lemma {:induction false} VerdictsByEvidence(st: State, sn: Snapshot, c: Thresholds)
    requires sn.sampleAt > st.sampleAt
    ensures var d, shift, left := Decide(Some(st), sn, c), sn.resetAt - st.resetAt, sn.resetAt - sn.sampleAt;
            var jitter := c.jitterSeconds * SECOND;
            var advances := shift > jitter && shift > 5 * MINUTE;
            var due := st.resetAt <= sn.sampleAt + 5 * MINUTE;
            var rearmed := c.rearmSeconds * SECOND <= left <= 7 * DAY + 5 * MINUTE
                           && c.rearmSeconds <= sn.resetAfterSeconds;
            var fell := st.usedPercent.Some? && sn.usedPercent.Some?
                        && sn.usedPercent.value <= 5.0 && sn.usedPercent.value + 1.0 <= st.usedPercent.value;
            var cheaper := st.windowCost.Some? && sn.windowCost.Some? && sn.windowCost.value < st.windowCost.value;
            var started := st.sampleAt - 5 * MINUTE <= sn.resetAt - 7 * DAY <= sn.sampleAt + 5 * MINUTE;
            var early := rearmed && fell && started && advances;
            var follows := !due && cheaper && left <= 7 * DAY + 5 * MINUTE && advances && !early;
            && (d == Reset(EarlyCycle) <==> early)
            && (d == Reset(CostFollow) <==> follows)
            && (d == Reset(FullCycle) <==> due && rearmed && !early && fell && shift >= c.minShiftSeconds * SECOND)
            && (d == Suspicious <==>
                  || shift < 0 - jitter
                  || (due && rearmed && !early && shift < c.minShiftSeconds * SECOND))
            && (d == NotRearmed <==> shift >= 0 - jitter && due && !rearmed)
            && (d == Observe <==>
                  || (shift >= 0 - jitter && !due && !early && !follows)
                  || (due && rearmed && !early && !fell && shift >= c.minShiftSeconds * SECOND))
  {
  }

  /** What `load_snapshot` and `load_window_cost` let through. */
  predicate Loaded(sn: Snapshot) {
    && (sn.usedPercent.Some? ==> 0.0 <= sn.usedPercent.value <= 100.0)
    && sn.resetAfterSeconds >= 0
    && (sn.windowCost.Some? ==> sn.windowCost.value >= 0.0)
  }

  ghost predicate EveryResetSawUsageFall(st: State, c: Thresholds) {
    forall sn :: Loaded(sn) && Decide(Some(st), sn, c).Reset? ==> UsageReset(st.usedPercent, sn.usedPercent)
  }

  /**
   The documented rule that every reset has seen the percentage fall fails on the window-cost branch:
   under any thresholds, a stored row is safe from resets without a fall if and only if it holds no positive
   window cost, or its boundary leaves no later sample time at which that branch could still fire, or the
   guard asks for an advance of a whole window.
   */
  lemma {:induction false} UsageAlwaysFallsIff(st: State, c: Thresholds)
    ensures EveryResetSawUsageFall(st, c) <==>
      || st.windowCost.None? || st.windowCost.value <= 0.0
      || st.resetAt <= st.sampleAt + 1 + BOUNDARY_TOLERANCE
      || c.Guard() >= WEEK - 1
  {
    if st.windowCost.Some? && st.windowCost.value > 0.0 && st.resetAt > st.sampleAt + 1 + BOUNDARY_TOLERANCE
       && c.Guard() < WEEK - 1 {
      var at := st.resetAt - BOUNDARY_TOLERANCE - 1;
      var sn := Snapshot(at + WEEK + BOUNDARY_TOLERANCE, at, None, 0, Some(0.0));
      assert Decide(Some(st), sn, c) == Reset(CostFollow);
    }
  }
}
