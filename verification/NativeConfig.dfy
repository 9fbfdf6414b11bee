/**
 What the native plugin saves (`normalizeConfig` of `native/main.go`) and its reader in the executor
 (`Config.from_native_json`). JSON decoding is done; lower-casing is the parameter `lower`.
 */
module NativeConfig {
  import opened Common
  import opened CycleDetector
  import opened CardSchedule

  datatype Result<T> = Ok(value: T) | Err

  /** The `mode` string: empty, one of the two known values, or anything else. */
  datatype Mode = Unset | SubscriptionMode | BalanceMode | OtherMode

  datatype Settings = Settings(
    schedule: Option<Schedule>,
    enabled: bool,
    dryRun: bool,
    mode: Mode,
    accountIds: seq<int>,
    targetGroups: seq<string>,
    daily: bool,
    weekly: bool,
    monthly: bool,
    minShift: int,
    rearm: int,
    jitter: int)

  /** A decoded request: settings with defaults filled in, and which account fields were present. */
  datatype Request = Request(settings: Settings, hasAccountIds: bool, legacyAccountId: Option<int>)

  // ----- white space -----

  /** `unicode.IsSpace`, which decides `strings.TrimSpace`. */
  predicate GoSpace(c: char) {
    var u := c as int;
    || 9 <= u <= 13 || u == 32 || u == 0x85 || u == 0xA0 || u == 0x1680 || 0x2000 <= u <= 0x200A
    || u == 0x2028 || u == 0x2029 || u == 0x202F || u == 0x205F || u == 0x3000
  }

  /** `str.isspace`, which decides `str.strip`: the information separators too. */
  predicate PySpace(c: char) {
    GoSpace(c) || 0x1C <= c as int <= 0x1F
  }

  function Trim(s: string, space: char -> bool): string {
    if s == "" then s
    else if space(s[0]) then Trim(s[1..], space)
    else if space(s[|s| - 1]) then Trim(s[..|s| - 1], space)
    else s
  }

  predicate Trimmed(s: string, space: char -> bool) {
    s != "" ==> !space(s[0]) && !space(s[|s| - 1])
  }

  lemma {:induction false} TrimTrims(s: string, space: char -> bool)
    ensures Trimmed(Trim(s, space), space)
    ensures Trimmed(s, space) ==> Trim(s, space) == s
    decreases |s|
  {
    if s != "" {
      if space(s[0]) {
        TrimTrims(s[1..], space);
      } else if space(s[|s| - 1]) {
        TrimTrims(s[..|s| - 1], space);
      }
    }
  }

  /** Trimming takes white space from both ends and nothing else. */
  lemma {:induction false} TrimStripsSpace(s: string, space: char -> bool) returns (i: nat, j: nat)
    ensures i <= j <= |s| && Trim(s, space) == s[i..j]
    ensures forall k | 0 <= k < i || j <= k < |s| :: space(s[k])
    decreases |s|
  {
    if s == "" {
      i, j := 0, 0;
    } else if space(s[0]) {
      var a, b := TrimStripsSpace(s[1..], space);
      i, j := a + 1, b + 1;
      assert s[1..][a..b] == s[i..j];
      forall k | 0 <= k < i || j <= k < |s| ensures space(s[k]) {
        assert k > 0 ==> s[k] == s[1..][k - 1];
      }
    } else if space(s[|s| - 1]) {
      var front := s[..|s| - 1];
      i, j := TrimStripsSpace(front, space);
      assert front[i..j] == s[i..j];
      forall k | 0 <= k < i || j <= k < |s| ensures space(s[k]) {
        assert k < |front| ==> s[k] == front[k];
      }
    } else {
      i, j := 0, |s|;
      assert s[i..j] == s;
    }
  }

  // ----- order-preserving deduplication -----

  function FirstIds(ids: seq<int>): seq<int> {
    if ids == [] then [] else
      var before := FirstIds(ids[..|ids| - 1]);
      if ids[|ids| - 1] in before then before else before + [ids[|ids| - 1]]
  }

  /** The trimmed, non-blank groups, each once up to case, in order of first appearance. */
  function FirstGroups(groups: seq<string>, lower: string -> string): seq<string> {
    if groups == [] then [] else
      var before := FirstGroups(groups[..|groups| - 1], lower);
      var g := Trim(groups[|groups| - 1], GoSpace);
      if g == "" || KeySeen(before, lower(g), lower) then before else before + [g]
  }

  predicate KeySeen(groups: seq<string>, k: string, lower: string -> string) {
    exists i | 0 <= i < |groups| :: lower(groups[i]) == k
  }

  predicate DistinctKeys(groups: seq<string>, lower: string -> string) {
    forall i, j | 0 <= i < j < |groups| :: lower(groups[i]) != lower(groups[j])
  }

  predicate TidyGroups(groups: seq<string>, lower: string -> string) {
    && DistinctKeys(groups, lower)
    && forall i | 0 <= i < |groups| :: groups[i] != "" && Trimmed(groups[i], GoSpace)
  }

  /** The position at which an id is first listed. */
  function FirstAt(ids: seq<int>, x: int): nat
    requires x in ids
  {
    if x in ids[..|ids| - 1] then FirstAt(ids[..|ids| - 1], x) else |ids| - 1
  }

  lemma {:induction false} FirstAtBelow(ids: seq<int>, x: int)
    requires x in ids
    ensures FirstAt(ids, x) < |ids| && ids[FirstAt(ids, x)] == x
  {
    if x in ids[..|ids| - 1] {
      FirstAtBelow(ids[..|ids| - 1], x);
    } else {
      assert ids == ids[..|ids| - 1] + [ids[|ids| - 1]];
    }
  }

  predicate AllPositive(ids: seq<int>) {
    forall i | 0 <= i < |ids| :: ids[i] > 0
  }

  lemma {:induction false} FirstIdsMembers(ids: seq<int>, x: int)
    ensures x in FirstIds(ids) <==> x in ids
  {
    if ids != [] {
      assert ids == ids[..|ids| - 1] + [ids[|ids| - 1]];
      FirstIdsMembers(ids[..|ids| - 1], x);
      FirstIdsMembers(ids[..|ids| - 1], ids[|ids| - 1]);
    }
  }

  lemma {:induction false} FirstIdsPositive(ids: seq<int>)
    ensures AllPositive(FirstIds(ids)) <==> AllPositive(ids)
    ensures FirstIds(ids) == [] <==> ids == []
  {
    forall x ensures x in FirstIds(ids) <==> x in ids {
      FirstIdsMembers(ids, x);
    }
    forall i | 0 <= i < |ids| ensures ids[i] in FirstIds(ids) {}
    forall i | 0 <= i < |FirstIds(ids)| ensures FirstIds(ids)[i] in ids {}
  }

  lemma {:induction false} FirstIdsDistinct(ids: seq<int>)
    ensures NoDuplicates(FirstIds(ids))
  {
    if ids != [] {
      FirstIdsDistinct(ids[..|ids| - 1]);
    }
  }

  lemma {:induction false} FirstIdsOfDistinct(ids: seq<int>)
    requires NoDuplicates(ids)
    ensures FirstIds(ids) == ids
  {
    if ids != [] {
      var n := |ids| - 1;
      FirstIdsOfDistinct(ids[..n]);
      assert ids == ids[..n] + [ids[n]] && ids[n] !in ids[..n];
    }
  }

  /** Deduplication keeps the same ids, each once, in the order in which they first appear. */
  lemma {:induction false} FirstIdsKeepOrder(ids: seq<int>, i: nat, j: nat)
    requires i < j < |FirstIds(ids)|
    ensures FirstIds(ids)[i] in ids && FirstIds(ids)[j] in ids
    ensures FirstIds(ids)[i] != FirstIds(ids)[j]
    ensures FirstAt(ids, FirstIds(ids)[i]) < FirstAt(ids, FirstIds(ids)[j])
  {
    var n := |ids| - 1;
    var out := FirstIds(ids);
    var before := FirstIds(ids[..n]);
    FirstIdsMembers(ids, out[i]);
    FirstIdsMembers(ids, out[j]);
    FirstIdsDistinct(ids);
    assert out[i] == before[i];
    FirstIdsMembers(ids[..n], before[i]);
    FirstAtBelow(ids[..n], before[i]);
    if j < |before| {
      FirstIdsKeepOrder(ids[..n], i, j);
    } else {
      FirstIdsMembers(ids[..n], ids[n]);
    }
  }

  lemma {:induction false} FirstGroupsAreTidy(groups: seq<string>, lower: string -> string)
    ensures TidyGroups(FirstGroups(groups, lower), lower)
    ensures TidyGroups(groups, lower) ==> FirstGroups(groups, lower) == groups
  {
    if groups != [] {
      var n := |groups| - 1;
      FirstGroupsAreTidy(groups[..n], lower);
      TrimTrims(groups[n], GoSpace);
      if TidyGroups(groups, lower) {
        assert TidyGroups(groups[..n], lower);
        assert groups == groups[..n] + [groups[n]];
      }
    }
  }

  /** Some group that is not blank is listed under this key among the first n. */
  predicate KeyAmong(groups: seq<string>, n: nat, k: string, lower: string -> string)
    requires n <= |groups|
  {
    exists i | 0 <= i < n :: Trim(groups[i], GoSpace) != "" && lower(Trim(groups[i], GoSpace)) == k
  }

  /** A key is kept exactly if it is listed. */
  lemma {:induction false} FirstGroupsCover(groups: seq<string>, lower: string -> string, k: string)
    ensures KeySeen(FirstGroups(groups, lower), k, lower) <==> KeyAmong(groups, |groups|, k, lower)
  {
    if groups != [] {
      var n := |groups| - 1;
      var before, g := FirstGroups(groups[..n], lower), Trim(groups[n], GoSpace);
      FirstGroupsCover(groups[..n], lower, k);
      assert KeyAmong(groups[..n], n, k, lower) <==> KeyAmong(groups, n, k, lower);
      if g != "" && !KeySeen(before, lower(g), lower) {
        KeySeenSnoc(before, g, k, lower);
      }
    }
  }

  predicate AscendBelow(at: seq<nat>, bound: nat) {
    && (forall j | 0 <= j < |at| :: at[j] < bound)
    && (forall j, k | 0 <= j < k < |at| :: at[j] < at[k])
  }

  lemma {:induction false} KeySeenSnoc(kept: seq<string>, g: string, k: string, lower: string -> string)
    ensures KeySeen(kept + [g], k, lower) <==> KeySeen(kept, k, lower) || lower(g) == k
  {
    if KeySeen(kept, k, lower) {
      var i :| 0 <= i < |kept| && lower(kept[i]) == k;
      assert lower((kept + [g])[i]) == k;
    }
    if lower(g) == k {
      assert (kept + [g])[|kept|] == g;
    }
  }

  /** The group is not all white space. */
  ghost predicate Lettered(s: string) {
    exists i :: 0 <= i < |s| && !GoSpace(s[i])
  }

  lemma {:induction false} TrimsToNothingIff(s: string)
    ensures Trim(s, GoSpace) != "" <==> Lettered(s)
  {
    var i, j := TrimStripsSpace(s, GoSpace);
    TrimTrims(s, GoSpace);
    if i < j {
      assert Trim(s, GoSpace)[0] == s[i];
    }
  }

  /** No group is kept exactly if all are blank. */
  lemma {:induction false} NoGroupsIff(groups: seq<string>, lower: string -> string)
    ensures FirstGroups(groups, lower) != [] <==> exists i :: 0 <= i < |groups| && Lettered(groups[i])
  {
    var kept := FirstGroups(groups, lower);
    if i :| 0 <= i < |groups| && Lettered(groups[i]) {
      TrimsToNothingIff(groups[i]);
      FirstGroupsCover(groups, lower, lower(Trim(groups[i], GoSpace)));
    }
    if kept != [] {
      assert lower(kept[0]) == lower(kept[0]);
      assert KeySeen(kept, lower(kept[0]), lower);
      FirstGroupsCover(groups, lower, lower(kept[0]));
      var i :| 0 <= i < |groups| && Trim(groups[i], GoSpace) != ""
                && lower(Trim(groups[i], GoSpace)) == lower(kept[0]);
      TrimsToNothingIff(groups[i]);
    }
  }

  /** Whether a key is listed among the first n does not depend on what follows. */
  lemma {:induction false} AmongFront(groups: seq<string>, n: nat, k: string, lower: string -> string)
    requires n < |groups|
    ensures KeyAmong(groups[..|groups| - 1], n, k, lower) <==> KeyAmong(groups, n, k, lower)
  {
    var front := groups[..|groups| - 1];
    if KeyAmong(groups, n, k, lower) {
      var i :| 0 <= i < n && Trim(groups[i], GoSpace) != "" && lower(Trim(groups[i], GoSpace)) == k;
      assert front[i] == groups[i];
    }
  }

  /** The position holds the first group listed under its key, as it is kept. */
  ghost predicate FirstUnderKey(groups: seq<string>, i: nat, g: string, lower: string -> string) {
    && i < |groups| && g == Trim(groups[i], GoSpace)
    && !KeyAmong(groups, i, lower(g), lower)
  }

  /** The groups kept, at ascending positions, are each the first under their key. */
  ghost predicate FirstsAt(groups: seq<string>, kept: seq<string>, at: seq<nat>, lower: string -> string) {
    && |at| == |kept| && AscendBelow(at, |groups|)
    && forall j | 0 <= j < |at| :: FirstUnderKey(groups, at[j], kept[j], lower)
  }

  lemma {:induction false} FirstsStay(groups: seq<string>, kept: seq<string>, at: seq<nat>, lower: string -> string)
    requires groups != [] && FirstsAt(groups[..|groups| - 1], kept, at, lower)
    ensures FirstsAt(groups, kept, at, lower)
  {
    forall j | 0 <= j < |at| ensures FirstUnderKey(groups, at[j], kept[j], lower) {
      assert FirstUnderKey(groups[..|groups| - 1], at[j], kept[j], lower);
      AmongFront(groups, at[j], lower(kept[j]), lower);
    }
  }

  lemma {:induction false} FirstsSnoc(groups: seq<string>, kept: seq<string>, at: seq<nat>, n: nat, g: string,
                                      lower: string -> string)
    requires FirstsAt(groups, kept, at, lower) && AscendBelow(at, n) && FirstUnderKey(groups, n, g, lower)
    ensures FirstsAt(groups, kept + [g], at + [n], lower)
  {
  }

  /** Each kept group is the first listed under its key, as it is written there, and they keep their order. */
  lemma {:induction false} FirstGroupsAreFirst(groups: seq<string>, lower: string -> string) returns (at: seq<nat>)
    ensures FirstsAt(groups, FirstGroups(groups, lower), at, lower)
  {
    if groups == [] {
      at := [];
    } else {
      var n := |groups| - 1;
      var before, g := FirstGroups(groups[..n], lower), Trim(groups[n], GoSpace);
      at := FirstGroupsAreFirst(groups[..n], lower);
      FirstsStay(groups, before, at, lower);
      if g != "" && !KeySeen(before, lower(g), lower) {
        FirstGroupsCover(groups[..n], lower, lower(g));
        AmongFront(groups, n, lower(g), lower);
        FirstsSnoc(groups, before, at, n, g, lower);
        at := at + [n];
      }
    }
  }

  // ----- normalisation -----

  predicate BoundsOk(c: Settings) {
    && 86400 <= c.minShift <= 691200
    && 86400 <= c.rearm <= 604800
    && 0 <= c.jitter <= 86400
    && c.jitter < c.minShift
  }

  method CheckBounds(cfg: Settings) returns (ok: bool)
    ensures ok <==> BoundsOk(cfg)
    ensures ok <==>
      && DAY <= cfg.minShift * SECOND <= 8 * DAY && DAY <= cfg.rearm * SECOND <= 7 * DAY
      && 0 <= cfg.jitter * SECOND <= DAY && cfg.jitter < cfg.minShift
  {
    if cfg.minShift < 24 * 60 * 60 || cfg.minShift > 8 * 24 * 60 * 60 {
      return false;
    }
    if cfg.rearm < 24 * 60 * 60 || cfg.rearm > 7 * 24 * 60 * 60 {
      return false;
    }
    if cfg.jitter < 0 || cfg.jitter > 24 * 60 * 60 {
      return false;
    }
    return cfg.jitter < cfg.minShift;
  }

  function Listed(r: Request): seq<int> {
    if r.legacyAccountId.Some? then [r.legacyAccountId.value] else r.settings.accountIds
  }

  predicate Acceptable(r: Request, lower: string -> string) {
    var c := r.settings;
    && !(r.hasAccountIds && r.legacyAccountId.Some?)
    && !c.mode.OtherMode?
    && AllPositive(Listed(r))
    && (c.enabled ==> Listed(r) != [] && FirstGroups(c.targetGroups, lower) != [] && (c.weekly || c.monthly))
    && BoundsOk(c)
    && (c.schedule.Some? && c.schedule.value.enabled ==> ValidSchedule(c.schedule.value))
  }

  function Tidied(r: Request, lower: string -> string): Settings {
    r.settings.(mode := if r.settings.mode.Unset? then SubscriptionMode else r.settings.mode,
                accountIds := FirstIds(Listed(r)),
                targetGroups := FirstGroups(r.settings.targetGroups, lower))
  }

  function Normalized(r: Request, lower: string -> string): Result<Settings> {
    if Acceptable(r, lower) then Ok(Tidied(r, lower)) else Err
  }

  method DeduplicateAccounts(ids: seq<int>) returns (r: Result<seq<int>>)
    ensures r.Ok? <==> AllPositive(ids)
    ensures r.Ok? ==> r.value == FirstIds(ids)
  {
    var seen: set<int> := {};
    var accounts: seq<int> := [];
    for i := 0 to |ids|
      invariant forall k | 0 <= k < i :: ids[k] > 0
      invariant accounts == FirstIds(ids[..i])
      invariant forall x :: x in seen <==> x in accounts
    {
      assert ids[..i + 1][..i] == ids[..i];
      if ids[i] <= 0 {
        return Err;
      }
      if ids[i] !in seen {
        seen := seen + {ids[i]};
        accounts := accounts + [ids[i]];
      }
    }
    assert ids[..|ids|] == ids;
    return Ok(accounts);
  }

  method DeduplicateGroups(groups: seq<string>, lower: string -> string) returns (kept: seq<string>)
    ensures kept == FirstGroups(groups, lower)
  {
    var seen: set<string> := {};
    kept := [];
    for i := 0 to |groups|
      invariant kept == FirstGroups(groups[..i], lower)
      invariant forall k :: k in seen <==> KeySeen(kept, k, lower)
    {
      assert groups[..i + 1][..i] == groups[..i];
      var group := Trim(groups[i], GoSpace);
      if group != "" && lower(group) !in seen {
        ghost var before := kept;
        seen := seen + {lower(group)};
        kept := kept + [group];
        forall k ensures k in seen <==> KeySeen(kept, k, lower) {
          if KeySeen(before, k, lower) {
            var j :| 0 <= j < |before| && lower(before[j]) == k;
            assert lower(kept[j]) == k;
          }
          assert lower(kept[|before|]) == lower(group);
        }
      }
    }
    assert groups[..|groups|] == groups;
  }

  method ListAccounts(r: Request) returns (accounts: Result<seq<int>>)
    ensures accounts.Ok? <==> !(r.hasAccountIds && r.legacyAccountId.Some?) && AllPositive(Listed(r))
    ensures accounts.Ok? ==> accounts.value == FirstIds(Listed(r)) && (accounts.value == [] <==> Listed(r) == [])
  {
    if r.hasAccountIds && r.legacyAccountId.Some? {
      return Err;
    }
    var ids := r.settings.accountIds;
    if r.legacyAccountId.Some? {
      ids := [r.legacyAccountId.value];
    }
    FirstIdsPositive(ids);
    accounts := DeduplicateAccounts(ids);
  }

  method NormalizeConfig(r: Request, lower: string -> string) returns (result: Result<Settings>)
    ensures result.Ok? <==> Acceptable(r, lower)
    ensures result.Ok? ==> result.value == Tidied(r, lower)
    ensures result.Ok? <==>
      var c := r.settings;
      var ids := if r.legacyAccountId.Some? then [r.legacyAccountId.value] else c.accountIds;
      && !(r.hasAccountIds && r.legacyAccountId.Some?) && c.mode != OtherMode
      && (forall i | 0 <= i < |ids| :: ids[i] > 0)
      && (c.enabled ==>
            && ids != [] && (c.weekly || c.monthly)
            && exists i :: 0 <= i < |c.targetGroups| && Lettered(c.targetGroups[i]))
      && DAY <= c.minShift * SECOND <= 8 * DAY && DAY <= c.rearm * SECOND <= 7 * DAY
      && 0 <= c.jitter * SECOND <= DAY && c.jitter < c.minShift
      && (c.schedule.Some? && c.schedule.value.enabled ==>
            c.schedule.value.accountId > 0 && c.schedule.value.runAt < c.schedule.value.creditExpiresAt)
    ensures result.Ok? ==>
      && result.value.mode == (if r.settings.mode == Unset then SubscriptionMode else r.settings.mode)
      && r.settings == result.value.(mode := r.settings.mode, accountIds := r.settings.accountIds,
                                     targetGroups := r.settings.targetGroups)
  {
    var cfg := r.settings;
    var accounts := ListAccounts(r);
    if accounts.Err? || cfg.mode.OtherMode? {
      return Err;
    }
    if cfg.enabled && accounts.value == [] {
      return Err;
    }
    var groups := DeduplicateGroups(cfg.targetGroups, lower);
    NoGroupsIff(cfg.targetGroups, lower);
    if cfg.enabled && groups == [] {
      return Err;
    }
    if cfg.enabled && !cfg.weekly && !cfg.monthly {
      return Err;
    }
    var inBounds := CheckBounds(cfg);
    if !inBounds {
      return Err;
    }
    if cfg.schedule.Some? && cfg.schedule.value.enabled && !ValidSchedule(cfg.schedule.value) {
      return Err;
    }
    if cfg.mode.Unset? {
      cfg := cfg.(mode := SubscriptionMode);
    }
    cfg := cfg.(accountIds := accounts.value, targetGroups := groups);
    return Ok(cfg);
  }

  /** Saving what was saved changes nothing. */
  lemma {:induction false} NormalizationIsIdempotent(r: Request, lower: string -> string)
    requires Normalized(r, lower).Ok?
    ensures Normalized(Request(Normalized(r, lower).value, true, None), lower) == Normalized(r, lower)
  {
    var c := Normalized(r, lower).value;
    FirstIdsPositive(Listed(r));
    FirstIdsDistinct(Listed(r));
    FirstIdsOfDistinct(c.accountIds);
    FirstGroupsAreTidy(r.settings.targetGroups, lower);
    FirstGroupsAreTidy(c.targetGroups, lower);
  }

  function ThresholdsOf(c: Settings): Thresholds
    requires c.minShift >= 0 && c.rearm >= 0 && c.jitter >= 0
  {
    Thresholds(c.minShift, c.rearm, c.jitter)
  }

  /** Every saved configuration meets the bounds the detector's results assume. */
  lemma {:induction false} SavedThresholdsAreAccepted(r: Request, lower: string -> string)
    requires Normalized(r, lower).Ok?
    ensures var c := Normalized(r, lower).value;
            c.minShift >= 0 && c.rearm >= 0 && c.jitter >= 0 && ThresholdsOf(c).Accepted()
  {
  }

  // ----- the executor reads what the plugin saved -----

  function PySelectors(groups: seq<string>): seq<string> {
    if groups == [] then [] else
      var before := PySelectors(groups[..|groups| - 1]);
      var g := Trim(groups[|groups| - 1], PySpace);
      if g == "" || g in before then before else before + [g]
  }

  /** A group that reads g once stripped is listed among the first n. */
  ghost predicate StrippedAmong(groups: seq<string>, n: nat, g: string)
    requires n <= |groups|
  {
    exists i :: 0 <= i < n && Trim(groups[i], PySpace) == g
  }

  /** The groups that are not blank to Python, stripped. */
  lemma {:induction false} SelectorsAreStripped(groups: seq<string>, g: string)
    ensures g in PySelectors(groups) <==> g != "" && StrippedAmong(groups, |groups|, g)
  {
    if groups != [] {
      var n := |groups| - 1;
      var front, last := groups[..n], Trim(groups[n], PySpace);
      SelectorsAreStripped(front, g);
      if StrippedAmong(groups, |groups|, g) && g != last {
        var i :| 0 <= i < |groups| && Trim(groups[i], PySpace) == g;
        assert front[i] == groups[i];
      }
      if StrippedAmong(front, n, g) {
        var i :| 0 <= i < n && Trim(front[i], PySpace) == g;
        assert groups[i] == front[i];
      }
      assert g == last ==> StrippedAmong(groups, |groups|, g);
    }
  }

  predicate EachOnce(kept: seq<string>) {
    forall i, j | 0 <= i < j < |kept| :: kept[i] != kept[j]
  }

  /** Each once. */
  lemma {:induction false} SelectorsAreDistinct(groups: seq<string>)
    ensures EachOnce(PySelectors(groups))
  {
    if groups != [] {
      SelectorsAreDistinct(groups[..|groups| - 1]);
    }
  }

  /** `Config.from_native_json` on a saved file, in which every field is present. */
  function FromNativeJson(c: Settings): Result<Settings> {
    var selectors := PySelectors(c.targetGroups);
    if c.mode.OtherMode? then Err
    else
      var mode := if c.mode.Unset? then SubscriptionMode else c.mode;
      if c.enabled && !mode.BalanceMode? && selectors == [] then Err
      else if c.enabled && !mode.BalanceMode? && !c.weekly && !c.monthly then Err
      else if !AllPositive(c.accountIds) then Err
      else if c.enabled && c.accountIds == [] then Err
      else if c.minShift < 86400 || c.rearm < 86400 || c.jitter < 0 then Err
      else Ok(c.(mode := mode, accountIds := FirstIds(c.accountIds), targetGroups := selectors))
  }

  predicate BlankToPython(s: string) {
    forall i | 0 <= i < |s| :: PySpace(s[i])
  }

  lemma {:induction false} BlankTrimsAway(s: string)
    ensures Trim(s, PySpace) == "" <==> BlankToPython(s)
    decreases |s|
  {
    if s != "" {
      if PySpace(s[0]) {
        BlankTrimsAway(s[1..]);
        assert forall i | 0 < i < |s| :: s[i] == s[1..][i - 1];
      } else if PySpace(s[|s| - 1]) {
        BlankTrimsAway(s[..|s| - 1]);
      }
    }
  }

  lemma {:induction false} SelectorsEmptyIff(groups: seq<string>)
    ensures PySelectors(groups) == [] <==> forall i | 0 <= i < |groups| :: BlankToPython(groups[i])
  {
    if groups != [] {
      SelectorsEmptyIff(groups[..|groups| - 1]);
      BlankTrimsAway(groups[|groups| - 1]);
    }
  }

  /** What the executor accepts of any file, saved by the plugin or not. */
  lemma {:induction false} ReaderAcceptsIff(c: Settings)
    ensures FromNativeJson(c).Ok? <==>
      && c.mode != OtherMode && (forall i | 0 <= i < |c.accountIds| :: c.accountIds[i] > 0)
      && (c.enabled ==> c.accountIds != [])
      && (c.enabled && c.mode != BalanceMode ==>
            && (c.weekly || c.monthly)
            && exists i :: 0 <= i < |c.targetGroups| && !BlankToPython(c.targetGroups[i]))
      && c.minShift * SECOND >= DAY && c.rearm * SECOND >= DAY && c.jitter >= 0
  {
    SelectorsEmptyIff(c.targetGroups);
  }

  /**
   The executor accepts a configuration the plugin saved, with the same accounts, thresholds and
   windows, if and only if it is disabled, in balance mode, or some group is not blank to Python.
   The plugin itself keeps a group made only of information separators, which Python strips away.
   */
  lemma {:induction false} SavedConfigIsReadableIff(r: Request, lower: string -> string)
    requires Normalized(r, lower).Ok?
    ensures var c := Normalized(r, lower).value;
            var read := FromNativeJson(c);
            && (read.Ok? <==>
                  !c.enabled || c.mode.BalanceMode?
                  || exists i | 0 <= i < |c.targetGroups| :: !BlankToPython(c.targetGroups[i]))
            && (read.Ok? ==> read.value == c.(targetGroups := PySelectors(c.targetGroups)))
  {
    var c := Normalized(r, lower).value;
    FirstIdsPositive(Listed(r));
    FirstIdsDistinct(Listed(r));
    FirstIdsOfDistinct(c.accountIds);
    SelectorsEmptyIff(c.targetGroups);
  }

  /** A group of one file separator: the plugin keeps it, the executor sees none. */
  lemma {:induction false} SeparatorGroupExample(lower: string -> string)
    ensures FirstGroups(["\U{1C}"], lower) == ["\U{1C}"]
    ensures PySelectors(["\U{1C}"]) == []
  {
    assert ["\U{1C}"][..0] == [];
    assert FirstGroups([], lower) == [] && PySelectors([]) == [];
    assert !KeySeen([], lower("\U{1C}"), lower);
    assert Trim("\U{1C}", GoSpace) == "\U{1C}";
    BlankTrimsAway("\U{1C}");
  }
}
