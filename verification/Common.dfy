/** Options, the time scale and the ordered, duplicate-free id lists that the other modules share. */
module Common {

  datatype Option<+T> = None | Some(value: T)

  // Times and durations are whole microseconds, the resolution of the timestamps the executor stores.
  const SECOND := 1_000_000
  const MINUTE := 60_000_000
  const DAY := 86_400_000_000
  const WEEK := 604_800_000_000

  /** The slack allowed around an upstream boundary (five minutes). */
  const BOUNDARY_TOLERANCE := 300_000_000

  ghost predicate StrictlyIncreasing(s: seq<int>) {
    forall i, j | 0 <= i < j < |s| :: s[i] < s[j]
  }

  predicate NoDuplicates(s: seq<int>) {
    forall i, j | 0 <= i < j < |s| :: s[i] != s[j]
  }

  lemma {:induction false} EmptyOrInhabited(ids: set<int>)
    ensures ids == {} || exists x :: x in ids
  {
    if forall x :: x !in ids {
      assert ids == {};
    }
  }

  lemma {:induction false} MinimumExists(ids: set<int>)
    requires ids != {}
    ensures exists m :: m in ids && forall x | x in ids :: m <= x
  {
    EmptyOrInhabited(ids);
    var pick :| pick in ids;
    if ids != {pick} {
      var others := ids - {pick};
      MinimumExists(others);
      var m: int :| m in others && forall x | x in others :: m <= x;
      var least := if pick < m then pick else m;
      assert least in ids;
      forall x | x in ids ensures least <= x {
        assert x == pick || x in others;
      }
    }
  }

  lemma {:induction false} ConsSorted(m: int, rest: seq<int>)
    requires StrictlyIncreasing(rest) && forall x | x in rest :: m < x
    ensures StrictlyIncreasing([m] + rest)
  {
    var s := [m] + rest;
    forall i, j | 0 <= i < j < |s| ensures s[i] < s[j] {
      assert s[j] == rest[j - 1] && s[j] in rest;
      if i > 0 { assert s[i] == rest[i - 1]; }
    }
  }

  function Least(ids: set<int>): (m: int)
    requires ids != {}
    ensures m in ids && forall x | x in ids :: m <= x
  {
    MinimumExists(ids);
    var m :| m in ids && forall x | x in ids :: m <= x;
    m
  }

  /** The ids of a table in ascending order, each once: `ORDER BY id`, or Python's `sorted` of a set. */
  function SortedIds(ids: set<int>): (s: seq<int>)
    ensures forall x :: x in s <==> x in ids
    ensures StrictlyIncreasing(s)
  {
    if ids == {} then [] else
      var m := Least(ids);
      var rest := SortedIds(ids - {m});
      ConsSorted(m, rest);
      [m] + rest
  }
}
