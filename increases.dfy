/**
 * Day 1 (src/1.ts): counting how often a depth reading increases, directly and
 * over sliding windows of three readings.
 */
module Increases {
  import opened Wrappers

  /**
   * The test inside the reducer of `getIncreases`: `acc.last && val > acc.last`.
   * The previous reading is `null` before the first element, and a previous
   * reading of 0 is falsy too, so no increase is counted after a 0.
   */
  predicate CountsAsIncrease(last: Option<int>, val: int) {
    last.Some? && last.value != 0 && val > last.value
  }

  /** Reference count of the increases `getIncreases` records, defined pair by pair from the end. */
  function IncreaseCount(s: seq<int>): nat {
    if |s| < 2 then 0
    else IncreaseCount(s[..|s| - 1]) + (if CountsAsIncrease(Some(s[|s| - 2]), s[|s| - 1]) then 1 else 0)
  }

  /** An increase is counted at index i: reading i rises above a non-zero reading i - 1. */
  predicate IncreaseAt(s: seq<int>, i: nat) {
    1 <= i < |s| && s[i - 1] != 0 && s[i] > s[i - 1]
  }

  /** The indices at which an increase is counted. */
  ghost function IncreaseIndices(s: seq<int>): set<nat> {
    set i: nat | i < |s| && IncreaseAt(s, i)
  }

  /** Number of plain increases (every adjacent pair compared, whatever the previous value). */
  function PlainIncreaseCount(s: seq<int>): nat {
    if |s| < 2 then 0
    else PlainIncreaseCount(s[..|s| - 1]) + (if s[|s| - 1] > s[|s| - 2] then 1 else 0)
  }

  /** `getIncreases`: the reduce over the readings, with the accumulator `{ last, increases }`. */
  method GetIncreases(input: seq<int>) returns (increases: nat)
    ensures increases == IncreaseCount(input)
  {
    var last: Option<int> := None;
    increases := 0;
    var i := 0;
    while i < |input|
      invariant 0 <= i <= |input|
      invariant increases == IncreaseCount(input[..i])
      invariant last == if i == 0 then None else Some(input[i - 1])
    {
      var val := input[i];
      if CountsAsIncrease(last, val) {
        increases := increases + 1;
      }
      last := Some(val);
      assert input[..i + 1][..i] == input[..i];
      i := i + 1;
    }
    assert input[..i] == input;
  }

  /** The count is exactly the number of indices whose pair passes the test. */
  lemma {:induction false} IncreaseCountIsIndexCount(s: seq<int>)
    ensures IncreaseCount(s) == |IncreaseIndices(s)|
  {
    if |s| < 2 {
      assert IncreaseIndices(s) == {};
    } else {
      var p := s[..|s| - 1];
      IncreaseCountIsIndexCount(p);
      var n := |s| - 1;
      if s[n - 1] != 0 && s[n] > s[n - 1] {
        assert IncreaseIndices(s) == IncreaseIndices(p) + {n};
        assert n !in IncreaseIndices(p);
      } else {
        assert IncreaseIndices(s) == IncreaseIndices(p);
      }
    }
  }

  /** At most one increase per adjacent pair; none for fewer than two readings. */
  lemma {:induction false} IncreaseCountBound(s: seq<int>)
    ensures IncreaseCount(s) <= if |s| < 2 then 0 else |s| - 1
  {
    if |s| >= 2 {
      IncreaseCountBound(s[..|s| - 1]);
    }
  }

  /**
   * Where no reading before the last is 0, the falsy-zero test makes no
   * difference: the count is the plain number of increases.
   */
  lemma {:induction false} NoZeroMeansPlainCount(s: seq<int>)
    requires forall i :: 0 <= i < |s| - 1 ==> s[i] != 0
    ensures IncreaseCount(s) == PlainIncreaseCount(s)
  {
    if |s| >= 2 {
      NoZeroMeansPlainCount(s[..|s| - 1]);
    }
  }

  /** A rise that follows a 0 reading is not counted. */
  lemma ZeroReadingSkipsIncrease()
    ensures IncreaseCount([0, 5]) == 0 && PlainIncreaseCount([0, 5]) == 1
  {
  }

  /** The sums of three consecutive readings that `getWindowedIncreases` builds. */
  function Windows(s: seq<int>): seq<int> {
    if |s| < 3 then [] else seq(|s| - 2, i requires 0 <= i < |s| - 2 => s[i] + s[i + 1] + s[i + 2])
  }

  /**
   * The reduce of `getWindowedIncreases` that pushes one window per index that
   * still has two readings after it.
   */
  method BuildWindows(input: seq<int>) returns (windows: seq<int>)
    ensures |windows| == if |input| < 3 then 0 else |input| - 2
    ensures forall i :: 0 <= i < |windows| ==> windows[i] == input[i] + input[i + 1] + input[i + 2]
    ensures windows == Windows(input)
  {
    windows := [];
    var idx := 0;
    while idx < |input|
      invariant 0 <= idx <= |input|
      invariant |windows| == if idx + 2 <= |input| then idx else if |input| < 3 then 0 else |input| - 2
      invariant forall i :: 0 <= i < |windows| ==> windows[i] == input[i] + input[i + 1] + input[i + 2]
    {
      if idx + 3 <= |input| {
        windows := windows + [input[idx] + input[idx + 1] + input[idx + 2]];
      }
      idx := idx + 1;
    }
    if |input| >= 3 {
      assert forall i :: 0 <= i < |windows| ==> windows[i] == Windows(input)[i];
    }
  }

  /** `getWindowedIncreases`: the increase count, falsy-zero test included, over the window sums. */
  method GetWindowedIncreases(input: seq<int>) returns (increases: nat)
    ensures increases == IncreaseCount(Windows(input))
  {
    var windows := BuildWindows(input);
    increases := GetIncreases(windows);
  }

  /**
   * Two consecutive windows share two readings, so window i+1 exceeds window i
   * exactly when reading i+3 exceeds reading i; the zero test still looks at the
   * window sum.
   */
  lemma {:induction false} WindowIncreaseByEnds(s: seq<int>, i: nat)
    requires i + 3 < |s|
    ensures |Windows(s)| == |s| - 2
    ensures CountsAsIncrease(Some(Windows(s)[i]), Windows(s)[i + 1])
        <==> Windows(s)[i] != 0 && s[i + 3] > s[i]
  {
  }

  /** Windowed counting never records more than one increase per pair of windows. */
  lemma WindowedIncreasesBound(s: seq<int>)
    ensures IncreaseCount(Windows(s)) <= if |s| < 4 then 0 else |s| - 3
  {
    IncreaseCountBound(Windows(s));
  }
}
