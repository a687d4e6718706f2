/**
 * The scoring of a finished session: accuracy as the rounded percentage of typed
 * characters that match the prompt at the same position, and words per minute at
 * five characters to the word.
 *
 * The scores are JavaScript numbers. A division by zero makes them NaN or Infinity,
 * which Metric records as NotFinite; every other score is an integer after Math.round.
 * Quotients are taken exactly: floating-point error in them is not modelled.
 */
module Scoring {

  datatype Metric = Finite(value: int) | NotFinite

  /**
   * Math.round(num / den) for den > 0: the integer nearest to num / den, with an
   * exact half rounded up (towards +Infinity, also for negative quotients).
   */
  function RoundHalfUp(num: int, den: int): (r: int)
    requires den > 0
    ensures 2 * den * r <= 2 * num + den < 2 * den * (r + 1)
  {
    var q := (2 * num + den) / (2 * den);
    var m := (2 * num + den) % (2 * den);
    assert 2 * num + den == 2 * den * q + m && 0 <= m < 2 * den;
    q
  }

  /** Math.round(num / den) stays within k when num / den does. */
  lemma RoundHalfUpBounds(num: int, den: int, k: int)
    requires den > 0
    ensures num <= k * den ==> RoundHalfUp(num, den) <= k
    ensures num >= k * den ==> RoundHalfUp(num, den) >= k
  {
    var r := RoundHalfUp(num, den);
    if num <= k * den && r > k {
      assert 2 * den * r >= 2 * den * (k + 1) by { MulMonotone(2 * den, k + 1, r); }
    }
    if num >= k * den && r < k {
      assert 2 * den * (r + 1) <= 2 * den * k by { MulMonotone(2 * den, r + 1, k); }
    }
  }

  lemma MulMonotone(d: nat, a: int, b: int)
    requires a <= b
    ensures d * a <= d * b
  {
  }

  /** Position i holds a correct keystroke: it was typed, the prompt has a character there, and they agree. */
  predicate MatchesAt(original: string, typed: string, i: nat)
  {
    i < |typed| && i < |original| && typed[i] == original[i]
  }

  /** The number of correct keystrokes among the positions below n. */
  function CountBelow(original: string, typed: string, n: nat): (c: nat)
    ensures c <= n && c <= |typed|
  {
    if n == 0 then 0
    else CountBelow(original, typed, n - 1) + (if MatchesAt(original, typed, n - 1) then 1 else 0)
  }

  /** The number of correct keystrokes in the whole of typed. */
  function MatchCount(original: string, typed: string): nat
  {
    CountBelow(original, typed, |typed|)
  }

  /** The set of positions at which a correct keystroke was typed. */
  ghost function Matches(original: string, typed: string, n: nat): set<nat>
  {
    set i: nat | i < n && MatchesAt(original, typed, i)
  }

  /** The count below n is the number of positions below n that hold a correct keystroke. */
  lemma {:induction false} CountBelowIsCardinality(original: string, typed: string, n: nat)
    ensures CountBelow(original, typed, n) == |Matches(original, typed, n)|
  {
    if n == 0 {
      assert Matches(original, typed, 0) == {};
    } else {
      CountBelowIsCardinality(original, typed, n - 1);
      var below := Matches(original, typed, n - 1);
      assert n - 1 !in below;
      if MatchesAt(original, typed, n - 1) {
        assert Matches(original, typed, n) == below + {n - 1};
      } else {
        assert Matches(original, typed, n) == below;
      }
    }
  }

  /**
   * calculateAccuracy counts exactly the positions i < |typed| with typed[i] == original[i];
   * a position past the end of the prompt never counts.
   */
  lemma MatchCountCountsPositions(original: string, typed: string)
    ensures MatchCount(original, typed) == |Matches(original, typed, |typed|)|
    ensures MatchCount(original, typed) <= |typed|
    ensures forall i: nat :: i in Matches(original, typed, |typed|) <==>
              i < |typed| && i < |original| && typed[i] == original[i]
  {
    CountBelowIsCardinality(original, typed, |typed|);
  }

  /** Once n reaches the end of either string, counting further positions adds nothing. */
  lemma {:induction false} CountBelowSaturates(original: string, typed: string, n: nat, m: nat)
    requires |typed| <= n <= m || |original| <= n <= m
    ensures CountBelow(original, typed, m) == CountBelow(original, typed, n)
    decreases m
  {
    if m > n {
      CountBelowSaturates(original, typed, n, m - 1);
    }
  }

  /** The accuracy score: Math.round(correct / typed.length * 100), NaN when nothing was typed. */
  function Accuracy(original: string, typed: string): (m: Metric)
    ensures m.Finite? <==> |typed| > 0
    ensures m.Finite? ==> 0 <= m.value <= 100
  {
    if |typed| == 0 then NotFinite
    else
      RoundHalfUpBounds(100 * MatchCount(original, typed), |typed|, 0);
      RoundHalfUpBounds(100 * MatchCount(original, typed), |typed|, 100);
      Finite(RoundHalfUp(100 * MatchCount(original, typed), |typed|))
  }

  /** Loop of calculateAccuracy: the correct keystrokes counted position by position. */
  method CalculateAccuracy(original: string, typed: string) returns (accuracy: Metric)
    ensures accuracy == Accuracy(original, typed)
  {
    var correctKeystrokes := 0;
    var i := 0;
    while i < |typed|
      invariant i <= |typed|
      invariant correctKeystrokes == CountBelow(original, typed, i)
    {
      if i < |original| && typed[i] == original[i] {
        correctKeystrokes := correctKeystrokes + 1;
      }
      i := i + 1;
    }
    if |typed| == 0 {
      accuracy := NotFinite;
    } else {
      accuracy := Finite(RoundHalfUp(100 * correctKeystrokes, |typed|));
    }
  }

  /** A non-empty input that copies the prompt exactly, as far as it goes, scores 100. */
  lemma {:induction false} PerfectTypingScoresFull(original: string, typed: string)
    requires 0 < |typed| <= |original| && typed == original[..|typed|]
    ensures MatchCount(original, typed) == |typed|
    ensures Accuracy(original, typed) == Finite(100)
  {
    AllMatchBelow(original, typed, |typed|);
    RoundHalfUpBounds(100 * |typed|, |typed|, 100);
  }

  /** Where the first n characters of input and prompt agree, all n keystrokes are correct. */
  lemma {:induction false} AllMatchBelow(original: string, typed: string, n: nat)
    requires n <= |typed| && n <= |original| && typed[..n] == original[..n]
    ensures CountBelow(original, typed, n) == n
  {
    if n > 0 {
      assert typed[..n - 1] == typed[..n][..n - 1] && original[..n - 1] == original[..n][..n - 1];
      AllMatchBelow(original, typed, n - 1);
      assert typed[n - 1] == typed[..n][n - 1];
    }
  }

  /**
   * Words per minute: Math.round(chars / 5 / minutes) with minutes = elapsedMs / 1000 / 60,
   * that is the quotient chars * 12000 / elapsedMs rounded; NaN or Infinity when no time elapsed.
   */
  function Wpm(chars: nat, elapsedMs: int): (m: Metric)
    ensures m.Finite? <==> elapsedMs != 0
    ensures elapsedMs > 0 ==> m.value >= 0
    ensures elapsedMs > 0 ==>
              2 * elapsedMs * m.value <= 24000 * chars + elapsedMs < 2 * elapsedMs * (m.value + 1)
    ensures elapsedMs < 0 ==> m.value <= 0
  {
    if elapsedMs == 0 then NotFinite
    else if elapsedMs > 0 then
      RoundHalfUpBounds(12000 * chars, elapsedMs, 0);
      Finite(RoundHalfUp(12000 * chars, elapsedMs))
    else
      RoundHalfUpBounds(-12000 * chars, -elapsedMs, 0);
      Finite(RoundHalfUp(-12000 * chars, -elapsedMs))
  }

  /**
   * The scoring example: prompt "the quick brown fox", input "the quick broen" typed
   * over 30 seconds has 14 of 15 keystrokes correct, so 93% accuracy and 6 words per minute.
   */
  lemma ScoringExample()
    ensures MatchCount("the quick brown fox", "the quick broen") == 14
    ensures Accuracy("the quick brown fox", "the quick broen") == Finite(93)
    ensures Wpm(15, 30000) == Finite(6)
  {
    var o, t := "the quick brown fox", "the quick broen";
    assert t[..13] == o[..13];
    AllMatchBelow(o, t, 13);
    assert CountBelow(o, t, 15) == 14;
    RoundHalfUpBounds(1400, 15, 93);
    RoundHalfUpBounds(1400, 15, 94);
  }
}
