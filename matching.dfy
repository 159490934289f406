/**
 * Overlapping occurrence counting of a query in one record's text.
 *
 * The Java mapper compiles the query as a regular expression and calls
 * `Matcher.find(index)` repeatedly, restarting one position after the start
 * of each match.  Here the query is a literal string: `MatchesAt` is the
 * match relation and `Find` is the leftmost-match search from a start index,
 * including the out-of-bounds exception `find` raises for an index past the
 * end of the text.
 */
module Matching {

  /** The literal query `q` occurs in `text` starting at position `p`. */
  predicate MatchesAt(text: string, q: string, p: nat) {
    p + |q| <= |text| && forall i :: 0 <= i < |q| ==> text[p + i] == q[i]
  }

  /** The number of start positions `p` with `lo <= p < hi` at which `q` occurs. */
  function CountIn(text: string, q: string, lo: nat, hi: nat): nat
    decreases hi
  {
    if hi <= lo then 0
    else CountIn(text, q, lo, hi - 1) + (if MatchesAt(text, q, hi - 1) then 1 else 0)
  }

  /**
   * The number of start positions in the whole text at which `q` occurs,
   * overlapping occurrences included.  Position `|text|` is a candidate too:
   * only the empty query matches there.
   */
  function CountOverlapping(text: string, q: string): (r: nat)
    ensures r == 0 <==> Find(text, q, 0).NoMatch?
    ensures r <= |text| + 1
  {
    CountInFirstMatch(text, q);
    CountInAtMost(text, q, 0, |text| + 1);
    CountIn(text, q, 0, |text| + 1)
  }

  /** The whole count is zero exactly when the search from the start finds nothing. */
  lemma CountInFirstMatch(text: string, q: string)
    ensures CountIn(text, q, 0, |text| + 1) == 0 <==> Find(text, q, 0).NoMatch?
  {
    match Find(text, q, 0)
    case NoMatch =>
      CountInNone(text, q, 0, |text| + 1);
    case Match(p) =>
      FoundOneMore(text, q, 0, p);
      CountInSplit(text, q, 0, p + 1, |text| + 1);
  }

  /** What one call `matcher.find(from)` yields. */
  datatype Search = Match(start: nat) | NoMatch | OutOfBounds

  /** `Matcher.find(from)` for a literal query: the leftmost match at or after `from`. */
  function Find(text: string, q: string, from: nat): (r: Search)
    decreases |text| - from
    ensures r.OutOfBounds? <==> from > |text|
    ensures r.Match? ==> from <= r.start <= |text| && MatchesAt(text, q, r.start)
    ensures r.Match? ==> forall p :: from <= p < r.start ==> !MatchesAt(text, q, p)
    ensures r.NoMatch? ==> forall p :: from <= p <= |text| ==> !MatchesAt(text, q, p)
  {
    if from > |text| then OutOfBounds
    else if MatchesAt(text, q, from) then Match(from)
    else if from == |text| then NoMatch
    else Find(text, q, from + 1)
  }

  lemma {:induction false} CountInSplit(text: string, q: string, lo: nat, mid: nat, hi: nat)
    requires lo <= mid <= hi
    ensures CountIn(text, q, lo, hi) == CountIn(text, q, lo, mid) + CountIn(text, q, mid, hi)
  {
    if hi > mid {
      CountInSplit(text, q, lo, mid, hi - 1);
    }
  }

  lemma {:induction false} CountInNone(text: string, q: string, lo: nat, hi: nat)
    requires forall p :: lo <= p < hi ==> !MatchesAt(text, q, p)
    ensures CountIn(text, q, lo, hi) == 0
  {
    if hi > lo {
      CountInNone(text, q, lo, hi - 1);
    }
  }

  lemma {:induction false} CountInAtMost(text: string, q: string, lo: nat, hi: nat)
    requires lo <= hi
    ensures CountIn(text, q, lo, hi) <= hi - lo
  {
    if hi > lo {
      CountInAtMost(text, q, lo, hi - 1);
    }
  }

  /**
   * One step of the search loop: when the leftmost match at or after `from`
   * starts at `p`, the positions below `p + 1` hold exactly one more match
   * than the positions below `from`.
   */
  lemma FoundOneMore(text: string, q: string, from: nat, p: nat)
    requires from <= p && MatchesAt(text, q, p)
    requires forall j :: from <= j < p ==> !MatchesAt(text, q, j)
    ensures CountIn(text, q, 0, p + 1) == CountIn(text, q, 0, from) + 1
  {
    CountInSplit(text, q, 0, from, p);
    CountInNone(text, q, from, p);
  }

  /** No match at or after `from`: the count below `from` is the whole count. */
  lemma NoneLeft(text: string, q: string, from: nat)
    requires from <= |text| + 1
    requires forall p :: from <= p <= |text| ==> !MatchesAt(text, q, p)
    ensures CountIn(text, q, 0, from) == CountOverlapping(text, q)
  {
    CountInSplit(text, q, 0, from, |text| + 1);
    CountInNone(text, q, from, |text| + 1);
  }

  /** A non-empty query has at most one occurrence per start position where it still fits. */
  lemma CountBound(text: string, q: string)
    requires |q| > 0
    ensures CountOverlapping(text, q) <= if |q| <= |text| then |text| - |q| + 1 else 0
  {
    var last := if |q| <= |text| then |text| - |q| + 1 else 0;
    CountInSplit(text, q, 0, last, |text| + 1);
    CountInNone(text, q, last, |text| + 1);
    CountInAtMost(text, q, 0, last);
  }

  /** The empty query matches at every position, the end of the text included. */
  lemma EmptyQueryCount(text: string)
    ensures CountOverlapping(text, []) == |text| + 1
  {
    forall p: nat | p < |text| + 1 ensures MatchesAt(text, [], p) { }
    EveryPositionCounts(text, [], 0, |text| + 1);
  }

  lemma {:induction false} EveryPositionCounts(text: string, q: string, lo: nat, hi: nat)
    requires lo <= hi
    requires forall p :: lo <= p < hi ==> MatchesAt(text, q, p)
    ensures CountIn(text, q, lo, hi) == hi - lo
  {
    if hi > lo {
      EveryPositionCounts(text, q, lo, hi - 1);
    }
  }

  /** Positions whose occurrence lies inside the first `k` characters count the same in that prefix. */
  lemma {:induction false} CountInPrefix(text: string, q: string, k: nat, hi: nat)
    requires k <= |text| && hi + |q| <= k + 1
    ensures CountIn(text, q, 0, hi) == CountIn(text[..k], q, 0, hi)
  {
    if hi > 0 {
      CountInPrefix(text, q, k, hi - 1);
      forall j | hi - 1 <= j < hi - 1 + |q| ensures text[..k][j] == text[j] { }
    }
  }

  /** For a one-character query the count is the number of occurrences of that character. */
  lemma {:induction false} SingleCharCount(text: string, c: char)
    ensures CountOverlapping(text, [c]) == multiset(text)[c]
  {
    if text != [] {
      var n := |text|;
      var init := text[..n - 1];
      calc {
        CountOverlapping(text, [c]);
        CountIn(text, [c], 0, n);
        { assert [c][0] == c && text[n - 1 + 0] == text[n - 1]; }
        CountIn(text, [c], 0, n - 1) + (if text[n - 1] == c then 1 else 0);
        { CountInPrefix(text, [c], n - 1, n - 1); }
        CountIn(init, [c], 0, n - 1) + (if text[n - 1] == c then 1 else 0);
        { SingleCharCount(init, c); }
        multiset(init)[c] + (if text[n - 1] == c then 1 else 0);
        { assert text == init + [text[n - 1]]; }
        multiset(text)[c];
      }
    } else {
      assert !MatchesAt(text, [c], 0);
      assert CountIn(text, [c], 0, 1) == 0;
    }
  }

  /** The overlapping counts stated for the system. */
  lemma OverlapExamples()
    ensures CountOverlapping("AAAA", "AA") == 3
    ensures CountOverlapping("ABAB", "AB") == 2
    ensures CountOverlapping("", "A") == 0
  {
    var a := "AAAA";
    assert MatchesAt(a, "AA", 0) && MatchesAt(a, "AA", 1) && MatchesAt(a, "AA", 2);
    assert !MatchesAt(a, "AA", 3) && !MatchesAt(a, "AA", 4);
    assert CountIn(a, "AA", 0, 3) == 3;
    assert CountIn(a, "AA", 0, 4) == 3;
    assert CountIn(a, "AA", 0, 5) == 3;
    var b := "ABAB";
    assert b[1..3][0] == 'B';
    assert MatchesAt(b, "AB", 0) && !MatchesAt(b, "AB", 1) && MatchesAt(b, "AB", 2);
    assert !MatchesAt(b, "AB", 3) && !MatchesAt(b, "AB", 4);
    assert CountIn(b, "AB", 0, 3) == 2;
    assert CountIn(b, "AB", 0, 4) == 2;
    assert CountIn(b, "AB", 0, 5) == 2;
    assert !MatchesAt("", "A", 0);
  }
}
