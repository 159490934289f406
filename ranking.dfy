/**
 * The reducer's ordering (`MyCustomizer.comesBefore`): higher count first,
 * and for equal counts the identifier that `String.compareTo` puts first.
 */
module Ranking {

  /** Lexicographic order: `a` is a proper prefix of `b`, or is smaller at the first difference. */
  predicate LexLess(a: string, b: string) {
    (|a| < |b| && a == b[..|a|]) ||
    exists k :: 0 <= k < |a| && k < |b| && a[..k] == b[..k] && a[k] < b[k]
  }

  /** Lexicographic order decided by the first characters, or by the rest when they agree. */
  lemma LexLessStep(a: string, b: string)
    ensures |a| == 0 || |b| == 0 ==> (LexLess(a, b) <==> |a| < |b|)
    ensures |a| > 0 && |b| > 0 && a[0] != b[0] ==> (LexLess(a, b) <==> a[0] < b[0])
    ensures |a| > 0 && |b| > 0 && a[0] == b[0] ==> (LexLess(a, b) <==> LexLess(a[1..], b[1..]))
  {
    if |a| == 0 || |b| == 0 {
      if |a| == 0 && |b| > 0 {
        assert a == b[..|a|];
      }
    } else if a[0] != b[0] {
      if a[0] < b[0] {
        assert a[..0] == b[..0];
      }
    } else {
      var a', b' := a[1..], b[1..];
      if LexLess(a', b') {
        if |a'| < |b'| && a' == b'[..|a'|] {
          assert a == b[..|a|] by { assert a == [a[0]] + a' && b[..|a|] == [b[0]] + b'[..|a'|]; }
        } else {
          var k :| 0 <= k < |a'| && k < |b'| && a'[..k] == b'[..k] && a'[k] < b'[k];
          assert a[..k + 1] == [a[0]] + a'[..k] && b[..k + 1] == [b[0]] + b'[..k];
          assert a[k + 1] == a'[k] && b[k + 1] == b'[k];
        }
      }
      if LexLess(a, b) {
        if |a| < |b| && a == b[..|a|] {
          assert a' == b'[..|a'|];
        } else {
          var k :| 0 <= k < |a| && k < |b| && a[..k] == b[..k] && a[k] < b[k];
          assert k > 0;
          assert a'[..k - 1] == a[..k][1..] && b'[..k - 1] == b[..k][1..];
          assert a'[k - 1] == a[k] && b'[k - 1] == b[k];
        }
      }
    }
  }

  /**
   * `String.compareTo`: the difference of the first differing characters,
   * or of the lengths when one string is a prefix of the other.  Its sign
   * is lexicographic order, and it is zero exactly for equal strings.
   */
  function CompareTo(a: string, b: string): (r: int)
    ensures r < 0 <==> LexLess(a, b)
    ensures r == 0 <==> a == b
  {
    LexLessStep(a, b);
    if |a| == 0 || |b| == 0 then |a| - |b|
    else if a[0] != b[0] then a[0] as int - b[0] as int
    else
      assert a == [a[0]] + a[1..] && b == [b[0]] + b[1..];
      CompareTo(a[1..], b[1..])
  }

  /** `comesBefore(key_1, value_1, key_2, value_2)`: count descending, then identifier ascending. */
  predicate ComesBefore(key1: string, value1: nat, key2: string, value2: nat)
    ensures ComesBefore(key1, value1, key2, value2) <==>
      value1 > value2 || (value1 == value2 && LexLess(key1, key2))
  {
    if value1 > value2 then true
    else if value1 < value2 then false
    else CompareTo(key1, key2) < 0
  }

  lemma {:induction false} CompareToAntisymmetric(a: string, b: string)
    ensures CompareTo(b, a) == -CompareTo(a, b)
  {
    if |a| > 0 && |b| > 0 && a[0] == b[0] {
      CompareToAntisymmetric(a[1..], b[1..]);
    }
  }

  lemma {:induction false} CompareToTransitive(a: string, b: string, c: string)
    requires CompareTo(a, b) < 0 && CompareTo(b, c) < 0
    ensures CompareTo(a, c) < 0
  {
    if |a| > 0 && |b| > 0 && |c| > 0 && a[0] == b[0] && b[0] == c[0] {
      CompareToTransitive(a[1..], b[1..], c[1..]);
    }
  }

  lemma ComesBeforeIrreflexive(key: string, value: nat)
    ensures !ComesBefore(key, value, key, value)
  {
  }

  /** Of two distinct entries exactly one comes before the other. */
  lemma ComesBeforeExactlyOne(key1: string, value1: nat, key2: string, value2: nat)
    requires key1 != key2 || value1 != value2
    ensures ComesBefore(key1, value1, key2, value2) != ComesBefore(key2, value2, key1, value1)
  {
    CompareToAntisymmetric(key1, key2);
  }

  lemma ComesBeforeAsymmetric(key1: string, value1: nat, key2: string, value2: nat)
    requires ComesBefore(key1, value1, key2, value2)
    ensures !ComesBefore(key2, value2, key1, value1)
  {
    CompareToAntisymmetric(key1, key2);
  }

  lemma ComesBeforeTransitive(key1: string, value1: nat, key2: string, value2: nat, key3: string, value3: nat)
    requires ComesBefore(key1, value1, key2, value2) && ComesBefore(key2, value2, key3, value3)
    ensures ComesBefore(key1, value1, key3, value3)
  {
    if value1 == value2 == value3 {
      CompareToTransitive(key1, key2, key3);
    }
  }

  /** The tie-break the report is documented to follow. */
  lemma TieBreakExample()
    ensures ComesBefore("beta", 7, "alpha", 5)
    ensures ComesBefore("alpha", 5, "zeta", 5) && !ComesBefore("zeta", 5, "alpha", 5)
  {
    assert "alpha"[0] == 'a' && "zeta"[0] == 'z';
  }

  /** One line of the report. */
  datatype Entry = Entry(key: string, count: nat)

  /** Every entry comes before every later one. */
  predicate Ranked(es: seq<Entry>) {
    forall i, j :: 0 <= i < j < |es| ==> ComesBefore(es[i].key, es[i].count, es[j].key, es[j].count)
  }

  lemma HeadIsMember(es: seq<Entry>)
    ensures |es| > 0 ==> es[0] in es
  {
  }

  /**
   * The order fixes the report: two ranked sequences of the same entries are
   * equal, whatever order the entries arrived in.
   */
  lemma {:induction false} RankedIsUnique(a: seq<Entry>, b: seq<Entry>)
    requires Ranked(a) && Ranked(b)
    requires forall e :: e in a <==> e in b
    ensures a == b
    decreases |a|
  {
    if a == [] {
      HeadIsMember(b);
    } else {
      assert a[0] in a;
      var j :| 0 <= j < |b| && b[j] == a[0];
      assert b[0] in b;
      var i :| 0 <= i < |a| && a[i] == b[0];
      if a[0] != b[0] {
        assert i > 0 && j > 0;
        ComesBeforeAsymmetric(a[0].key, a[0].count, a[i].key, a[i].count);
        assert false;
      }
      forall e ensures e in a[1..] <==> e in b[1..] {
        if e in a[1..] {
          var m :| 0 <= m < |a[1..]| && a[1..][m] == e;
          if e == a[0] {
            ComesBeforeIrreflexive(e.key, e.count);
            assert false;
          }
          assert e in b;
        }
        if e in b[1..] {
          var m :| 0 <= m < |b[1..]| && b[1..][m] == e;
          if e == b[0] {
            ComesBeforeIrreflexive(e.key, e.count);
            assert false;
          }
          assert e in a;
        }
      }
      RankedIsUnique(a[1..], b[1..]);
      assert a == [a[0]] + a[1..] && b == [b[0]] + b[1..];
    }
  }
}
