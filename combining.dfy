/**
 * The mapper's combiner: per-identifier running sums (`LongVbl.Sum`).
 * A key is the mapper's current sequence identifier, which is null
 * (`None`) when no header has been read.
 */
module Combining {
  import opened Wrappers

  type Key = Option<string>

  type Sums = map<Key, nat>

  /** The `LongVbl.Sum(1)` increment the mapper adds per match. */
  const One: nat := 1

  /** The running sum of `k`; a key never added reads as zero. */
  function Get(m: Sums, k: Key): nat {
    if k in m then m[k] else 0
  }

  /** Every key present holds a positive sum: keys appear only through an addition. */
  predicate NoZeroSums(m: Sums) {
    forall k :: k in m ==> m[k] > 0
  }

  /**
   * The effect of `n` consecutive `add(k, ONE)` calls: `k`'s sum grows by
   * `n`, every other sum is unchanged, and `k` becomes present only when at
   * least one call was made.
   */
  function AddCount(m: Sums, k: Key, n: nat): (r: Sums)
    ensures Get(r, k) == Get(m, k) + n
    ensures forall j :: j != k ==> Get(r, j) == Get(m, j)
    ensures r.Keys == if n == 0 then m.Keys else m.Keys + {k}
    ensures NoZeroSums(m) ==> NoZeroSums(r)
  {
    if n == 0 then m else m[k := Get(m, k) + n]
  }

  /** One more `add(k, ONE)` after `n` of them is `n + 1` of them. */
  lemma AddOneMore(m: Sums, k: Key, n: nat)
    ensures AddCount(m, k, n)[k := Get(AddCount(m, k, n), k) + One] == AddCount(m, k, n + 1)
  {
  }

  class Combiner {
    var sums: Sums

    constructor ()
      ensures sums == map[]
    {
      sums := map[];
    }

    /** `combiner.add(key, value)`: the key's sum grows by `v`, others stay. */
    method Add(key: Key, v: nat)
      modifies this
      ensures sums == old(sums)[key := Get(old(sums), key) + v]
    {
      sums := sums[key := Get(sums, key) + v];
    }
  }
}
