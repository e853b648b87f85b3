/** Types shared by every model, and sums over finite maps. */
module Basics {

  datatype Option<+T> = None | Some(value: T)

  datatype Result<+T, +E> = Ok(value: T) | Err(error: E)

  type Byte = x: int | 0 <= x < 256
  type Bytes = seq<Byte>

  const U64_LIMIT := 0x1_0000_0000_0000_0000
  type U64 = x: nat | x < U64_LIMIT

  /** The sum of `weight` over the values of `m`, independent of any order. */
  ghost function Sum<K(!new), V(!new)>(m: map<K, V>, weight: V -> int): int
    decreases |m|
  {
    if m == map[] then 0
    else
      var k :| k in m;
      assert |m - {k}| < |m| by { assert (m - {k}).Keys == m.Keys - {k}; }
      weight(m[k]) + Sum(m - {k}, weight)
  }

  /** Any key may be taken out first. */
  lemma {:induction false} SumRemove<K(!new), V(!new)>(m: map<K, V>, k: K, weight: V -> int)
    requires k in m
    ensures Sum(m, weight) == weight(m[k]) + Sum(m - {k}, weight)
    decreases |m|
  {
    var first :| first in m && Sum(m, weight) == weight(m[first]) + Sum(m - {first}, weight);
    if first != k {
      assert (m - {first}).Keys == m.Keys - {first};
      SumRemove(m - {first}, k, weight);
      assert (m - {k}).Keys == m.Keys - {k};
      SumRemove(m - {k}, first, weight);
      assert m - {first} - {k} == m - {k} - {first};
    }
  }

  /** Writing one key changes the sum by the difference of the two weights. */
  lemma SumUpdate<K(!new), V(!new)>(m: map<K, V>, k: K, v: V, weight: V -> int)
    ensures Sum(m[k := v], weight)
         == Sum(m, weight) + weight(v) - (if k in m then weight(m[k]) else 0)
  {
    SumRemove(m[k := v], k, weight);
    assert m[k := v] - {k} == m - {k};
    if k in m {
      SumRemove(m, k, weight);
    } else {
      assert m - {k} == m;
    }
  }

  /** A sum of non-negative weights is at least any one of them. */
  lemma {:induction false} SumNonNegative<K(!new), V(!new)>(m: map<K, V>, weight: V -> int)
    requires forall v :: weight(v) >= 0
    ensures Sum(m, weight) >= 0
    ensures forall k :: k in m ==> weight(m[k]) <= Sum(m, weight)
    decreases |m|
  {
    if m != map[] {
      forall k | k in m
        ensures 0 <= weight(m[k]) <= Sum(m, weight)
      {
        assert (m - {k}).Keys == m.Keys - {k};
        SumNonNegative(m - {k}, weight);
        SumRemove(m, k, weight);
      }
      var k :| k in m;
    }
  }
}
