/** Shared vocabulary: bytes, options, and sums over finite maps. */
module Util {

  type Byte = b: int | 0 <= b < 256

  datatype Option<+T> = None | Some(value: T)

  function Min(a: int, b: int): int { if a <= b then a else b }

  function Max(a: int, b: int): int { if a >= b then a else b }

  /** The big-endian 16-bit word of two bytes (`u16::from_be_bytes`). */
  function Be16(hi: Byte, lo: Byte): int { 256 * hi + lo }

  /** A 32-bit word as a signed number, and back (`as i32`, `as u32`). */
  function AsI32(x: nat): int { if x < 0x8000_0000 then x else x - 0x1_0000_0000 }

  function AsU32(v: int): int { if v < 0 then v + 0x1_0000_0000 else v }

  /** The sum of a map's values. */
  ghost function MapSum<K(!new)>(m: map<K, nat>): nat
    decreases |m|
  {
    if m == map[] then 0
    else
      var k :| k in m;
      m[k] + MapSum(m - {k})
  }

  /** The sum does not depend on which entry is taken first. */
  lemma {:induction false} MapSumRemove<K(!new)>(m: map<K, nat>, k: K)
    requires k in m
    ensures MapSum(m) == m[k] + MapSum(m - {k})
    decreases |m|
  {
    var first :| first in m && MapSum(m) == m[first] + MapSum(m - {first});
    if first != k {
      MapSumRemove(m - {first}, k);
      MapSumRemove(m - {k}, first);
      assert m - {first} - {k} == m - {k} - {first};
    }
  }

  /** Setting one entry changes the sum by that entry alone. */
  lemma MapSumUpdate<K(!new)>(m: map<K, nat>, k: K, v: nat)
    ensures MapSum(m[k := v]) == MapSum(m - {k}) + v
  {
    MapSumRemove(m[k := v], k);
    assert m[k := v] - {k} == m - {k};
  }

  lemma MapUpdateMinus<K, V>(m: map<K, V>, k: K, v: V)
    ensures m[k := v] - {k} == m - {k}
    ensures k !in m ==> m - {k} == m
  {
  }

  lemma MapMinusStep<K, V>(m: map<K, V>, s: set<K>, k: K)
    ensures (m - s) - {k} == m - (s + {k})
    ensures m - {} == m
  {
  }

  lemma SliceRight<T>(a: seq<T>, b: seq<T>, lo: nat, hi: nat)
    requires |a| <= lo <= hi <= |a| + |b|
    ensures (a + b)[lo..hi] == b[lo - |a|..hi - |a|]
  {
  }
}
