/** Byte strings in memcmp order, and the rank that embeds them in the reals.

    LevelDB looks at user keys only through a total order.  The engine modules
    therefore take a user key to be its rank; `RankOrder` shows that nothing is
    lost for the bytewise comparator. */
module Keys {

  type Byte = x: int | 0 <= x < 256
  type Bytes = seq<Byte>

  /** The rank of a user key in the comparator's order. */
  type UserKey = real

  /** Slice::compare(a, b) < 0: memcmp on the common length, then length. */
  predicate Less(a: Bytes, b: Bytes)
  {
    if |b| == 0 then false
    else if |a| == 0 then true
    else if a[0] != b[0] then a[0] < b[0]
    else Less(a[1..], b[1..])
  }

  /** Base-257 fraction whose digits are the bytes plus one. */
  function Rank(s: Bytes): (r: real)
    ensures 0.0 <= r < 1.0
  {
    if |s| == 0 then 0.0 else (s[0] as real + 1.0 + Rank(s[1..])) / 257.0
  }

  /** The rank is an order embedding: comparing ranks is comparing keys. */
  lemma {:induction false} RankOrder(a: Bytes, b: Bytes)
    ensures Less(a, b) <==> Rank(a) < Rank(b)
    ensures a == b <==> Rank(a) == Rank(b)
  {
    if |a| > 0 && |b| > 0 {
      RankOrder(a[1..], b[1..]);
      assert a == b <==> a[0] == b[0] && a[1..] == b[1..] by {
        assert a == [a[0]] + a[1..] && b == [b[0]] + b[1..];
      }
    }
  }
}
