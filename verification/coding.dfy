/** Fixed-width and variable-length integers and length-prefixed strings. */
module Coding {
  import opened Keys

  // ---- Fixed width, little endian ----

  function Pow256(n: nat): nat {
    if n == 0 then 1 else 256 * Pow256(n - 1)
  }

  /** The n low-order bytes of v, least significant first. */
  function Fixed(v: nat, n: nat): (s: Bytes)
    ensures |s| == n
  {
    if n == 0 then [] else [v % 256] + Fixed(v / 256, n - 1)
  }

  function FromFixed(s: Bytes): nat {
    if |s| == 0 then 0 else s[0] + 256 * FromFixed(s[1..])
  }

  lemma {:induction false} FixedRoundTrip(v: nat, n: nat)
    requires v < Pow256(n)
    ensures FromFixed(Fixed(v, n)) == v
  {
    if n > 0 {
      FixedRoundTrip(v / 256, n - 1);
      assert Fixed(v, n)[1..] == Fixed(v / 256, n - 1);
    }
  }

  lemma {:induction false} FromFixedRoundTrip(s: Bytes)
    ensures FromFixed(s) < Pow256(|s|) && Fixed(FromFixed(s), |s|) == s
  {
    if |s| > 0 {
      FromFixedRoundTrip(s[1..]);
      assert FromFixed(s) % 256 == s[0] && FromFixed(s) / 256 == FromFixed(s[1..]);
    }
  }

  const WIDTH32: nat := 4
  const WIDTH64: nat := 8
  const TWO32: nat := 0x1_0000_0000
  const TWO64: nat := 0x1_0000_0000_0000_0000

  function Fixed32(v: nat): (s: Bytes)
    requires v < TWO32
    ensures |s| == 4
  {
    Fixed(v, WIDTH32)
  }

  function Fixed64(v: nat): (s: Bytes)
    requires v < TWO64
    ensures |s| == 8
  {
    Fixed(v, WIDTH64)
  }

  lemma Fixed32RoundTrip(v: nat)
    requires v < TWO32
    ensures FromFixed(Fixed32(v)) == v
  {
    assert Pow256(4) == 256 * (256 * (256 * (256 * Pow256(0))));
    FixedRoundTrip(v, 4);
  }

  lemma Fixed64RoundTrip(v: nat)
    requires v < TWO64
    ensures FromFixed(Fixed64(v)) == v
  {
    assert Pow256(4) == TWO32;
    assert Pow256(8) == 256 * (256 * (256 * (256 * Pow256(4))));
    FixedRoundTrip(v, 8);
  }

  // ---- Varints: seven bits a byte, high bit on all but the last ----

  function Varint(v: nat): (s: Bytes)
    ensures |s| > 0
  {
    if v < 128 then [v] else [v % 128 + 128] + Varint(v / 128)
  }

  datatype Parsed<T> = Fail | Parsed(value: T, rest: Bytes)

  function Pow128(n: nat): nat {
    if n == 0 then 1 else 128 * Pow128(n - 1)
  }

  lemma {:induction false} VarintLength(v: nat, n: nat)
    requires n > 0 && v < Pow128(n)
    ensures |Varint(v)| <= n
  {
    assert Pow128(1) == 128 * Pow128(0);
    if v >= 128 {
      VarintLength(v / 128, n - 1);
    }
  }

  lemma VarintLengths(v: nat)
    ensures v < TWO32 ==> |Varint(v)| <= 5
    ensures v < TWO64 ==> |Varint(v)| <= 10
  {
    assert Pow128(5) == 128 * (128 * (128 * (128 * (128 * Pow128(0)))));
    assert Pow128(10) == 128 * (128 * (128 * (128 * (128 * Pow128(5)))));
    if v < TWO32 {
      VarintLength(v, 5);
    }
    if v < TWO64 {
      VarintLength(v, 10);
    }
  }

  /** The Get loops: at most n bytes; seven more bits from each. */
  function ReadVarint(s: Bytes, n: nat): (r: Parsed<nat>)
    ensures r.Parsed? ==> |r.rest| < |s|
  {
    if n == 0 || |s| == 0 then Fail
    else if s[0] < 128 then Parsed(s[0], s[1..])
    else
      match ReadVarint(s[1..], n - 1)
      case Fail => Fail
      case Parsed(v, rest) => Parsed(s[0] - 128 + 128 * v, rest)
  }

  /** GetVarint32: five bytes, and the bits shifted past 32 are lost. */
  function GetVarint32(s: Bytes): (r: Parsed<nat>)
    ensures r.Parsed? ==> |r.rest| < |s| && r.value < TWO32
  {
    match ReadVarint(s, 5)
    case Fail => Fail
    case Parsed(v, rest) => Parsed(v % TWO32, rest)
  }

  function GetVarint64(s: Bytes): (r: Parsed<nat>)
    ensures r.Parsed? ==> |r.rest| < |s| && r.value < TWO64
  {
    match ReadVarint(s, 10)
    case Fail => Fail
    case Parsed(v, rest) => Parsed(v % TWO64, rest)
  }

  lemma {:induction false} VarintRoundTrip(v: nat, n: nat, rest: Bytes)
    requires n > 0 && v < Pow128(n)
    ensures ReadVarint(Varint(v) + rest, n) == Parsed(v, rest)
  {
    if v < 128 {
      assert ([v] + rest)[1..] == rest;
    } else {
      VarintRoundTrip(v / 128, n - 1, rest);
      assert (Varint(v) + rest)[1..] == Varint(v / 128) + rest;
    }
  }

  lemma Varint32RoundTrip(v: nat, rest: Bytes)
    requires v < TWO32
    ensures GetVarint32(Varint(v) + rest) == Parsed(v, rest)
  {
    assert Pow128(5) == 128 * (128 * (128 * (128 * (128 * Pow128(0)))));
    VarintRoundTrip(v, 5, rest);
  }

  lemma Varint64RoundTrip(v: nat, rest: Bytes)
    requires v < TWO64
    ensures GetVarint64(Varint(v) + rest) == Parsed(v, rest)
  {
    assert Pow128(5) == 128 * (128 * (128 * (128 * (128 * Pow128(0)))));
    assert Pow128(10) == 128 * (128 * (128 * (128 * (128 * Pow128(5)))));
    VarintRoundTrip(v, 10, rest);
  }

  /** EncodeVarint64's loop. */
  method EncodeVarint64(v: nat) returns (s: Bytes)
    requires v < TWO64
    ensures s == Varint(v)
  {
    s := [];
    var w := v;
    while w >= 128
      invariant s + Varint(w) == Varint(v)
      decreases w
    {
      assert Varint(w) == [w % 128 + 128] + Varint(w / 128);
      assert s + [w % 128 + 128] + Varint(w / 128) == s + Varint(w);
      s := s + [w % 128 + 128];
      w := w / 128;
    }
    s := s + [w];
  }

  // ---- Length-prefixed strings ----

  function Prefixed(s: Bytes): (r: Bytes)
    requires |s| < TWO32
  {
    Varint(|s|) + s
  }

  function GetPrefixed(s: Bytes): (r: Parsed<Bytes>)
    ensures r.Parsed? ==> |r.rest| < |s|
  {
    match GetVarint32(s)
    case Fail => Fail
    case Parsed(n, rest) => if |rest| < n then Fail else Parsed(rest[..n], rest[n..])
  }

  lemma PrefixedRoundTrip(s: Bytes, rest: Bytes)
    requires |s| < TWO32
    ensures GetPrefixed(Prefixed(s) + rest) == Parsed(s, rest)
  {
    assert Prefixed(s) + rest == Varint(|s|) + (s + rest);
    Varint32RoundTrip(|s|, s + rest);
    assert (s + rest)[..|s|] == s && (s + rest)[|s|..] == rest;
  }

  lemma Assoc(a: Bytes, b: Bytes, c: Bytes)
    ensures (a + b) + c == a + (b + c)
  {}

  // ---- Arrays of fixed32 ----

  function Words(vs: seq<nat>, n: nat): (r: Bytes)
    requires n <= |vs|
    ensures |r| == 4 * n
  {
    if n == 0 then [] else Words(vs, n - 1) + Fixed32(vs[n - 1] % TWO32)
  }

  lemma {:induction false} WordOf(vs: seq<nat>, n: nat, i: nat)
    requires i < n <= |vs|
    ensures Words(vs, n)[4 * i..4 * i + 4] == Fixed32(vs[i] % TWO32)
  {
    if i + 1 < n {
      WordOf(vs, n - 1, i);
      assert Words(vs, n)[4 * i..4 * i + 4] == Words(vs, n - 1)[4 * i..4 * i + 4];
    }
  }

  lemma MiddleSlice(a: Bytes, b: Bytes, c: Bytes, k: nat)
    requires k + 4 <= |b|
    ensures (a + b + c)[|a| + k..|a| + k + 4] == b[k..k + 4]
  {}

  lemma LastSlice(a: Bytes, b: Bytes, c: Bytes)
    requires |c| >= 4
    ensures (a + b + c)[|a| + |b|..|a| + |b| + 4] == c[..4]
  {}
}
