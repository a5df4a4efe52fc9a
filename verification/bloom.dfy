/** The Bloom filter policy: a key that went in is never turned away. */
module Bloom {
  import opened Keys
  import opened Coding

  // ---- Bits of bytes ----

  /** 1 << k. */
  function Mask(k: nat): (m: bv8)
    requires k < 8
    ensures m != 0
  {
    if k == 0 then 1 else if k == 1 then 2 else if k == 2 then 4 else if k == 3 then 8
    else if k == 4 then 16 else if k == 5 then 32 else if k == 6 then 64 else 128
  }

  predicate Has(b: Byte, m: bv8) {
    (b as bv8) & m != 0
  }

  function FromBits(v: bv8): (r: Byte)
    ensures (r as bv8) == v
  {
    v as int
  }

  function Or(b: Byte, m: bv8): (r: Byte)
    ensures (r as bv8) == (b as bv8) | m
  {
    FromBits((b as bv8) | m)
  }

  lemma OrBits(v: bv8, m: bv8, w: bv8)
    ensures v & w != 0 ==> (v | m) & w != 0
    ensures m != 0 ==> (v | m) & m != 0
  {}

  /** Setting bits clears none. */
  lemma OrKeeps(b: Byte, m: bv8, w: bv8)
    ensures Has(b, w) ==> Has(Or(b, m), w)
    ensures m != 0 ==> Has(Or(b, m), m)
  {
    OrBits(b as bv8, m, w);
  }

  predicate BitAt(a: Bytes, p: nat)
    requires p < 8 * |a|
  {
    Has(a[p / 8], Mask(p % 8))
  }

  function SetAt(a: Bytes, p: nat): (r: Bytes)
    requires p < 8 * |a|
    ensures |r| == |a|
  {
    a[p / 8 := Or(a[p / 8], Mask(p % 8))]
  }

  lemma SetAtKeeps(a: Bytes, p: nat, q: nat)
    requires p < 8 * |a| && q < 8 * |a|
    ensures BitAt(SetAt(a, p), p) && (BitAt(a, q) ==> BitAt(SetAt(a, p), q))
  {
    OrKeeps(a[p / 8], Mask(p % 8), Mask(q % 8));
  }

  // ---- Probes ----

  type Hash = Bytes -> nat

  /** Rotate right by 17 bits. */
  function Delta(h: nat): nat {
    h / 131072 + (h % 131072) * 32768
  }

  /** The hash value before the j-th probe: double hashing modulo 2^32. */
  function Probe(h: nat, j: nat): nat {
    if j == 0 then h else (Probe(h, j - 1) + Delta(h)) % TWO32
  }

  function Position(hash: Hash, key: Bytes, j: nat, bits: nat): (p: nat)
    requires bits > 0
    ensures p < bits
  {
    Probe(hash(key), j) % bits
  }

  /** The bits of the first n probes of key are all set. */
  predicate Probed(hash: Hash, a: Bytes, key: Bytes, n: nat)
    requires |a| > 0
  {
    forall j :: 0 <= j < n ==> BitAt(a, Position(hash, key, j, 8 * |a|))
  }

  lemma StillProbed(hash: Hash, a: Bytes, key: Bytes, n: nat, p: nat)
    requires |a| > 0 && p < 8 * |a| && Probed(hash, a, key, n)
    ensures Probed(hash, SetAt(a, p), key, n)
  {
    forall j | 0 <= j < n ensures BitAt(SetAt(a, p), Position(hash, key, j, 8 * |a|)) {
      SetAtKeeps(a, p, Position(hash, key, j, 8 * |a|));
    }
  }

  /** What KeyMayMatch answers. */
  predicate Matches(hash: Hash, filter: Bytes, key: Bytes) {
    && |filter| >= 2
    && (filter[|filter| - 1] > 30 || Probed(hash, filter[..|filter| - 1], key, filter[|filter| - 1]))
  }

  class BloomFilterPolicy {
    const bitsPerKey: nat
    const k: nat
    const hash: Hash

    ghost predicate Valid() {
      1 <= k <= 30
    }

    constructor (bitsPerKey: nat, hash: Hash)
      ensures Valid() && this.hash == hash && this.bitsPerKey == bitsPerKey
    {
      this.bitsPerKey, this.hash := bitsPerKey, hash;
      var n := (bitsPerKey as real * 0.69).Floor;
      k := if n < 1 then 1 else if n > 30 then 30 else n;
    }

    /** CreateFilter appends a filter that matches every one of the keys. */
    method CreateFilter(keys: seq<Bytes>, dst: Bytes) returns (r: Bytes, ghost filter: Bytes)
      requires Valid()
      ensures r == dst + filter
      ensures forall key :: key in keys ==> Matches(hash, filter, key)
      ensures |filter| >= 9
    {
      var bits := |keys| * bitsPerKey;
      if bits < 64 {
        bits := 64;
      }
      var bytes := (bits + 7) / 8;
      bits := bytes * 8;
      var a: Bytes := seq(bytes, _ => 0);
      for i := 0 to |keys|
        invariant |a| == bytes
        invariant forall m :: 0 <= m < i ==> Probed(hash, a, keys[m], k)
      {
        a := AddKey(a, keys[i], keys[..i]);
      }
      filter := a + [k];
      assert filter[..|filter| - 1] == a;
      r := dst + a + [k];
      assert r == dst + filter;
    }

    method AddKey(a: Bytes, key: Bytes, ghost before: seq<Bytes>) returns (r: Bytes)
      requires |a| > 0 && forall m :: 0 <= m < |before| ==> Probed(hash, a, before[m], k)
      ensures |r| == |a| && Probed(hash, r, key, k)
      ensures forall m :: 0 <= m < |before| ==> Probed(hash, r, before[m], k)
    {
      r := a;
      var h := hash(key);
      var delta := Delta(h);
      for j := 0 to k
        invariant |r| == |a| && h == Probe(hash(key), j)
        invariant Probed(hash, r, key, j)
        invariant forall m :: 0 <= m < |before| ==> Probed(hash, r, before[m], k)
      {
        ghost var was := r;
        r := SetAt(r, h % (8 * |a|));
        forall m | 0 <= m < |before| ensures Probed(hash, r, before[m], k) {
          StillProbed(hash, was, before[m], k, h % (8 * |a|));
        }
        StillProbed(hash, was, key, j, h % (8 * |a|));
        SetAtKeeps(was, h % (8 * |a|), 0);
        h := (h + delta) % TWO32;
      }
    }

    /** KeyMayMatch: no false negatives, by the contract of CreateFilter. */
    method KeyMayMatch(key: Bytes, filter: Bytes) returns (r: bool)
      ensures r <==> Matches(hash, filter, key)
    {
      if |filter| < 2 {
        return false;
      }
      var a, n := filter[..|filter| - 1], filter[|filter| - 1];
      if n > 30 {
        return true;
      }
      var h := hash(key);
      var delta := Delta(h);
      for j := 0 to n
        invariant h == Probe(hash(key), j) && Probed(hash, a, key, j)
      {
        if !BitAt(a, h % (8 * |a|)) {
          assert !BitAt(a, Position(hash, key, j, 8 * |a|));
          return false;
        }
        h := (h + delta) % TWO32;
      }
      return true;
    }
  }
}
