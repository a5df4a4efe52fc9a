/** The filter block: one filter for every 2 KB of file offset, and the reader
    that finds the filter of a block from the block's offset. */
module FilterBlocks {
  import opened Keys
  import opened Coding
  import opened Bloom

  const FILTER_BASE: nat := 2048
  const FILTER_BASE_LG: Byte := 11

  // ---- Layout ----

  /** The end of part i when parts start at `starts` and the last ends at `size`. */
  function EndOf(starts: seq<nat>, size: nat, i: nat): nat
    requires i < |starts|
  {
    if i + 1 < |starts| then starts[i + 1] else size
  }

  /** The starts cut `all` into consecutive parts. */
  predicate Cuts(starts: seq<nat>, all: Bytes) {
    forall i :: 0 <= i < |starts| ==> starts[i] <= EndOf(starts, |all|, i) <= |all|
  }

  function Part(starts: seq<nat>, all: Bytes, i: nat): Bytes
    requires i < |starts| && Cuts(starts, all)
  {
    all[starts[i]..EndOf(starts, |all|, i)]
  }

  /** Appending a part leaves the earlier ones alone. */
  lemma AppendPart(starts: seq<nat>, all: Bytes, part: Bytes)
    requires Cuts(starts, all)
    ensures Cuts(starts + [|all|], all + part)
    ensures forall i :: 0 <= i < |starts| ==> Part(starts + [|all|], all + part, i) == Part(starts, all, i)
    ensures Part(starts + [|all|], all + part, |starts|) == part
  {
    var starts', all' := starts + [|all|], all + part;
    forall i | 0 <= i < |starts'| ensures starts'[i] <= EndOf(starts', |all'|, i) <= |all'| {
      assert i < |starts| ==> EndOf(starts', |all'|, i) == EndOf(starts, |all|, i);
    }
    forall i | 0 <= i < |starts| ensures Part(starts', all', i) == Part(starts, all, i) {
      assert EndOf(starts', |all'|, i) == EndOf(starts, |all|, i);
    }
  }

  ghost predicate Accepts(hash: Hash, filter: Bytes, keys: seq<Bytes>) {
    forall key :: key in keys ==> Matches(hash, filter, key)
  }

  // ---- Builder ----

  class FilterBlockBuilder {
    const policy: BloomFilterPolicy
    var keys: Bytes                        // flattened keys
    var start: seq<nat>                    // where in keys each one starts
    var result: Bytes                      // filters so far
    var offsets: seq<nat>                  // where in result each one starts
    ghost var pending: seq<Bytes>          // the keys waiting for their filter
    ghost var filters: seq<seq<Bytes>>     // the keys each finished filter was made of

    ghost predicate Valid()
      reads this
    {
      && policy.Valid()
      && |start| == |pending| && Cuts(start, keys)
         && (forall i :: 0 <= i < |start| ==> Part(start, keys, i) == pending[i])
      && |offsets| == |filters| && Cuts(offsets, result)
      && (forall i :: 0 <= i < |offsets| ==> Accepts(policy.hash, Part(offsets, result, i), filters[i]))
    }

    /** The keys that are or will be in filter i. */
    ghost function Holding(i: nat): seq<Bytes>
      reads this
    {
      if i < |filters| then filters[i] else if i == |filters| then pending else []
    }

    constructor (policy: BloomFilterPolicy)
      requires policy.Valid()
      ensures Valid() && this.policy == policy && offsets == [] && forall i: nat :: Holding(i) == []
    {
      this.policy := policy;
      keys, start, result, offsets, pending, filters := [], [], [], [], [], [];
    }

    method AddKey(key: Bytes)
      requires Valid()
      modifies this
      ensures Valid() && offsets == old(offsets)
      ensures forall i: nat :: Holding(i) == if i == |offsets| then old(Holding(i)) + [key] else old(Holding(i))
    {
      AppendPart(start, keys, key);
      start := start + [|keys|];
      keys := keys + key;
      pending := pending + [key];
    }

    /** The keys unflattened. */
    method PendingKeys() returns (tmp: seq<Bytes>)
      requires Valid()
      ensures tmp == pending
    {
      tmp := [];
      for i := 0 to |start|
        invariant |tmp| == i && forall k :: 0 <= k < i ==> tmp[k] == pending[k]
      {
        assert Part(start, keys, i) == pending[i];
        var end := if i + 1 < |start| then start[i + 1] else |keys|;
        tmp := tmp + [keys[start[i]..end]];
      }
    }

    method GenerateFilter()
      requires Valid()
      modifies this
      ensures Valid() && |offsets| == |old(offsets)| + 1 && start == []
      ensures forall i: nat :: Holding(i) == old(Holding(i))
    {
      ghost var filter: Bytes := [];
      var offset := |result|;
      ghost var offsets0, result0 := offsets, result;
      if |start| > 0 {
        var tmp := PendingKeys();
        result, filter := policy.CreateFilter(tmp, result);
      } else {
        assert result == result + filter;
      }
      AppendPart(offsets0, result0, filter);
      offsets := offsets + [offset];
      filters := filters + [pending];
      keys, start, pending := [], [], [];
      forall i | 0 <= i < |offsets| ensures Accepts(policy.hash, Part(offsets, result, i), filters[i]) {
        if i < |offsets0| {
          assert Accepts(policy.hash, Part(offsets0, result0, i), filters[i]);
        }
      }
    }

    /** From now on keys belong to the block at this offset. */
    method StartBlock(blockOffset: nat)
      requires Valid() && blockOffset / FILTER_BASE >= |offsets|
      modifies this
      ensures Valid() && |offsets| == blockOffset / FILTER_BASE
      ensures forall i: nat :: Holding(i) == old(Holding(i))
    {
      while blockOffset / FILTER_BASE > |offsets|
        invariant Valid() && blockOffset / FILTER_BASE >= |offsets|
        invariant forall i: nat :: Holding(i) == old(Holding(i))
      {
        GenerateFilter();
      }
    }

    /** The finished block: filters, their offsets, where the offsets start. */
    method Finish() returns (contents: Bytes)
      requires Valid()
      modifies this
      ensures Valid() && start == [] && |offsets| >= |old(offsets)|
      ensures forall i: nat :: Holding(i) == old(Holding(i))
      ensures contents == FilterContents(result, offsets)
    {
      if |start| > 0 {
        GenerateFilter();
      }
      contents := PutOffsets();
      contents := contents + Tail(|result|);
    }

    method PutOffsets() returns (contents: Bytes)
      ensures contents == result + Words(offsets, |offsets|)
    {
      contents := result;
      for i := 0 to |offsets|
        invariant contents == result + Words(offsets, i)
      {
        contents := contents + Fixed32(offsets[i] % TWO32);
      }
    }
  }

  function FilterContents(result: Bytes, offsets: seq<nat>): Bytes {
    result + Words(offsets, |offsets|) + Tail(|result|)
  }

  function Tail(arrayOffset: nat): (r: Bytes)
    ensures |r| == 5
  {
    Fixed32(arrayOffset % TWO32) + [FILTER_BASE_LG]
  }

  // ---- Reader ----

  /** b >> n. */
  function ShiftRight(b: nat, n: nat): nat {
    if n == 0 then b else ShiftRight(b, n - 1) / 2
  }

  lemma ShiftBase(b: nat)
    ensures ShiftRight(b, 11) == b / FILTER_BASE
  {
    var s1 := b / 2;
    var s2 := s1 / 2;
    assert 4 * s2 <= b < 4 * s2 + 4;
    var s3 := s2 / 2;
    assert 8 * s3 <= b < 8 * s3 + 8;
    var s4 := s3 / 2;
    assert 16 * s4 <= b < 16 * s4 + 16;
    var s5 := s4 / 2;
    assert 32 * s5 <= b < 32 * s5 + 32;
    var s6 := s5 / 2;
    assert 64 * s6 <= b < 64 * s6 + 64;
    var s7 := s6 / 2;
    assert 128 * s7 <= b < 128 * s7 + 128;
    var s8 := s7 / 2;
    assert 256 * s8 <= b < 256 * s8 + 256;
    var s9 := s8 / 2;
    assert 512 * s9 <= b < 512 * s9 + 512;
    var s10 := s9 / 2;
    assert 1024 * s10 <= b < 1024 * s10 + 1024;
    var s11 := s10 / 2;
    assert 2048 * s11 <= b < 2048 * s11 + 2048;
    assert ShiftRight(b, 0) == b && ShiftRight(b, 2) == s2 && ShiftRight(b, 4) == s4;
    assert ShiftRight(b, 6) == s6 && ShiftRight(b, 8) == s8 && ShiftRight(b, 10) == s10;
  }

  /** FilterBlockReader's fields; `table` is where the offset array starts. */
  datatype Reader = Reader(data: Bytes, table: nat, num: nat, baseLg: nat)

  predicate ReaderOk(r: Reader) {
    r.num > 0 ==> r.table + 4 * r.num + 5 <= |r.data|
  }

  function OpenReader(contents: Bytes): (r: Reader)
    ensures ReaderOk(r)
  {
    var n := |contents|;
    if n < 5 then Reader([], 0, 0, 0)
    else
      var lastWord := FromFixed(contents[n - 5..n - 1]);
      if lastWord > n - 5 then Reader([], 0, 0, contents[n - 1])
      else Reader(contents, lastWord, (n - 5 - lastWord) / 4, contents[n - 1])
  }

  /** Word i of the offset array. */
  function Word(r: Reader, i: nat): nat
    requires ReaderOk(r) && i <= r.num && r.num > 0
  {
    FromFixed(r.data[r.table + 4 * i..r.table + 4 * i + 4])
  }

  /** FilterBlockReader::KeyMayMatch: errors count as matches. */
  predicate KeyMayMatch(hash: Hash, r: Reader, blockOffset: nat, key: Bytes)
    requires ReaderOk(r)
  {
    var index := ShiftRight(blockOffset, r.baseLg);
    if index < r.num then
      var start, limit := Word(r, index), Word(r, index + 1);
      if start <= limit && limit <= r.table then Matches(hash, r.data[start..limit], key) else start != limit
    else true
  }

  // ---- The reader finds what the builder put ----

  lemma OpenContents(result: Bytes, offsets: seq<nat>)
    requires |result| < TWO32
    ensures OpenReader(FilterContents(result, offsets)) == Reader(FilterContents(result, offsets), |result|, |offsets|,
            11)
  {
    var c := FilterContents(result, offsets);
    var n := |c|;
    assert n == |result| + 4 * |offsets| + 5;
    LastWord(result, offsets);
    Fixed32RoundTrip(|result|);
  }

  lemma WordFrom(c: Bytes, at: nat, v: nat)
    requires at + 4 <= |c| && v < TWO32 && c[at..at + 4] == Fixed32(v)
    ensures FromFixed(c[at..at + 4]) == v
  {
    Fixed32RoundTrip(v);
  }

  /** Word i of the array is offset i; the word after the last is the array's
      own start, which is where the last filter ends. */
  lemma WordAt(result: Bytes, offsets: seq<nat>, i: nat)
    requires |result| < TWO32 && i <= |offsets| && |offsets| > 0 && (i < |offsets| ==> offsets[i] < TWO32)
    ensures Word(Reader(FilterContents(result, offsets), |result|, |offsets|, 11), i)
            == if i < |offsets| then offsets[i] else |result|
  {
    if i < |offsets| {
      InnerValue(result, offsets, i);
    } else {
      LastValue(result, offsets);
    }
  }

  lemma InnerValue(result: Bytes, offsets: seq<nat>, i: nat)
    requires i < |offsets| && offsets[i] < TWO32
    ensures |FilterContents(result, offsets)| == |result| + 4 * |offsets| + 5
    ensures FromFixed(FilterContents(result, offsets)[|result| + 4 * i..|result| + 4 * i + 4]) == offsets[i]
  {
    InnerWord(result, offsets, i);
    WordFrom(FilterContents(result, offsets), |result| + 4 * i, offsets[i]);
  }

  lemma LastValue(result: Bytes, offsets: seq<nat>)
    requires |result| < TWO32
    ensures |FilterContents(result, offsets)| == |result| + 4 * |offsets| + 5
    ensures FromFixed(FilterContents(result, offsets)[|result| + 4 * |offsets|..|result| + 4 * |offsets| + 4])
            == |result|
  {
    LastWord(result, offsets);
    WordFrom(FilterContents(result, offsets), |result| + 4 * |offsets|, |result|);
  }

  lemma InnerWord(result: Bytes, offsets: seq<nat>, i: nat)
    requires i < |offsets|
    ensures |FilterContents(result, offsets)| == |result| + 4 * |offsets| + 5
    ensures FilterContents(result, offsets)[|result| + 4 * i..|result| + 4 * i + 4] == Fixed32(offsets[i] % TWO32)
  {
    WordOf(offsets, |offsets|, i);
    MiddleSlice(result, Words(offsets, |offsets|), Tail(|result|), 4 * i);
  }

  lemma LastWord(result: Bytes, offsets: seq<nat>)
    requires |result| < TWO32
    ensures |FilterContents(result, offsets)| == |result| + 4 * |offsets| + 5
    ensures var at := |result| + 4 * |offsets|; FilterContents(result, offsets)[at..at + 4] == Fixed32(|result|)
  {
    LastSlice(result, Words(offsets, |offsets|), Tail(|result|));
    assert Tail(|result|)[..4] == Fixed32(|result|);
  }

  lemma FilterSlice(result: Bytes, offsets: seq<nat>, start: nat, limit: nat)
    requires start <= limit <= |result|
    ensures FilterContents(result, offsets)[start..limit] == result[start..limit]
  {}

  /** For every filter the builder wrote, the reader asks exactly that filter. */
  lemma ReaderAsksFilter(hash: Hash, result: Bytes, offsets: seq<nat>, blockOffset: nat, key: Bytes)
    requires |result| < TWO32 && Cuts(offsets, result) && blockOffset / FILTER_BASE < |offsets|
    ensures KeyMayMatch(hash, OpenReader(FilterContents(result, offsets)), blockOffset, key)
            <==> Matches(hash, Part(offsets, result, blockOffset / FILTER_BASE), key)
  {
    var i := blockOffset / FILTER_BASE;
    ShiftBase(blockOffset);
    OpenContents(result, offsets);
    assert i + 1 < |offsets| ==> offsets[i + 1] <= EndOf(offsets, |result|, i + 1);
    WordAt(result, offsets, i);
    WordAt(result, offsets, i + 1);
    FilterSlice(result, offsets, offsets[i], EndOf(offsets, |result|, i));
  }
}
