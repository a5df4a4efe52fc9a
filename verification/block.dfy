/** BlockBuilder: prefix-compressed entries with restart points, and what a
    reader finds where. */
module Blocks {
  import opened Keys
  import opened Coding

  datatype Pair = Pair(key: Bytes, value: Bytes)

  // ---- One entry ----

  predicate PairFits(x: Pair) {
    |x.key| < TWO32 && |x.value| < TWO32
  }

  /** Three lengths, the rest of the key, the value. */
  function EncodeEntry(shared: nat, x: Pair): Bytes
    requires shared <= |x.key| && PairFits(x)
  {
    Varint(shared) + (Varint(|x.key| - shared) + (Varint(|x.value|) + (x.key[shared..] + x.value)))
  }

  datatype Head = BadHead | Head(shared: nat, nonShared: nat, valueLength: nat, rest: Bytes)

  /** The three lengths as varints. */
  function SlowHead(s: Bytes): (r: Head)
    ensures r.Head? ==> |r.rest| + 3 <= |s| && r.nonShared < TWO32 && r.valueLength < TWO32
  {
    match GetVarint32(s)
    case Fail => BadHead
    case Parsed(shared, s1) =>
      match GetVarint32(s1)
      case Fail => BadHead
      case Parsed(nonShared, s2) =>
        match GetVarint32(s2)
        case Fail => BadHead
        case Parsed(valueLength, rest) => Head(shared, nonShared, valueLength, rest)
  }

  /** DecodeEntry, with its fast path for three one-byte lengths. Both sides of its
      bounds check are 32-bit numbers, so the sum of the two lengths wraps. */
  function DecodeEntry(s: Bytes): (r: Head)
    ensures r.Head? ==> |r.rest| + 3 <= |s| && r.nonShared < TWO32 && r.valueLength < TWO32
  {
    if |s| < 3 then BadHead
    else
      var h := if s[0] < 128 && s[1] < 128 && s[2] < 128 then Head(s[0], s[1], s[2], s[3..]) else SlowHead(s);
      if h.Head? && |h.rest| % TWO32 < (h.nonShared + h.valueLength) % TWO32 then BadHead else h
  }

  /** Key and value lie in the bytes that are left. */
  predicate Roomy(h: Head) {
    h.Head? && h.nonShared + h.valueLength <= |h.rest|
  }

  /** Below 4 GB, the bounds check does its work exactly when the sum does not wrap. */
  lemma RoomIff(s: Bytes)
    requires |s| < TWO32 && DecodeEntry(s).Head?
    ensures Roomy(DecodeEntry(s)) <==> DecodeEntry(s).nonShared + DecodeEntry(s).valueLength < TWO32
  {
    var h := DecodeEntry(s);
    assert |h.rest| % TWO32 == |h.rest|;
    if h.nonShared + h.valueLength < TWO32 {
      assert (h.nonShared + h.valueLength) % TWO32 == h.nonShared + h.valueLength;
    }
  }

  /** Seven bytes that claim a key of 2^32 - 1 bytes and a value of one, with
      nothing behind them, are taken for an entry. */
  lemma WrappedSumAccepted()
    ensures var h := DecodeEntry([0, 255, 255, 255, 255, 15, 1]); h == Head(0, TWO32 - 1, 1, []) && !Roomy(h)
  {
    var s: Bytes := [0, 255, 255, 255, 255, 15, 1];
    assert s[1..] == [255, 255, 255, 255, 15, 1];
    assert GetVarint32(s) == Parsed(0, s[1..]);
    WideVarint();
    assert GetVarint32([1]) == Parsed(1, []);
  }

  lemma WideVarint()
    ensures GetVarint32([255, 255, 255, 255, 15, 1]) == Parsed(TWO32 - 1, [1])
  {
    var s: Bytes := [255, 255, 255, 255, 15, 1];
    assert s[1..] == [255, 255, 255, 15, 1] && s[1..][1..] == [255, 255, 15, 1];
    assert s[1..][1..][1..] == [255, 15, 1] && s[1..][1..][1..][1..] == [15, 1] && [15, 1][1..] == [1];
    assert ReadVarint([15, 1], 1) == Parsed(15, [1]);
    assert ReadVarint([255, 15, 1], 2) == Parsed(127 + 128 * 15, [1]);
    assert ReadVarint([255, 255, 15, 1], 3) == Parsed(127 + 128 * (127 + 128 * 15), [1]);
  }

  lemma FastPath(s: Bytes)
    requires |s| >= 3 && s[0] < 128 && s[1] < 128 && s[2] < 128
    ensures SlowHead(s) == Head(s[0], s[1], s[2], s[3..])
  {
    assert s[1..][1..] == s[2..] && s[2..][1..] == s[3..];
    assert GetVarint32(s) == Parsed(s[0], s[1..]);
    assert GetVarint32(s[1..]) == Parsed(s[1], s[2..]);
    assert GetVarint32(s[2..]) == Parsed(s[2], s[3..]);
  }

  lemma HeadRoundTrip(shared: nat, x: Pair, more: Bytes)
    requires shared <= |x.key| && PairFits(x)
    ensures SlowHead(EncodeEntry(shared, x) + more) == Head(shared, |x.key| - shared, |x.value|, x.key[shared..]
            + x.value + more)
  {
    var body := x.key[shared..] + x.value + more;
    var s2 := Varint(|x.value|) + body;
    var s1 := Varint(|x.key| - shared) + s2;
    Regroup(Varint(shared), Varint(|x.key| - shared), Varint(|x.value|), x.key[shared..] + x.value, more);
    Varint32RoundTrip(shared, s1);
    Varint32RoundTrip(|x.key| - shared, s2);
    Varint32RoundTrip(|x.value|, body);
  }

  lemma Regroup(a: Bytes, b: Bytes, c: Bytes, d: Bytes, e: Bytes)
    ensures a + (b + (c + d)) + e == a + (b + (c + (d + e)))
  {}

  lemma EntryLength(shared: nat, x: Pair)
    requires shared <= |x.key| && PairFits(x)
    ensures |EncodeEntry(shared, x)| >= 3 + |x.key| - shared + |x.value|
  {
    HeadRoundTrip(shared, x, []);
  }

  lemma EntryBound(shared: nat, x: Pair)
    requires shared <= |x.key| && PairFits(x)
    ensures |EncodeEntry(shared, x)| <= 15 + |x.key| + |x.value|
  {
    VarintLengths(shared);
    VarintLengths(|x.key| - shared);
    VarintLengths(|x.value|);
  }

  /** Whatever follows it below 4 GB, an entry decodes to its lengths and its text. */
  lemma EntryRoundTrip(shared: nat, x: Pair, more: Bytes)
    requires shared <= |x.key| && PairFits(x) && |EncodeEntry(shared, x) + more| < TWO32
    ensures DecodeEntry(EncodeEntry(shared, x) + more) == Head(shared, |x.key| - shared, |x.value|, x.key[shared..]
            + x.value + more)
  {
    var s := EncodeEntry(shared, x) + more;
    HeadRoundTrip(shared, x, more);
    EntryLength(shared, x);
    if s[0] < 128 && s[1] < 128 && s[2] < 128 {
      FastPath(s);
    }
    Unwrapped(SlowHead(s));
  }

  lemma Unwrapped(h: Head)
    requires h.Head? && |h.rest| < TWO32 && h.nonShared + h.valueLength <= |h.rest|
    ensures (h.nonShared + h.valueLength) % TWO32 <= |h.rest| % TWO32
  {}

  // ---- A whole block ----

  /** Which pairs a block holds, where each one starts (and where the last one
      ends), and how many key bytes each one leaves out. */
  datatype Layout = Layout(kvs: seq<Pair>, offs: seq<nat>, shr: seq<nat>)

  predicate Shaped(L: Layout) {
    |L.offs| == |L.kvs| + 1 && |L.shr| == |L.kvs|
  }

  function PrevKey(kvs: seq<Pair>, i: nat): Bytes
    requires i <= |kvs|
  {
    if i == 0 then [] else kvs[i - 1].key
  }

  predicate CommonPrefix(a: Bytes, b: Bytes, n: nat) {
    n <= |a| && n <= |b| && a[..n] == b[..n]
  }

  lemma KeyPieces(a: Bytes, b: Bytes, n: nat)
    requires CommonPrefix(a, b, n)
    ensures a[..n] + b[n..] == b
  {
    assert b == b[..n] + b[n..];
  }

  predicate EntryAt(data: Bytes, at: nat, entry: Bytes) {
    at + |entry| <= |data| && data[at..at + |entry|] == entry
  }

  /** Entry i is where it should be, and leaves out only what it shares with the
      entry before. */
  ghost predicate EntryIn(data: Bytes, L: Layout, i: nat)
    requires Shaped(L) && i < |L.kvs|
  {
    var x := L.kvs[i];
    && PairFits(x) && CommonPrefix(PrevKey(L.kvs, i), x.key, L.shr[i])
    && EntryAt(data, L.offs[i], EncodeEntry(L.shr[i], x))
    && L.offs[i + 1] == L.offs[i] + |EncodeEntry(L.shr[i], x)|
  }

  /** The first n entries. */
  ghost predicate Written(data: Bytes, L: Layout, n: nat)
    requires Shaped(L) && n <= |L.kvs|
  {
    if n == 0 then L.offs[0] == 0 else Written(data, L, n - 1) && EntryIn(data, L, n - 1)
  }

  ghost predicate Laid(data: Bytes, L: Layout) {
    Shaped(L) && Written(data, L, |L.kvs|) && L.offs[|L.kvs|] == |data|
  }

  lemma {:induction false} WrittenEntry(data: Bytes, L: Layout, n: nat, i: nat)
    requires Shaped(L) && i < n <= |L.kvs| && Written(data, L, n)
    ensures EntryIn(data, L, i)
  {
    if i < n - 1 {
      WrittenEntry(data, L, n - 1, i);
    }
  }

  lemma {:induction false} OffsetsRise(data: Bytes, L: Layout, n: nat, i: nat)
    requires Shaped(L) && i < n <= |L.kvs| && Written(data, L, n)
    ensures L.offs[i] < L.offs[n]
  {
    EntryLength(L.shr[n - 1], L.kvs[n - 1]);
    if i < n - 1 {
      OffsetsRise(data, L, n - 1, i);
    }
  }

  lemma EntryKept(data: Bytes, at: nat, entry: Bytes, more: Bytes)
    requires EntryAt(data, at, entry)
    ensures EntryAt(data + more, at, entry)
  {
    assert (data + more)[at..at + |entry|] == data[at..at + |entry|];
  }

  lemma {:induction false} WrittenKept(data: Bytes, L: Layout, more: Bytes, L': Layout, n: nat)
    requires Shaped(L) && Shaped(L') && n <= |L.kvs| && n <= |L'.kvs| && Written(data, L, n)
    requires forall i :: 0 <= i < n ==> L'.kvs[i] == L.kvs[i] && L'.shr[i] == L.shr[i]
    requires forall i :: 0 <= i <= n ==> L'.offs[i] == L.offs[i]
    ensures Written(data + more, L', n)
  {
    if n > 0 {
      WrittenKept(data, L, more, L', n - 1);
      assert PrevKey(L'.kvs, n - 1) == PrevKey(L.kvs, n - 1);
      EntryKept(data, L.offs[n - 1], EncodeEntry(L.shr[n - 1], L.kvs[n - 1]), more);
    }
  }

  function AddPair(L: Layout, x: Pair, shared: nat, size: nat): Layout {
    Layout(L.kvs + [x], L.offs + [size], L.shr + [shared])
  }

  lemma LaidAppend(data: Bytes, L: Layout, x: Pair, shared: nat)
    requires Laid(data, L) && PairFits(x) && CommonPrefix(PrevKey(L.kvs, |L.kvs|), x.key, shared)
    ensures var entry := EncodeEntry(shared, x);
            |entry| > 0 && Laid(data + entry, AddPair(L, x, shared, |data + entry|))
  {
    var entry, n := EncodeEntry(shared, x), |L.kvs|;
    var L' := AddPair(L, x, shared, |data + entry|);
    EntryLength(shared, x);
    WrittenKept(data, L, entry, L', n);
    EntryAppended(data, entry);
    assert PrevKey(L'.kvs, n) == PrevKey(L.kvs, n);
  }

  lemma EntryAppended(data: Bytes, entry: Bytes)
    ensures EntryAt(data + entry, |data|, entry)
  {}

  // ---- Restart points ----

  /** Restart point j is the offset of entry at[j], which is stored whole. */
  ghost predicate RestartsOk(points: seq<nat>, at: seq<nat>, L: Layout) {
    && Shaped(L) && |points| == |at| > 0 && at[0] == 0
    && (forall j :: 0 <= j < |at| ==> at[j] <= |L.kvs| && points[j] == L.offs[at[j]])
    && (forall j :: 0 <= j < |at| && at[j] < |L.kvs| ==> L.shr[at[j]] == 0)
    && (forall j, k :: 0 <= j < k < |at| ==> at[j] < at[k])
  }

  lemma RestartsAppend(points: seq<nat>, at: seq<nat>, L: Layout, x: Pair, shared: nat, size: nat)
    requires RestartsOk(points, at, L) && (at[|at| - 1] == |L.kvs| ==> shared == 0)
    ensures RestartsOk(points, at, AddPair(L, x, shared, size))
  {
    var L' := AddPair(L, x, shared, size);
    forall j | 0 <= j < |at| && at[j] < |L'.kvs| ensures L'.shr[at[j]] == 0 {
      assert j == |at| - 1 || at[j] < at[|at| - 1];
    }
  }

  lemma RestartPush(points: seq<nat>, at: seq<nat>, L: Layout)
    requires RestartsOk(points, at, L) && at[|at| - 1] < |L.kvs|
    ensures RestartsOk(points + [L.offs[|L.kvs|]], at + [|L.kvs|], L)
  {
    var at' := at + [|L.kvs|];
    forall j, k | 0 <= j < k < |at'| ensures at'[j] < at'[k] {
      assert j == |at| - 1 || at[j] < at[|at| - 1];
    }
  }

  /** A restart point every `interval` entries. */
  ghost predicate Spaced(at: seq<nat>, interval: nat) {
    forall j :: 0 < j < |at| ==> at[j] == at[j - 1] + interval
  }

  /** As many bytes as the two have in common, and no fewer. */
  ghost predicate Longest(a: Bytes, b: Bytes, n: nat) {
    CommonPrefix(a, b, n) && forall m: nat :: CommonPrefix(a, b, m) ==> m <= n
  }

  lemma LongestStops(a: Bytes, b: Bytes, n: nat)
    requires CommonPrefix(a, b, n) && (n == |a| || n == |b| || a[n] != b[n])
    ensures Longest(a, b, n)
  {
    forall m: nat | CommonPrefix(a, b, m) ensures m <= n {
      assert forall k :: 0 <= k < m ==> a[..m][k] == a[k] && b[..m][k] == b[k];
    }
  }

  /** Between restart points every entry leaves out all it can. */
  ghost predicate Packed(L: Layout, at: seq<nat>) {
    Shaped(L) && forall i :: 0 <= i < |L.kvs| ==> i in at || Longest(PrevKey(L.kvs, i), L.kvs[i].key, L.shr[i])
  }

  lemma PackedAppend(L: Layout, at: seq<nat>, x: Pair, shared: nat, size: nat)
    requires Packed(L, at) && (|L.kvs| in at || Longest(PrevKey(L.kvs, |L.kvs|), x.key, shared))
    ensures Packed(AddPair(L, x, shared, size), at)
  {
    var L' := AddPair(L, x, shared, size);
    forall i | 0 <= i < |L'.kvs| ensures i in at || Longest(PrevKey(L'.kvs, i), L'.kvs[i].key, L'.shr[i]) {
      assert PrevKey(L'.kvs, i) == PrevKey(L.kvs, i);
    }
  }

  datatype Facet = Filled | Restarting | Spacing | Packing

  ghost predicate Facets(f: Facet, data: Bytes, points: seq<nat>, at: seq<nat>, L: Layout, interval: nat) {
    match f
    case Filled => Laid(data, L)
    case Restarting => RestartsOk(points, at, L)
    case Spacing => Spaced(at, interval)
    case Packing => Packed(L, at)
  }

  /** The builder's buffer and restart points hold the layout. */
  ghost predicate Holds(data: Bytes, points: seq<nat>, at: seq<nat>, L: Layout, interval: nat) {
    |at| > 0 && forall f: Facet :: Facets(f, data, points, at, L, interval)
  }

  lemma HoldsParts(data: Bytes, points: seq<nat>, at: seq<nat>, L: Layout, interval: nat)
    ensures Holds(data, points, at, L, interval) <==> Laid(data, L) && RestartsOk(points, at, L) && Spaced(at, interval)
                                                      && Packed(L, at)
  {
    if Holds(data, points, at, L, interval) {
      assert Facets(Filled, data, points, at, L, interval) && Facets(Restarting, data, points, at, L, interval);
      assert Facets(Spacing, data, points, at, L, interval) && Facets(Packing, data, points, at, L, interval);
    }
  }

  lemma HoldsAppend(data: Bytes, points: seq<nat>, at: seq<nat>, L: Layout, interval: nat, x: Pair, shared: nat)
    requires Holds(data, points, at, L, interval) && PairFits(x) && CommonPrefix(PrevKey(L.kvs, |L.kvs|), x.key, shared)
    requires at[|at| - 1] == |L.kvs| ==> shared == 0
    requires |L.kvs| in at || Longest(PrevKey(L.kvs, |L.kvs|), x.key, shared)
    ensures var data' := data + EncodeEntry(shared, x); Holds(data', points, at, AddPair(L, x, shared, |data'|),
                                                        interval)
  {
    var data' := data + EncodeEntry(shared, x);
    HoldsParts(data, points, at, L, interval);
    LaidAppend(data, L, x, shared);
    RestartsAppend(points, at, L, x, shared, |data'|);
    PackedAppend(L, at, x, shared, |data'|);
    HoldsParts(data', points, at, AddPair(L, x, shared, |data'|), interval);
  }

  lemma HoldsPush(data: Bytes, points: seq<nat>, at: seq<nat>, L: Layout, interval: nat)
    requires Holds(data, points, at, L, interval) && interval >= 1 && at[|at| - 1] + interval == |L.kvs|
    ensures Holds(data, points + [|data|], at + [|L.kvs|], L, interval)
  {
    HoldsParts(data, points, at, L, interval);
    RestartPush(points, at, L);
    PackedPush(L, at, |L.kvs|);
    HoldsParts(data, points + [|data|], at + [|L.kvs|], L, interval);
  }

  lemma PackedPush(L: Layout, at: seq<nat>, n: nat)
    requires Packed(L, at)
    ensures Packed(L, at + [n])
  {
    forall i | 0 <= i < |L.kvs| ensures i in at + [n] || Longest(PrevKey(L.kvs, i), L.kvs[i].key, L.shr[i]) {
      assert i in at ==> i in at + [n];
    }
  }

  function BlockContents(data: Bytes, points: seq<nat>): Bytes {
    data + Words(points, |points|) + Fixed32(|points| % TWO32)
  }

  // ---- BlockBuilder ----

  class BlockBuilder {
    const restartInterval: nat
    var buffer: Bytes
    var restarts: seq<nat>
    var counter: nat
    var lastKey: Bytes
    ghost var layout: Layout
    ghost var at: seq<nat>          // the entries the restart points stand for

    ghost predicate Valid()
      reads this
    {
      && restartInterval >= 1 && counter <= restartInterval
      && Holds(buffer, restarts, at, layout, restartInterval)
      && lastKey == PrevKey(layout.kvs, |layout.kvs|)
      && at[|at| - 1] + counter == |layout.kvs| && (|layout.kvs| > 0 ==> counter > 0)
    }

    constructor (restartInterval: nat)
      requires restartInterval >= 1
      ensures Valid() && layout.kvs == [] && buffer == [] && |restarts| == 1
    {
      this.restartInterval := restartInterval;
      buffer, restarts, counter, lastKey := [], [0], 0, [];
      layout, at := Layout([], [0], []), [0];
    }

    /** How much the key has in common with the last one. */
    method Shared(key: Bytes) returns (shared: nat)
      ensures Longest(lastKey, key, shared)
    {
      shared := 0;
      var minLength := if |lastKey| < |key| then |lastKey| else |key|;
      while shared < minLength && lastKey[shared] == key[shared]
        invariant shared <= minLength && lastKey[..shared] == key[..shared]
      {
        assert lastKey[..shared + 1] == lastKey[..shared] + [lastKey[shared]];
        assert key[..shared + 1] == key[..shared] + [key[shared]];
        shared := shared + 1;
      }
      LongestStops(lastKey, key, shared);
    }

    method Append(key: Bytes, value: Bytes, shared: nat)
      requires restartInterval >= 1 && counter < restartInterval
      requires Holds(buffer, restarts, at, layout, restartInterval) && at[|at| - 1] + counter == |layout.kvs|
      requires lastKey == PrevKey(layout.kvs, |layout.kvs|) && CommonPrefix(lastKey, key, shared)
               && (counter == 0 ==> shared == 0)
      requires |layout.kvs| in at || Longest(lastKey, key, shared)
      requires PairFits(Pair(key, value))
      modifies this
      ensures Valid() && layout.kvs == old(layout.kvs) + [Pair(key, value)]
      ensures |buffer| <= |old(buffer)| + 15 + |key| + |value| && restarts == old(restarts)
    {
      var x := Pair(key, value);
      var entry := EncodeEntry(shared, x);
      EntryBound(shared, x);
      HoldsAppend(buffer, restarts, at, layout, restartInterval, x, shared);
      layout := AddPair(layout, x, shared, |buffer + entry|);
      buffer := buffer + entry;
      KeyPieces(lastKey, key, shared);
      lastKey := lastKey[..shared] + key[shared..];
      counter := counter + 1;
    }

    method Add(key: Bytes, value: Bytes)
      requires Valid() && PairFits(Pair(key, value))
      modifies this
      ensures Valid() && layout.kvs == old(layout.kvs) + [Pair(key, value)]
      ensures |buffer| <= |old(buffer)| + 15 + |key| + |value| && |restarts| <= |old(restarts)| + 1
    {
      var shared := 0;
      if counter < restartInterval {
        shared := Shared(key);
      } else {
        HoldsPush(buffer, restarts, at, layout, restartInterval);
        restarts := restarts + [|buffer|];
        at := at + [|layout.kvs|];
        counter := 0;
      }
      Append(key, value, shared);
    }

    method Finish() returns (contents: Bytes)
      requires Valid()
      modifies this`buffer
      ensures contents == BlockContents(old(buffer), restarts)
    {
      AppendRestarts();
      buffer := buffer + Fixed32(|restarts| % TWO32);
      contents := buffer;
    }

    method AppendRestarts()
      modifies this`buffer
      ensures buffer == old(buffer) + Words(restarts, |restarts|)
    {
      for i := 0 to |restarts|
        invariant buffer == old(buffer) + Words(restarts, i)
      {
        buffer := buffer + Fixed32(restarts[i] % TWO32);
      }
    }
  }
}
