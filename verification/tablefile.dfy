/** The bytes of a table file: blocks with their trailers, block handles, the
    footer, and how each is read back. */
module TableFiles {
  import opened Keys
  import opened Mvcc
  import opened Coding
  import Log
  import B = Blocks
  import I = BlockIterators

  type Checksum = Log.Checksum

  datatype Handle = Handle(offset: nat, size: nat)

  const TRAILER: nat := 5
  const NO_COMPRESSION: Byte := 0

  // ---- Blocks ----

  ghost predicate PackedAs(c: Bytes, kvs: seq<B.Pair>, data: Bytes, points: seq<nat>, at: seq<nat>, L: B.Layout) {
    && c == B.BlockContents(data, points) && |data| < TWO32 && |points| < TWO32
    && B.Laid(data, L) && L.kvs == kvs && B.RestartsOk(points, at, L) && (|kvs| > 0 ==> at[|at| - 1] < |kvs|)
  }

  /** The block contents hold these pairs. */
  ghost predicate Packs(c: Bytes, kvs: seq<B.Pair>) {
    exists data, points, at, L :: PackedAs(c, kvs, data, points, at, L)
  }

  /** An upper bound on the bytes of the first n entries. */
  function PackedSize(kvs: seq<B.Pair>, n: nat): nat
    requires n <= |kvs|
  {
    if n == 0 then 0 else PackedSize(kvs, n - 1) + 15 + |kvs[n - 1].key| + |kvs[n - 1].value|
  }

  /** Small enough for the 32-bit offsets in a block. */
  predicate Small(kvs: seq<B.Pair>) {
    PackedSize(kvs, |kvs|) < TWO32
  }

  lemma {:induction false} CountBelowSize(kvs: seq<B.Pair>, n: nat)
    requires n <= |kvs|
    ensures 15 * n <= PackedSize(kvs, n)
  {
    if n > 0 {
      CountBelowSize(kvs, n - 1);
    }
  }

  /** All entries into a BlockBuilder, then Finish. */
  method BuildBlock(kvs: seq<B.Pair>, interval: nat) returns (c: Bytes)
    requires interval >= 1 && forall p :: p in kvs ==> B.PairFits(p)
    ensures Small(kvs) ==> Packs(c, kvs)
  {
    var w := new B.BlockBuilder(interval);
    for n := 0 to |kvs|
      invariant w.Valid() && fresh(w) && w.layout.kvs == kvs[..n]
      invariant |w.buffer| <= PackedSize(kvs, n) && |w.restarts| <= n + 1
    {
      assert kvs[n] in kvs && kvs[..n + 1] == kvs[..n] + [kvs[n]];
      w.Add(kvs[n].key, kvs[n].value);
    }
    ghost var data := w.buffer;
    assert kvs[..|kvs|] == kvs;
    c := w.Finish();
    if Small(kvs) {
      CountBelowSize(kvs, |kvs|);
      B.HoldsParts(data, w.restarts, w.at, w.layout, w.restartInterval);
      assert PackedAs(c, kvs, data, w.restarts, w.at, w.layout);
    }
  }

  datatype Found = Hit(pair: B.Pair) | Past | Corrupt | Stray

  lemma OpenOpened(c: Bytes)
    requires I.Open(c).Some? && I.Open(c).value.num > 0
    ensures I.Opened(I.Open(c).value)
  {
    var n := |c|;
    var num := FromFixed(c[n - 4..]);
    assert (n - 4 * (1 + num)) % TWO32 <= n - 4 * (1 + num);
  }

  /** A block's iterator, sought to the target. */
  method SeekBlock(c: Bytes, less: I.Order, target: Bytes, ghost kvs: seq<B.Pair>) returns (r: Found, ghost i: nat)
    ensures Packs(c, kvs) && I.Transitive(less) && I.SortedBy(less, kvs) ==>
              I.IsLowerBound(less, kvs, target, i) && r == if i < |kvs| then Hit(kvs[i]) else Past
  {
    ghost var L, at := B.Layout([], [], []), [];
    i := 0;
    var block := I.Open(c);
    if Packs(c, kvs) {
      ghost var data, points;
      data, points, at, L :| PackedAs(c, kvs, data, points, at, L);
      I.FinishedOpens(data, L, points, at);
    }
    if block.None? {
      return Corrupt, 0;
    }
    if block.value.num == 0 {
      return Past, 0;
    }
    OpenOpened(c);
    r, i := SeekOpened(block.value, less, target, L, at);
  }

  method SeekOpened(b: I.Block, less: I.Order, target: Bytes, ghost L: B.Layout, ghost at: seq<nat>)
        returns (r: Found, ghost i: nat)
    requires I.Opened(b)
    ensures I.BlockOk(b, L, at) && I.Transitive(less) && I.SortedBy(less, L.kvs) ==>
              I.IsLowerBound(less, L.kvs, target, i) && r == if i < |L.kvs| then Hit(L.kvs[i]) else Past
  {
    var it := new I.Iter(b, less, L, at);
    i := it.Seek(target);
    if I.BlockOk(b, L, at) && i < |L.kvs| {
      I.Rises(b, L, at, i, |L.kvs|);
    }
    if it.stray {
      r := Stray;
    } else if it.Valid() {
      r := Hit(B.Pair(it.key, b.data[it.valueAt..it.valueAt + it.valueLength]));
    } else {
      r := if it.corrupt then Corrupt else Past;
    }
  }

  // ---- Trailers ----

  /** Type byte and checksum. */
  function Trailer(crc: Checksum, c: Bytes): (r: Bytes)
    requires Log.ChecksumOk(crc)
    ensures |r| == TRAILER
  {
    [NO_COMPRESSION] + Fixed32(crc(c + [NO_COMPRESSION]))
  }

  /** The block lies in the file where the handle says. */
  ghost predicate StoredAt(crc: Checksum, file: Bytes, h: Handle, c: Bytes)
    requires Log.ChecksumOk(crc)
  {
    h.size == |c| && h.offset + |c| + TRAILER <= |file|
        && file[h.offset..h.offset + |c| + TRAILER] == c + Trailer(crc, c)
  }

  /** ReadBlock: None for a truncated block, a wrong checksum or an unknown type. */
  function ReadBlock(crc: Checksum, verify: bool, file: Bytes, h: Handle): Option<Bytes> {
    if h.offset + h.size + TRAILER > |file| then None
    else
      var data := file[h.offset..h.offset + h.size + TRAILER];
      if verify && FromFixed(data[h.size + 1..]) != crc(data[..h.size + 1]) then None
      else if data[h.size] != NO_COMPRESSION then None
      else Some(data[..h.size])
  }

  lemma StoredReads(crc: Checksum, verify: bool, file: Bytes, h: Handle, c: Bytes)
    requires Log.ChecksumOk(crc) && StoredAt(crc, file, h, c)
    ensures ReadBlock(crc, verify, file, h) == Some(c)
  {
    var data, sum := c + Trailer(crc, c), crc(c + [NO_COMPRESSION]);
    assert data == c + [NO_COMPRESSION] + Fixed32(sum);
    assert data[..|c| + 1] == c + [NO_COMPRESSION] && data[|c| + 1..] == Fixed32(sum);
    Fixed32RoundTrip(sum);
    assert data[..|c|] == c;
  }

  lemma StoredKept(crc: Checksum, file: Bytes, file': Bytes, h: Handle, c: Bytes)
    requires Log.ChecksumOk(crc) && StoredAt(crc, file, h, c) && file <= file'
    ensures StoredAt(crc, file', h, c)
  {
    assert file'[h.offset..h.offset + |c| + TRAILER] == file[h.offset..h.offset + |c| + TRAILER];
  }

  /** WriteRawBlock without compression. */
  method WriteRawBlock(crc: Checksum, file: Bytes, c: Bytes) returns (file': Bytes, h: Handle)
    requires Log.ChecksumOk(crc)
    ensures h == Handle(|file|, |c|) && file <= file' && |file'| == |file| + |c| + TRAILER && StoredAt(crc, file', h, c)
  {
    h := Handle(|file|, |c|);
    file' := file + c + Trailer(crc, c);
    assert file' == file + (c + Trailer(crc, c));
  }

  // ---- Handles and footer ----

  predicate HandleOk(h: Handle) {
    h.offset < TWO64 && h.size < TWO64
  }

  function EncodeHandle(h: Handle): Bytes
    requires HandleOk(h)
  {
    Varint(h.offset) + Varint(h.size)
  }

  function DecodeHandle(s: Bytes): Parsed<Handle> {
    match GetVarint64(s)
    case Fail => Fail
    case Parsed(offset, rest) =>
      match GetVarint64(rest)
      case Fail => Fail
      case Parsed(size, rest) => Parsed(Handle(offset, size), rest)
  }

  lemma HandleRoundTrip(h: Handle, rest: Bytes)
    requires HandleOk(h)
    ensures DecodeHandle(EncodeHandle(h) + rest) == Parsed(h, rest) && |EncodeHandle(h)| <= 20
  {
    assert EncodeHandle(h) + rest == Varint(h.offset) + (Varint(h.size) + rest);
    Varint64RoundTrip(h.offset, Varint(h.size) + rest);
    Varint64RoundTrip(h.size, rest);
    VarintLengths(h.offset);
    VarintLengths(h.size);
  }

  const HANDLES: nat := 40
  const FOOTER: nat := 48
  const MAGIC: nat := 0xdb47_7524_8b80_fb57

  function Zeros(n: nat): (r: Bytes)
    ensures |r| == n
  {
    seq(n, _ => 0)
  }

  /** Footer::EncodeTo. */
  function Footer(meta: Handle, index: Handle): (r: Bytes)
    requires HandleOk(meta) && HandleOk(index)
    ensures |r| == FOOTER
  {
    HandleRoundTrip(meta, []);
    HandleRoundTrip(index, []);
    var handles := EncodeHandle(meta) + EncodeHandle(index);
    handles + Zeros(HANDLES - |handles|) + Fixed64(MAGIC)
  }

  /** The handles of metaindex and index, or None for what is not a table. */
  function OpenFooter(file: Bytes): Option<(Handle, Handle)> {
    if |file| < FOOTER then None
    else
      var footer := file[|file| - FOOTER..];
      if FromFixed(footer[HANDLES..]) != MAGIC then None
      else
        match DecodeHandle(footer)
        case Fail => None
        case Parsed(meta, rest) =>
          match DecodeHandle(rest)
          case Fail => None
          case Parsed(index, _) => Some((meta, index))
  }

  lemma FooterRoundTrip(file: Bytes, meta: Handle, index: Handle)
    requires HandleOk(meta) && HandleOk(index)
    ensures OpenFooter(file + Footer(meta, index)) == Some((meta, index))
  {
    var whole, footer := file + Footer(meta, index), Footer(meta, index);
    assert whole[|whole| - FOOTER..] == footer;
    HandleRoundTrip(meta, []);
    HandleRoundTrip(index, []);
    var m, i := EncodeHandle(meta), EncodeHandle(index);
    var pad := Zeros(HANDLES - |m + i|);
    var tail := pad + Fixed64(MAGIC);
    assert footer[HANDLES..] == Fixed64(MAGIC) by {
      assert footer == (m + i + pad) + Fixed64(MAGIC) && |m + i + pad| == HANDLES;
    }
    Fixed64RoundTrip(MAGIC);
    assert footer == m + (i + tail);
    HandleRoundTrip(meta, i + tail);
    HandleRoundTrip(index, tail);
  }
}
