/** TableBuilder and Table: data blocks, an index of shortened separators, a
    filter block, and the point lookup that goes through all three. */
module Tables {
  import opened Keys
  import opened Mvcc
  import opened Levels
  import opened Coding
  import opened Comparators
  import opened Bloom
  import opened FilterBlocks
  import opened DbFormat
  import opened TableFiles

  datatype Item = Item(key: ByteKey, value: Bytes)
  datatype IndexEntry = IndexEntry(key: ByteKey, handle: Handle)

  // ---- Items and index entries as stored ----

  predicate KeyFits(k: ByteKey) {
    |k.user| + 8 < TWO32 && k.sn <= MAX_SEQUENCE
  }

  /** What the 32-bit lengths of a block and the 56 bits of a sequence number hold. */
  predicate ItemFits(x: Item) {
    KeyFits(x.key) && |x.value| < TWO32
  }

  predicate ItemsFit(s: seq<Item>) {
    forall i :: 0 <= i < |s| ==> ItemFits(s[i])
  }

  function AsPairs(s: seq<Item>): (r: seq<B.Pair>)
    requires ItemsFit(s)
    ensures |r| == |s| && forall i :: 0 <= i < |s| ==> r[i] == B.Pair(EncodeKey(s[i].key), s[i].value)
  {
    seq(|s|, i requires 0 <= i < |s| => B.Pair(EncodeKey(s[i].key), s[i].value))
  }

  predicate IndexFits(index: seq<IndexEntry>) {
    forall b :: 0 <= b < |index| ==> KeyFits(index[b].key)
  }

  /** Offset and size in 64 bits. */
  function Wrapped(h: Handle): (r: Handle)
    ensures HandleOk(r) && (HandleOk(h) ==> r == h)
  {
    Handle(h.offset % TWO64, h.size % TWO64)
  }

  function HandleBytes(h: Handle): (r: Bytes)
    ensures |r| <= 20
  {
    HandleRoundTrip(Wrapped(h), []);
    EncodeHandle(Wrapped(h))
  }

  function IndexPairs(index: seq<IndexEntry>): (r: seq<B.Pair>)
    requires IndexFits(index)
    ensures |r| == |index| && forall b :: 0 <= b < |index| ==>
            r[b] == B.Pair(EncodeKey(index[b].key), HandleBytes(index[b].handle))
  {
    seq(|index|, b requires 0 <= b < |index| => B.Pair(EncodeKey(index[b].key), HandleBytes(index[b].handle)))
  }

  /** The file holds the block, in a form a reader understands if it is small. */
  ghost predicate BlockIn(crc: Checksum, file: Bytes, h: Handle, items: seq<Item>)
    requires Log.ChecksumOk(crc)
  {
    ItemsFit(items) && exists c :: StoredAt(crc, file, h, c) && (Small(AsPairs(items)) ==> Packs(c, AsPairs(items)))
  }

  lemma BlockInKept(crc: Checksum, file: Bytes, file': Bytes, h: Handle, items: seq<Item>)
    requires Log.ChecksumOk(crc) && BlockIn(crc, file, h, items) && file <= file'
    ensures BlockIn(crc, file', h, items)
  {
    var c :| StoredAt(crc, file, h, c) && (Small(AsPairs(items)) ==> Packs(c, AsPairs(items)));
    StoredKept(crc, file, file', h, c);
  }

  /** Build the block and append it. */
  method WriteItems(crc: Checksum, file: Bytes, items: seq<Item>, interval: nat) returns (file': Bytes, h: Handle)
    requires Log.ChecksumOk(crc) && ItemsFit(items) && interval >= 1
    ensures h.offset == |file| && |file'| == |file| + h.size + TRAILER && file <= file' && BlockIn(crc, file', h, items)
  {
    var c := BuildBlock(AsPairs(items), interval);
    file', h := WriteRawBlock(crc, file, c);
  }

  // ---- Order ----

  predicate ItemBefore(a: Item, b: Item) {
    Before(Ranked(a.key), Ranked(b.key))
  }

  predicate SortedItems(s: seq<Item>) {
    forall i, j :: 0 <= i < j < |s| ==> ItemBefore(s[i], s[j])
  }

  /** Everything in a comes before everything in b. */
  predicate AllBefore(a: seq<Item>, b: seq<Item>) {
    forall i, j :: 0 <= i < |a| && 0 <= j < |b| ==> ItemBefore(a[i], b[j])
  }

  /** The blocks of a table: none empty, sorted inside and among themselves. */
  predicate BlocksOk(blocks: seq<seq<Item>>) {
    && (forall b :: 0 <= b < |blocks| ==> |blocks[b]| > 0 && SortedItems(blocks[b]))
    && (forall b, c {:trigger AllBefore(blocks[b], blocks[c])} :: 0 <= b < c < |blocks| ==>
       AllBefore(blocks[b], blocks[c]))
  }

  function LastKey(block: seq<Item>): ByteKey
    requires |block| > 0
  {
    block[|block| - 1].key
  }

  /** The separator of a block: its last key, or a user key strictly beyond the
      last one and strictly before whatever follows. */
  predicate Separates(sep: ByteKey, block: seq<Item>, next: seq<Item>)
    requires |block| > 0
  {
    || sep == LastKey(block)
    || (Rank(LastKey(block).user) < Rank(sep.user) && (|next| > 0 ==> Rank(sep.user) < Rank(next[0].key.user)))
  }

  /** What follows block b: the next block, or what is still to be written. */
  function Following(blocks: seq<seq<Item>>, data: seq<Item>, b: nat): seq<Item>
    requires b < |blocks|
  {
    if b + 1 < |blocks| then blocks[b + 1] else data
  }

  predicate AllBeforeKey(s: seq<Item>, key: ByteKey) {
    forall i :: 0 <= i < |s| ==> Before(Ranked(s[i].key), Ranked(key))
  }

  ghost function Flat(blocks: seq<seq<Item>>, n: nat): seq<Item>
    requires n <= |blocks|
  {
    if n == 0 then [] else Flat(blocks, n - 1) + blocks[n - 1]
  }

  lemma {:induction false} FlatPrefix(blocks: seq<seq<Item>>, blocks': seq<seq<Item>>, n: nat)
    requires n <= |blocks| && n <= |blocks'| && forall b :: 0 <= b < n ==> blocks[b] == blocks'[b]
    ensures Flat(blocks, n) == Flat(blocks', n)
  {
    if n > 0 {
      FlatPrefix(blocks, blocks', n - 1);
    }
  }

  // ---- What a builder has laid down ----

  datatype Side = Order | Storage

  ghost predicate LaidSide(side: Side, blocks: seq<seq<Item>>, hs: seq<Handle>, data: seq<Item>, crc: Checksum,
        file: Bytes)
    requires Log.ChecksumOk(crc) && |hs| == |blocks|
  {
    match side
    case Order => BlocksOk(blocks) && SortedItems(data) && forall b :: 0 <= b < |blocks| ==> AllBefore(blocks[b], data)
    case Storage => ItemsFit(data) && Filed(blocks, hs, crc, file)
  }

  /** Every block is where its handle says. */
  ghost predicate Filed(blocks: seq<seq<Item>>, hs: seq<Handle>, crc: Checksum, file: Bytes)
    requires Log.ChecksumOk(crc) && |hs| == |blocks|
  {
    forall b {:trigger BlockIn(crc, file, hs[b], blocks[b])} :: 0 <= b < |blocks| ==>
        BlockIn(crc, file, hs[b], blocks[b])
  }

  predicate NonEmpty(blocks: seq<seq<Item>>) {
    forall b :: 0 <= b < |blocks| ==> |blocks[b]| > 0
  }

  /** Data blocks in order and in the file, the current one behind them. */
  ghost predicate Laid(blocks: seq<seq<Item>>, hs: seq<Handle>, data: seq<Item>, crc: Checksum, file: Bytes) {
    Log.ChecksumOk(crc) && |hs| == |blocks| && NonEmpty(blocks)
        && forall side: Side :: LaidSide(side, blocks, hs, data, crc, file)
  }

  lemma LaidParts(blocks: seq<seq<Item>>, hs: seq<Handle>, data: seq<Item>, crc: Checksum, file: Bytes)
    requires Laid(blocks, hs, data, crc, file)
    ensures BlocksOk(blocks) && SortedItems(data) && ItemsFit(data) && Filed(blocks, hs, crc, file)
    ensures forall b :: 0 <= b < |blocks| ==> AllBefore(blocks[b], data)
  {
    assert LaidSide(Order, blocks, hs, data, crc, file) && LaidSide(Storage, blocks, hs, data, crc, file);
  }

  lemma DataFits(blocks: seq<seq<Item>>, hs: seq<Handle>, data: seq<Item>, crc: Checksum, file: Bytes)
    requires Laid(blocks, hs, data, crc, file)
    ensures ItemsFit(data)
  {
    LaidParts(blocks, hs, data, crc, file);
  }

  /** The index entries written so far. */
  ghost predicate Indexed(blocks: seq<seq<Item>>, hs: seq<Handle>, data: seq<Item>, index: seq<IndexEntry>)
    requires |hs| == |blocks| && NonEmpty(blocks)
  {
    && |index| <= |blocks| && IndexFits(index)
    && (forall b :: 0 <= b < |index| ==> index[b].handle == hs[b])
    && (forall b :: 0 <= b < |index| ==> Separates(index[b].key, blocks[b], Following(blocks, data, b)))
  }

  lemma LaidAppend(blocks: seq<seq<Item>>, hs: seq<Handle>, data: seq<Item>, crc: Checksum, file: Bytes, x: Item)
    requires Laid(blocks, hs, data, crc, file) && AllBeforeKey(data, x.key) && ItemFits(x)
    requires forall b :: 0 <= b < |blocks| ==> AllBeforeKey(blocks[b], x.key)
    ensures Laid(blocks, hs, data + [x], crc, file)
  {
    LaidParts(blocks, hs, data, crc, file);
    forall b | 0 <= b < |blocks| ensures AllBefore(blocks[b], data + [x]) {
      assert AllBefore(blocks[b], data) && AllBeforeKey(blocks[b], x.key);
    }
  }

  lemma LaidWrite(blocks: seq<seq<Item>>, hs: seq<Handle>, data: seq<Item>, crc: Checksum, file: Bytes, file': Bytes,
        h: Handle)
    requires Laid(blocks, hs, data, crc, file) && |data| > 0 && file <= file' && BlockIn(crc, file', h, data)
    ensures Laid(blocks + [data], hs + [h], [], crc, file')
  {
    LaidParts(blocks, hs, data, crc, file);
    var blocks' := blocks + [data];
    forall b, c | 0 <= b < c < |blocks'| ensures AllBefore(blocks'[b], blocks'[c]) {
      if c < |blocks| {
        assert AllBefore(blocks[b], blocks[c]);
      }
    }
    forall b | 0 <= b < |blocks| ensures BlockIn(crc, file', hs[b], blocks[b]) {
      BlockInKept(crc, file, file', hs[b], blocks[b]);
    }
  }

  lemma IndexedAppend(blocks: seq<seq<Item>>, hs: seq<Handle>, data: seq<Item>, index: seq<IndexEntry>, x: Item)
    requires |hs| == |blocks| && NonEmpty(blocks) && Indexed(blocks, hs, if data == [] then [x] else data, index)
    ensures Indexed(blocks, hs, data + [x], index)
  {
    forall b | 0 <= b < |index| ensures Separates(index[b].key, blocks[b], Following(blocks, data + [x], b)) {
      assert Separates(index[b].key, blocks[b], Following(blocks, if data == [] then [x] else data, b));
    }
  }

  lemma AfterWrite(blocks: seq<seq<Item>>, hs: seq<Handle>, data: seq<Item>, h: Handle)
    requires |hs| == |blocks| && |data| > 0
    ensures |hs + [h]| == |blocks + [data]| > 0
    ensures (hs + [h])[|blocks + [data]| - 1] == h && LastKey((blocks + [data])[|blocks + [data]| - 1]) == LastKey(data)
  {}

  lemma IndexedWrite(blocks: seq<seq<Item>>, hs: seq<Handle>, data: seq<Item>, index: seq<IndexEntry>, h: Handle)
    requires |hs| == |blocks| == |index| && NonEmpty(blocks) && |data| > 0 && Indexed(blocks, hs, data, index)
    ensures Indexed(blocks + [data], hs + [h], [], index)
  {
    forall b | 0 <= b < |index| ensures Separates(index[b].key, (blocks + [data])[b],
        Following(blocks + [data], [], b)) {
      assert Separates(index[b].key, blocks[b], Following(blocks, data, b));
      assert Following(blocks + [data], [], b) == Following(blocks, data, b);
    }
  }

  /** The last key added is the greatest. */
  lemma BeyondLast(blocks: seq<seq<Item>>, data: seq<Item>, last: ByteKey, key: ByteKey)
    requires BlocksOk(blocks) && SortedItems(data) && forall b :: 0 <= b < |blocks| ==> AllBefore(blocks[b], data)
    requires |data| > 0 ==> last == LastKey(data)
    requires |data| == 0 && |blocks| > 0 ==> last == LastKey(blocks[|blocks| - 1])
    requires |data| > 0 || |blocks| > 0 ==> Before(Ranked(last), Ranked(key))
    ensures AllBeforeKey(data, key)
    ensures forall b :: 0 <= b < |blocks| ==> AllBeforeKey(blocks[b], key)
  {
    forall i | 0 <= i < |data| ensures Before(Ranked(data[i].key), Ranked(key)) {
      assert i == |data| - 1 || ItemBefore(data[i], data[|data| - 1]);
    }
    forall b, i | 0 <= b < |blocks| && 0 <= i < |blocks[b]| ensures Before(Ranked(blocks[b][i].key), Ranked(key)) {
      if |data| > 0 {
        assert AllBefore(blocks[b], data);
        assert ItemBefore(blocks[b][i], data[|data| - 1]);
      } else {
        var end := blocks[|blocks| - 1];
        if b < |blocks| - 1 {
          assert AllBefore(blocks[b], end);
        }
        assert (b == |blocks| - 1 && i == |end| - 1) || ItemBefore(blocks[b][i], end[|end| - 1]);
      }
    }
  }

  predicate KeysIn(block: seq<Item>, keys: seq<Bytes>) {
    forall i :: 0 <= i < |block| ==> block[i].key.user in keys
  }

  /** Every key is in the filter that its block's offset leads to. */
  ghost predicate Filtered(f: FilterBlockBuilder, blocks: seq<seq<Item>>, hs: seq<Handle>, data: seq<Item>, offset: nat)
    reads f
  {
    && f.Valid() && |f.offsets| == offset / FILTER_BASE && |hs| == |blocks|
    && (forall b :: 0 <= b < |blocks| ==> KeysIn(blocks[b], f.Holding(hs[b].offset / FILTER_BASE)))
    && KeysIn(data, f.Holding(offset / FILTER_BASE))
  }

  method AddToFilter(f: FilterBlockBuilder, x: Item, ghost blocks: seq<seq<Item>>, ghost hs: seq<Handle>,
        ghost data: seq<Item>, ghost offset: nat)
    requires Filtered(f, blocks, hs, data, offset)
    modifies f
    ensures Filtered(f, blocks, hs, data + [x], offset)
  {
    ghost var held := f.Holding(offset / FILTER_BASE);
    f.AddKey(x.key.user);
    assert f.Holding(offset / FILTER_BASE) == held + [x.key.user];
    forall b | 0 <= b < |blocks| ensures KeysIn(blocks[b], f.Holding(hs[b].offset / FILTER_BASE)) {
      assert KeysIn(blocks[b], old(f.Holding(hs[b].offset / FILTER_BASE)));
    }
  }

  method StartFilterBlock(f: FilterBlockBuilder, offset': nat, ghost h: Handle, ghost blocks: seq<seq<Item>>,
        ghost hs: seq<Handle>, ghost data: seq<Item>, ghost offset: nat)
    requires Filtered(f, blocks, hs, data, offset) && offset' > offset == h.offset
    modifies f
    ensures Filtered(f, blocks + [data], hs + [h], [], offset')
  {
    f.StartBlock(offset');
    forall b | 0 <= b < |blocks| + 1 ensures KeysIn((blocks + [data])[b],
        f.Holding((hs + [h])[b].offset / FILTER_BASE)) {
      if b < |blocks| {
        assert KeysIn(blocks[b], old(f.Holding(hs[b].offset / FILTER_BASE)));
      }
    }
  }

  // ---- Builder ----

  class TableBuilder {
    const blockSize: nat
    const estimate: seq<Item> -> nat       // BlockBuilder::CurrentSizeEstimate
    const restartInterval: nat
    const crc: Checksum
    const filter: FilterBlockBuilder?
    const filterName: Bytes
    var file: Bytes                        // what has been appended
    var offset: nat
    var dataBlock: seq<Item>
    var index: seq<IndexEntry>
    var lastKey: ByteKey
    var numEntries: nat
    var pendingIndexEntry: bool
    var pendingHandle: Handle
    ghost var blocks: seq<seq<Item>>       // data blocks in order
    ghost var handles: seq<Handle>         // where they are

    /** Blocks, index and the pending entry fit together. */
    ghost predicate Shaped()
      reads this
    {
      && restartInterval >= 1 && offset == |file| && |filterName| + 7 < TWO32
      && Laid(blocks, handles, dataBlock, crc, file) && Indexed(blocks, handles, dataBlock, index)
      && |index| == |blocks| - (if pendingIndexEntry then 1 else 0)
      && (pendingIndexEntry ==> |blocks| > 0 && dataBlock == [] && pendingHandle == handles[|blocks| - 1])
      && (|dataBlock| == 0 && |blocks| > 0 ==> pendingIndexEntry && lastKey == LastKey(blocks[|blocks| - 1]))
      && (|dataBlock| > 0 ==> lastKey == LastKey(dataBlock))
      && (numEntries > 0 <==> |blocks| > 0 || |dataBlock| > 0)
    }

    ghost predicate Valid()
      reads this, filter
    {
      Shaped() && (filter != null ==> Filtered(filter, blocks, handles, dataBlock, offset))
    }

    /** What has been added so far. */
    ghost function Items(): seq<Item>
      reads this
    {
      Flat(blocks, |blocks|) + dataBlock
    }

    constructor (blockSize: nat, estimate: seq<Item> -> nat, restartInterval: nat, crc: Checksum,
          filter: FilterBlockBuilder?, filterName: Bytes)
      requires restartInterval >= 1 && Log.ChecksumOk(crc) && |filterName| + 7 < TWO32
      requires filter != null ==> filter.Valid() && filter.offsets == []
      ensures Valid() && Items() == [] && this.filter == filter && this.crc == crc && this.filterName == filterName
    {
      this.blockSize, this.estimate, this.restartInterval, this.crc := blockSize, estimate, restartInterval, crc;
      this.filter, this.filterName := filter, filterName;
      file, offset, dataBlock, index, numEntries := [], 0, [], [], 0;
      lastKey := ByteKey([], 0, Deletion);
      pendingIndexEntry, pendingHandle, blocks, handles := false, Handle(0, 0), [], [];
    }

    /** The pending index entry, once the next key is known. */
    method AddIndexEntry(key: ByteKey)
      requires Shaped() && pendingIndexEntry && Before(Ranked(lastKey), Ranked(key))
      modifies this`lastKey, this`index, this`pendingIndexEntry
      ensures !pendingIndexEntry && Indexed(blocks, handles, [Item(key, [])], index) && |index| == |blocks|
    {
      LastKeyFits();
      var sep := FindShortestInternalSeparator(lastKey, key);
      IndexPush(blocks, handles, index, sep, pendingHandle, key);
      lastKey := sep;
      index := index + [IndexEntry(sep, pendingHandle)];
      pendingIndexEntry := false;
    }

    lemma LastKeyFits()
      requires Shaped() && pendingIndexEntry
      ensures KeyFits(lastKey)
    {
      LaidParts(blocks, handles, dataBlock, crc, file);
      assert BlockIn(crc, file, handles[|blocks| - 1], blocks[|blocks| - 1]);
    }

    method AppendItem(key: ByteKey, value: Bytes)
      requires Shaped() && ItemFits(Item(key, value)) && (numEntries > 0 ==> Before(Ranked(lastKey), Ranked(key)))
      modifies this
      ensures Shaped() && lastKey == key
      ensures blocks == old(blocks) && handles == old(handles) && offset == old(offset)
              && dataBlock == old(dataBlock) + [Item(key, value)]
    {
      var x := Item(key, value);
      LaidParts(blocks, handles, dataBlock, crc, file);
      BeyondLast(blocks, dataBlock, lastKey, key);
      LaidAppend(blocks, handles, dataBlock, crc, file, x);
      if pendingIndexEntry {
        AddIndexEntry(key);
        SameFirst(blocks, handles, index, Item(key, []), x);
      }
      IndexedAppend(blocks, handles, dataBlock, index, x);
      lastKey := key;
      numEntries := numEntries + 1;
      dataBlock := dataBlock + [x];
    }

    /** WriteBlock for a data block: its contents, then the trailer. */
    method WriteBlock()
      requires Shaped() && |dataBlock| > 0
      modifies this
      ensures Shaped() && lastKey == old(lastKey) && dataBlock == [] && offset > old(offset) && old(file) <= file
      ensures blocks == old(blocks) + [old(dataBlock)] && handles == old(handles) + [pendingHandle]
      ensures pendingHandle.offset == old(offset) && offset == old(offset) + pendingHandle.size + TRAILER
      ensures BlockIn(crc, file, pendingHandle, old(dataBlock))
    {
      DataFits(blocks, handles, dataBlock, crc, file);
      var file', h := WriteItems(crc, file, dataBlock, restartInterval);
      LaidWrite(blocks, handles, dataBlock, crc, file, file', h);
      IndexedWrite(blocks, handles, dataBlock, index, h);
      AfterWrite(blocks, handles, dataBlock, h);
      blocks, handles := blocks + [dataBlock], handles + [h];
      file, pendingHandle, offset := file', h, offset + h.size + TRAILER;
      dataBlock := [];
      pendingIndexEntry := true;
    }

    method Flush()
      requires Valid()
      modifies this, filter
      ensures Valid() && Items() == old(Items()) && dataBlock == [] && lastKey == old(lastKey)
    {
      if |dataBlock| == 0 {
        return;
      }
      ghost var blocks0, handles0, data0, offset0 := blocks, handles, dataBlock, offset;
      FlatPrefix(blocks, blocks + [dataBlock], |blocks|);
      WriteBlock();
      assert Items() == old(Items());
      if filter != null {
        StartFilterBlock(filter, offset, pendingHandle, blocks0, handles0, data0, offset0);
      }
    }

    method Add(key: ByteKey, value: Bytes)
      requires Valid() && ItemFits(Item(key, value)) && (numEntries > 0 ==> Before(Ranked(lastKey), Ranked(key)))
      modifies this, filter
      ensures Valid() && Items() == old(Items()) + [Item(key, value)] && lastKey == key
    {
      ghost var data0 := dataBlock;
      AppendItem(key, value);
      if filter != null {
        AddToFilter(filter, Item(key, value), blocks, handles, data0, offset);
      }
      assert Items() == old(Items()) + [Item(key, value)];
      if estimate(dataBlock) >= blockSize {
        Flush();
      }
    }

    /** Finish: the last data block, the filter block, metaindex, index and footer. */
    method Finish() returns (ghost t: Table)
      requires Valid()
      modifies this, filter
      ensures dataBlock == [] && Flat(blocks, |blocks|) == old(Items()) && TableOk(t, blocks)
      ensures filter == null ==> t.filter.None?
      ensures filter != null ==> filter.Valid()
                                 && t.filter == Some(OpenReader(FilterContents(filter.result, filter.offsets)))
      ensures filter != null && |filter.result| < TWO32 ==> FilterOk(t, blocks, filter.policy.hash)
      ensures IndexFits(t.index)
      ensures |file| < TWO64 && Small(IndexPairs(t.index)) && |filterName| + 50 < TWO32 ==>
              Represents(crc, file, t, blocks, filterName)
    {
      var contents := Close();
      ghost var hash := if filter != null && |filter.result| < TWO32 then Some(filter.policy.hash) else None;
      t := FinishTable(contents, hash);
    }

    /** The last data block and the filter block. */
    method Close() returns (contents: Option<Bytes>)
      requires Valid()
      modifies this, filter
      ensures Shaped() && dataBlock == [] && Flat(blocks, |blocks|) == old(Items())
      ensures contents.Some? <==> filter != null
      ensures filter != null ==> filter.Valid() && contents == Some(FilterContents(filter.result, filter.offsets))
      ensures filter != null && |filter.result| < TWO32 ==>
              MatchesAll(filter.policy.hash, OpenReader(contents.value), handles, blocks)
    {
      Flush();
      assert Flat(blocks, |blocks|) + [] == Flat(blocks, |blocks|);
      contents := FinishFilter();
    }

    /** The last index entry and what comes behind the data blocks. */
    method FinishTable(contents: Option<Bytes>, ghost hash: Option<Hash>) returns (ghost t: Table)
      requires Shaped() && dataBlock == []
      requires hash.Some? ==> contents.Some? && MatchesAll(hash.value, OpenReader(contents.value), handles, blocks)
      modifies this`lastKey, this`index, this`pendingIndexEntry, this`file, this`offset
      ensures t.filter == Opened(contents) && TableOk(t, blocks) && IndexFits(t.index)
      ensures hash.Some? ==> FilterOk(t, blocks, hash.value)
      ensures |file| < TWO64 && Small(IndexPairs(t.index)) && |filterName| + 50 < TWO32 ==>
              Represents(crc, file, t, blocks, filterName)
    {
      LaidParts(blocks, handles, dataBlock, crc, file);
      FinishIndex();
      t := Table(index, Opened(contents));
      if hash.Some? {
        FilterServes(t, blocks, handles, hash.value);
      }
      file := WriteTable(crc, file, index, contents, filterName, restartInterval, blocks, handles);
      offset := |file|;
    }

    method FinishFilter() returns (contents: Option<Bytes>)
      requires Valid()
      modifies filter
      ensures contents.Some? <==> filter != null
      ensures filter != null ==> filter.Valid() && contents == Some(FilterContents(filter.result, filter.offsets))
      ensures filter != null && |filter.result| < TWO32 ==>
              MatchesAll(filter.policy.hash, OpenReader(contents.value), handles, blocks)
    {
      contents := None;
      if filter != null {
        var c := filter.Finish();
        contents := Some(c);
        FilterMatches(c);
      }
    }

    lemma FilterMatches(c: Bytes)
      requires filter != null && filter.Valid() && filter.start == [] && |handles| == |blocks|
      requires forall b :: 0 <= b < |blocks| ==> KeysIn(blocks[b], filter.Holding(handles[b].offset / FILTER_BASE))
      requires c == FilterContents(filter.result, filter.offsets)
      ensures |filter.result| < TWO32 ==> MatchesAll(filter.policy.hash, OpenReader(c), handles, blocks)
    {
      if |filter.result| < TWO32 {
        forall b | 0 <= b < |blocks| ensures BlockMatches(filter.policy.hash, OpenReader(c), handles[b].offset,
            blocks[b]) {
          AllMatch(filter, handles[b].offset, blocks[b]);
        }
      }
    }

    method FinishIndex()
      requires Shaped() && dataBlock == []
      modifies this`lastKey, this`index, this`pendingIndexEntry
      ensures |index| == |blocks| && Indexed(blocks, handles, [], index)
    {
      if pendingIndexEntry {
        LastKeyFits();
        var sep := FindShortInternalSuccessor(lastKey);
        IndexLast(blocks, handles, index, sep, pendingHandle);
        lastKey := sep;
        index := index + [IndexEntry(sep, pendingHandle)];
        pendingIndexEntry := false;
      }
    }
  }

  lemma IndexLast(blocks: seq<seq<Item>>, hs: seq<Handle>, index: seq<IndexEntry>, sep: ByteKey, handle: Handle)
    requires |hs| == |blocks| == |index| + 1 && NonEmpty(blocks) && Indexed(blocks, hs, [], index)
    requires handle == hs[|index|] && KeyFits(sep)
    requires var last := LastKey(blocks[|index|]); sep == last || Less(last.user, sep.user)
    ensures Indexed(blocks, hs, [], index + [IndexEntry(sep, handle)])
  {
    var index', n := index + [IndexEntry(sep, handle)], |index|;
    RankOrder(LastKey(blocks[n]).user, sep.user);
    forall b | 0 <= b < |index'| ensures Separates(index'[b].key, blocks[b], Following(blocks, [], b)) {
      if b < n {
        assert Separates(index[b].key, blocks[b], Following(blocks, [], b));
      }
    }
  }

  // ---- A finished table ----

  /** What a table file stands for. */
  datatype Table = Table(index: seq<IndexEntry>, filter: Option<Reader>)

  ghost predicate TableOk(t: Table, blocks: seq<seq<Item>>) {
    && BlocksOk(blocks) && |t.index| == |blocks| && (t.filter.Some? ==> ReaderOk(t.filter.value))
    && (forall b :: 0 <= b < |blocks| ==> Separates(t.index[b].key, blocks[b], Following(blocks, [], b)))
  }

  const FILTER_PREFIX: Bytes := [102, 105, 108, 116, 101, 114, 46]      // "filter."

  /** The metaindex: where the filter block is, if there is one. */
  function MetaPairs(has: bool, name: Bytes, h: Handle): seq<B.Pair> {
    if has then [B.Pair(FILTER_PREFIX + name, HandleBytes(h))] else []
  }

  /** Where the tail of a file has what. */
  datatype Parts = Parts(meta: Handle, index: Handle, filter: Handle, metaContents: Bytes, indexContents: Bytes)

  ghost predicate TailOk(crc: Checksum, file: Bytes, index: seq<IndexEntry>, filter: Option<Bytes>, name: Bytes,
        p: Parts)
    requires Log.ChecksumOk(crc) && IndexFits(index)
  {
    && OpenFooter(file) == Some((p.meta, p.index))
    && StoredAt(crc, file, p.meta, p.metaContents) && StoredAt(crc, file, p.index, p.indexContents)
    && (filter.Some? ==> HandleOk(p.filter) && StoredAt(crc, file, p.filter, filter.value))
    && Packs(p.metaContents, MetaPairs(filter.Some?, name, p.filter)) && Packs(p.indexContents, IndexPairs(index))
  }

  function Opened(contents: Option<Bytes>): Option<Reader> {
    if contents.Some? then Some(OpenReader(contents.value)) else None
  }

  /** The file is a table with these blocks behind this index and filter. */
  ghost predicate Represents(crc: Checksum, file: Bytes, t: Table, blocks: seq<seq<Item>>, name: Bytes)
    requires Log.ChecksumOk(crc) && IndexFits(t.index) && |t.index| == |blocks|
  {
    && (exists p, contents: Option<Bytes> ::
          TailOk(crc, file, t.index, contents, name, p) && t.filter == Opened(contents))
    && (forall b {:trigger BlockIn(crc, file, t.index[b].handle, blocks[b])} :: 0 <= b < |blocks| ==>
          HandleOk(t.index[b].handle) && BlockIn(crc, file, t.index[b].handle, blocks[b]))
  }

  method WriteFilter(crc: Checksum, file: Bytes, filter: Option<Bytes>) returns (file': Bytes, h: Handle)
    requires Log.ChecksumOk(crc)
    ensures file <= file' && (filter.Some? ==> StoredAt(crc, file', h, filter.value))
  {
    file', h := file, Handle(0, 0);
    if filter.Some? {
      file', h := WriteRawBlock(crc, file, filter.value);
    }
  }

  /** Filter block, metaindex block, index block, footer. */
  method WriteTail(crc: Checksum, file: Bytes, index: seq<IndexEntry>, filter: Option<Bytes>, name: Bytes,
        interval: nat)
    returns (file': Bytes, ghost p: Parts)
    requires Log.ChecksumOk(crc) && IndexFits(index) && interval >= 1 && |name| + 7 < TWO32
    ensures file <= file'
    ensures |file'| < TWO64 && Small(IndexPairs(index)) && |name| + 50 < TWO32 ==>
            TailOk(crc, file', index, filter, name, p)
  {
    var f1, fh := WriteFilter(crc, file, filter);
    var mc := BuildBlock(MetaPairs(filter.Some?, name, fh), interval);
    var f2, mh := WriteRawBlock(crc, f1, mc);
    var ic := BuildBlock(IndexPairs(index), 1);
    var f3, ih := WriteRawBlock(crc, f2, ic);
    file' := f3 + Footer(Wrapped(mh), Wrapped(ih));
    p := Parts(mh, ih, fh, mc, ic);
    if |file'| < TWO64 && Small(IndexPairs(index)) && |name| + 50 < TWO32 {
      MetaSmall(filter.Some?, name, fh);
      TailWritten(crc, f1, f2, f3, file', index, filter, name, p);
    }
  }

  lemma TailWritten(crc: Checksum, f1: Bytes, f2: Bytes, f3: Bytes, file: Bytes, index: seq<IndexEntry>,
        filter: Option<Bytes>, name: Bytes, p: Parts)
    requires Log.ChecksumOk(crc) && IndexFits(index) && |file| < TWO64 && f1 <= f2 <= f3 <= file
    requires file == f3 + Footer(Wrapped(p.meta), Wrapped(p.index))
    requires filter.Some? ==> StoredAt(crc, f1, p.filter, filter.value)
    requires StoredAt(crc, f2, p.meta, p.metaContents) && StoredAt(crc, f3, p.index, p.indexContents)
    requires Packs(p.metaContents, MetaPairs(filter.Some?, name, p.filter)) && Packs(p.indexContents, IndexPairs(index))
    ensures TailOk(crc, file, index, filter, name, p)
  {
    FooterRoundTrip(f3, Wrapped(p.meta), Wrapped(p.index));
    StoredKept(crc, f3, file, p.index, p.indexContents);
    StoredKept(crc, f2, file, p.meta, p.metaContents);
    if filter.Some? {
      StoredKept(crc, f1, file, p.filter, filter.value);
    }
  }

  /** Everything behind the data blocks. */
  method WriteTable(crc: Checksum, file: Bytes, index: seq<IndexEntry>, contents: Option<Bytes>, name: Bytes,
        interval: nat,
                    ghost blocks: seq<seq<Item>>, ghost hs: seq<Handle>) returns (file': Bytes)
    requires Log.ChecksumOk(crc) && |hs| == |blocks| && Filed(blocks, hs, crc, file)
    requires |index| == |blocks| && IndexFits(index) && forall b :: 0 <= b < |index| ==> index[b].handle == hs[b]
    requires interval >= 1 && |name| + 7 < TWO32
    ensures file <= file'
    ensures |file'| < TWO64 && Small(IndexPairs(index)) && |name| + 50 < TWO32 ==>
            Represents(crc, file', Table(index, Opened(contents)), blocks, name)
  {
    ghost var p;
    file', p := WriteTail(crc, file, index, contents, name, interval);
    if |file'| < TWO64 && Small(IndexPairs(index)) && |name| + 50 < TWO32 {
      TailRepresents(crc, file, file', Table(index, Opened(contents)), blocks, hs, contents, name, p);
    }
  }

  lemma MetaSmall(has: bool, name: Bytes, h: Handle)
    requires |name| + 50 < TWO32
    ensures Small(MetaPairs(has, name, h))
  {
    var kvs := MetaPairs(has, name, h);
    if has {
      assert PackedSize(kvs, 1) == PackedSize(kvs, 0) + 15 + |kvs[0].key| + |kvs[0].value|;
    }
  }

  lemma TailRepresents(crc: Checksum, file0: Bytes, file: Bytes, t: Table, blocks: seq<seq<Item>>, hs: seq<Handle>,
        contents: Option<Bytes>, name: Bytes, p: Parts)
    requires Log.ChecksumOk(crc) && |hs| == |blocks| && Filed(blocks, hs, crc, file0) && file0 <= file && |file| < TWO64
    requires IndexFits(t.index) && |t.index| == |blocks| && forall b :: 0 <= b < |blocks| ==> t.index[b].handle == hs[b]
    requires TailOk(crc, file, t.index, contents, name, p) && t.filter == Opened(contents)
    ensures Represents(crc, file, t, blocks, name)
  {
    forall b | 0 <= b < |blocks| ensures HandleOk(hs[b]) && BlockIn(crc, file, hs[b], blocks[b]) {
      assert BlockIn(crc, file0, hs[b], blocks[b]);
      BlockInKept(crc, file0, file, hs[b], blocks[b]);
    }
  }

  /** The filter of a block lets through every key of the block. */
  predicate BlockMatches(hash: Hash, r: Reader, offset: nat, block: seq<Item>)
    requires ReaderOk(r)
  {
    forall i :: 0 <= i < |block| ==> KeyMayMatch(hash, r, offset, block[i].key.user)
  }

  ghost predicate FilterOk(t: Table, blocks: seq<seq<Item>>, hash: Hash)
    requires TableOk(t, blocks)
  {
    t.filter.Some? ==> forall b :: 0 <= b < |blocks| ==>
        BlockMatches(hash, t.filter.value, t.index[b].handle.offset, blocks[b])
  }

  ghost predicate MatchesAll(hash: Hash, r: Reader, hs: seq<Handle>, blocks: seq<seq<Item>>)
    requires ReaderOk(r)
  {
    |hs| == |blocks| && forall b {:trigger BlockMatches(hash, r, hs[b].offset, blocks[b])} :: 0 <= b < |blocks| ==>
        BlockMatches(hash, r, hs[b].offset, blocks[b])
  }

  lemma FilterServes(t: Table, blocks: seq<seq<Item>>, hs: seq<Handle>, hash: Hash)
    requires TableOk(t, blocks) && |hs| == |blocks| && t.filter.Some?
    requires forall b :: 0 <= b < |blocks| ==> t.index[b].handle == hs[b]
    requires MatchesAll(hash, t.filter.value, hs, blocks)
    ensures FilterOk(t, blocks, hash)
  {
    forall b | 0 <= b < |blocks| ensures BlockMatches(hash, t.filter.value, t.index[b].handle.offset, blocks[b]) {
      assert BlockMatches(hash, t.filter.value, hs[b].offset, blocks[b]);
    }
  }

  /** A finished filter block matches the keys held for an offset. */
  lemma AllMatch(f: FilterBlockBuilder, offset: nat, block: seq<Item>)
    requires f.Valid() && f.start == [] && |f.result| < TWO32 && KeysIn(block, f.Holding(offset / FILTER_BASE))
    ensures BlockMatches(f.policy.hash, OpenReader(FilterContents(f.result, f.offsets)), offset, block)
  {
    var i := offset / FILTER_BASE;
    forall k | 0 <= k < |block| ensures KeyMayMatch(f.policy.hash, OpenReader(FilterContents(f.result, f.offsets)),
        offset, block[k].key.user) {
      assert block[k].key.user in f.Holding(i);
      assert Accepts(f.policy.hash, Part(f.offsets, f.result, i), f.filters[i]);
      ReaderAsksFilter(f.policy.hash, f.result, f.offsets, offset, block[k].key.user);
    }
  }

  lemma IndexPush(blocks: seq<seq<Item>>, hs: seq<Handle>, index: seq<IndexEntry>, sep: ByteKey, handle: Handle,
        key: ByteKey)
    requires |hs| == |blocks| == |index| + 1 && NonEmpty(blocks) && Indexed(blocks, hs, [], index)
    requires handle == hs[|index|] && KeyFits(sep) && Before(Ranked(LastKey(blocks[|index|])), Ranked(key))
    requires var last := LastKey(blocks[|index|]); sep == last
                                                   || (Less(last.user, sep.user) && Less(sep.user, key.user))
    ensures Indexed(blocks, hs, [Item(key, [])], index + [IndexEntry(sep, handle)])
  {
    var index', n := index + [IndexEntry(sep, handle)], |index|;
    RankOrder(LastKey(blocks[n]).user, sep.user);
    RankOrder(sep.user, key.user);
    forall b | 0 <= b < |index'| ensures Separates(index'[b].key, blocks[b], Following(blocks, [Item(key, [])], b)) {
      if b < n {
        assert Separates(index[b].key, blocks[b], Following(blocks, [], b));
      }
    }
  }

  lemma SameFirst(blocks: seq<seq<Item>>, hs: seq<Handle>, index: seq<IndexEntry>, x: Item, y: Item)
    requires |hs| == |blocks| && NonEmpty(blocks) && Indexed(blocks, hs, [x], index) && x.key == y.key
    ensures Indexed(blocks, hs, [y], index)
  {
    forall b | 0 <= b < |index| ensures Separates(index[b].key, blocks[b], Following(blocks, [y], b)) {
      assert Separates(index[b].key, blocks[b], Following(blocks, [x], b));
    }
  }
}
