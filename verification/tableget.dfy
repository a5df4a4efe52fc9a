/** Table::Open and Table::InternalGet on the bytes of a table file: footer, index
    block, filter, data block, and what the lookup comes to. */
module TableGet {
  import opened Keys
  import opened Mvcc
  import opened Levels
  import opened Comparators
  import opened Bloom
  import opened FilterBlocks
  import opened Coding
  import opened DbFormat
  import opened TableFiles
  import opened Tables
  import TwoLevel
  import VersionGet

  // ---- Keys in blocks behind separators ----

  /** Sorted blocks of keys, none empty. */
  ghost predicate Grid(g: seq<seq<InternalKey>>) {
    && (forall b :: 0 <= b < |g| ==> |g[b]| > 0)
    && (forall b, i, j :: 0 <= b < |g| && 0 <= i < j < |g[b]| ==> Before(g[b][i], g[b][j]))
    && (forall b, c, i, j :: 0 <= b < c < |g| && 0 <= i < |g[b]| && 0 <= j < |g[c]| ==> Before(g[b][i], g[c][j]))
  }

  /** A separator is its block's last key, or a user key strictly beyond that
      and strictly before the next block's first. */
  predicate SepOk(sep: InternalKey, last: InternalKey, next: Option<InternalKey>) {
    sep == last || (last.user < sep.user && (next.Some? ==> sep.user < next.value.user))
  }

  function FirstAfter(g: seq<seq<InternalKey>>, b: nat): Option<InternalKey> {
    if b + 1 < |g| && |g[b + 1]| > 0 then Some(g[b + 1][0]) else None
  }

  predicate Separated(seps: seq<InternalKey>, g: seq<seq<InternalKey>>, b: nat)
    requires b < |g| && b < |seps| && |g[b]| > 0
  {
    SepOk(seps[b], g[b][|g[b]| - 1], FirstAfter(g, b))
  }

  ghost predicate Leads(seps: seq<InternalKey>, g: seq<seq<InternalKey>>) {
    Grid(g) && |seps| == |g| && forall b :: 0 <= b < |g| ==> Separated(seps, g, b)
  }

  /** Block a is the one the index leads to for k. */
  ghost predicate LedTo(seps: seq<InternalKey>, k: InternalKey, a: nat) {
    a <= |seps| && (forall i :: 0 <= i < a ==> Before(seps[i], k)) && (a < |seps| ==> !Before(seps[a], k))
  }

  lemma BlockBelowSeparator(seps: seq<InternalKey>, g: seq<seq<InternalKey>>, b: nat, i: nat)
    requires Leads(seps, g) && b < |g| && i < |g[b]|
    ensures !Before(seps[b], g[b][i])
  {
    assert Separated(seps, g, b);
    assert i == |g[b]| - 1 || Before(g[b][i], g[b][|g[b]| - 1]);
  }

  lemma BlockAboveSeparator(seps: seq<InternalKey>, g: seq<seq<InternalKey>>, a: nat, b: nat, i: nat)
    requires Leads(seps, g) && a < b < |g| && i < |g[b]|
    ensures Before(seps[a], g[b][i])
    ensures seps[a] != g[a][|g[a]| - 1] ==> seps[a].user < g[b][i].user
  {
    assert Separated(seps, g, a);
    assert Before(g[a][|g[a]| - 1], g[b][i]);
    assert (b == a + 1 && i == 0) || Before(g[a + 1][0], g[b][i]);
  }

  /** Nothing in blocks before the one led to is at or after k. */
  lemma EarlierBlocks(seps: seq<InternalKey>, g: seq<seq<InternalKey>>, k: InternalKey, a: nat, b: nat, i: nat)
    requires Leads(seps, g) && LedTo(seps, k, a) && b < a && i < |g[b]|
    ensures Before(g[b][i], k)
  {
    BlockBelowSeparator(seps, g, b, i);
  }

  /** If the block led to has no key of k's user from k on, no block has. */
  lemma NotPresent(seps: seq<InternalKey>, g: seq<seq<InternalKey>>, k: InternalKey, a: nat, b: nat, i: nat)
    requires Leads(seps, g) && LedTo(seps, k, a) && b < |g| && i < |g[b]| && g[b][i].user == k.user
    requires a < |g| ==> forall j :: 0 <= j < |g[a]| ==> g[a][j].user != k.user || Before(g[a][j], k)
    ensures Before(g[b][i], k)
  {
    if b < a {
      EarlierBlocks(seps, g, k, a, b, i);
    } else if a < b {
      assert g[a][|g[a]| - 1].user != k.user || Before(g[a][|g[a]| - 1], k);
      BlockAboveSeparator(seps, g, a, b, i);
    }
  }

  /** The first key from k on in the block led to is the first of all. */
  lemma LeastFound(seps: seq<InternalKey>, g: seq<seq<InternalKey>>, k: InternalKey, a: nat, j: nat, b: nat, i: nat)
    requires Leads(seps, g) && LedTo(seps, k, a) && a < |g| && j < |g[a]| && b < |g| && i < |g[b]|
    requires forall m :: 0 <= m < j ==> Before(g[a][m], k)
    requires !Before(g[b][i], k)
    ensures !Before(g[b][i], g[a][j])
  {
    if b < a {
      EarlierBlocks(seps, g, k, a, b, i);
    } else if a < b {
      assert Before(g[a][j], g[b][i]);
    } else {
      assert i == j || Before(g[a][j], g[a][i]);
    }
  }

  // ---- Tables ----

  ghost function KeysOf(block: seq<Item>): seq<InternalKey> {
    seq(|block|, i requires 0 <= i < |block| => Ranked(block[i].key))
  }

  lemma KeysOfAt(block: seq<Item>, i: nat)
    requires i < |block|
    ensures KeysOf(block)[i] == Ranked(block[i].key)
  {}

  ghost function GridOf(blocks: seq<seq<Item>>): seq<seq<InternalKey>> {
    seq(|blocks|, b requires 0 <= b < |blocks| => KeysOf(blocks[b]))
  }

  ghost function SepsOf(index: seq<IndexEntry>): seq<InternalKey> {
    seq(|index|, b requires 0 <= b < |index| => Ranked(index[b].key))
  }

  lemma TableGrid(blocks: seq<seq<Item>>)
    requires BlocksOk(blocks)
    ensures Grid(GridOf(blocks))
  {
    var g := GridOf(blocks);
    forall b, i, j | 0 <= b < |g| && 0 <= i < j < |g[b]| ensures Before(g[b][i], g[b][j]) {
      assert ItemBefore(blocks[b][i], blocks[b][j]);
    }
    forall b, c, i, j | 0 <= b < c < |g| && 0 <= i < |g[b]| && 0 <= j < |g[c]| ensures Before(g[b][i], g[c][j]) {
      assert AllBefore(blocks[b], blocks[c]);
      assert ItemBefore(blocks[b][i], blocks[c][j]);
    }
  }

  lemma TableLeads(t: Table, blocks: seq<seq<Item>>)
    requires TableOk(t, blocks)
    ensures Leads(SepsOf(t.index), GridOf(blocks))
  {
    TableGrid(blocks);
    forall b | 0 <= b < |blocks| ensures Separated(SepsOf(t.index), GridOf(blocks), b) {
      TableSeparated(t, blocks, b);
    }
  }

  lemma TableSeparated(t: Table, blocks: seq<seq<Item>>, b: nat)
    requires b < |blocks| && b < |t.index| && |blocks[b]| > 0 && (b + 1 < |blocks| ==> |blocks[b + 1]| > 0)
    requires Separates(t.index[b].key, blocks[b], Following(blocks, [], b))
    ensures Separated(SepsOf(t.index), GridOf(blocks), b)
  {
    KeysOfAt(blocks[b], |blocks[b]| - 1);
    if b + 1 < |blocks| {
      KeysOfAt(blocks[b + 1], 0);
    }
  }

  ghost predicate InBlocks(blocks: seq<seq<Item>>, x: Item) {
    exists b, i :: 0 <= b < |blocks| && 0 <= i < |blocks[b]| && blocks[b][i] == x
  }

  predicate AtOrAfter(x: Item, k: ByteKey) {
    !Before(Ranked(x.key), Ranked(k))
  }

  /** The least stored item at or after k, provided it has k's user key. */
  ghost predicate IsAnswer(blocks: seq<seq<Item>>, k: ByteKey, r: Option<Item>) {
    match r
    case Some(x) =>
      && InBlocks(blocks, x) && x.key.user == k.user && AtOrAfter(x, k)
      && forall y :: InBlocks(blocks, y) && AtOrAfter(y, k) ==> !ItemBefore(y, x)
    case None =>
      forall y :: InBlocks(blocks, y) && y.key.user == k.user ==> !AtOrAfter(y, k)
  }

  // ---- Opening a file ----

  /** A table that has been opened. */
  datatype OpenTable = OpenTable(file: Bytes, index: Bytes, filter: Option<Reader>)

  /** Table::Open; `policy` is the name of the filter policy, if there is one. */
  method Open(crc: Checksum, verify: bool, file: Bytes, policy: Option<Bytes>, ghost t: Table,
        ghost blocks: seq<seq<Item>>)
    returns (r: Option<OpenTable>)
    requires Log.ChecksumOk(crc) && |t.index| == |blocks| && IndexFits(t.index)
    ensures OpenFooter(file).None? ==> r.None?
    ensures policy.Some? && Represents(crc, file, t, blocks, policy.value) ==> r.Some? && OpenOf(crc, r.value, file, t)
  {
    var footer := OpenFooter(file);
    if footer.None? {
      return None;
    }
    ghost var p, contents := Parts(Handle(0, 0), Handle(0, 0), Handle(0, 0), [], []), None;
    if policy.Some? && Represents(crc, file, t, blocks, policy.value) {
      p, contents :| TailOk(crc, file, t.index, contents, policy.value, p) && t.filter == Opened(contents);
      StoredReads(crc, verify, file, p.index, p.indexContents);
    }
    var index := ReadBlock(crc, verify, file, footer.value.1);
    if index.None? {
      return None;
    }
    var filter: Option<Reader> := None;
    if policy.Some? {
      filter := ReadMeta(crc, verify, file, footer.value.0, policy.value, t.index, contents, p);
    }
    r := Some(OpenTable(file, index.value, filter));
  }

  /** An opened table is the file's. */
  ghost predicate OpenOf(crc: Checksum, o: OpenTable, file: Bytes, t: Table)
    requires IndexFits(t.index)
  {
    o.file == file && Packs(o.index, IndexPairs(t.index)) && o.filter == t.filter
  }

  /** Table::ReadMeta and ReadFilter: no filter when anything goes wrong. */
  method ReadMeta(crc: Checksum, verify: bool, file: Bytes, meta: Handle, name: Bytes,
                  ghost index: seq<IndexEntry>, ghost contents: Option<Bytes>, ghost p: Parts)
                      returns (filter: Option<Reader>)
    requires Log.ChecksumOk(crc) && IndexFits(index)
    ensures TailOk(crc, file, index, contents, name, p) && p.meta == meta ==>
              filter == if contents.Some? then Some(OpenReader(contents.value)) else None
  {
    ghost var ok := TailOk(crc, file, index, contents, name, p) && p.meta == meta;
    ghost var kvs := MetaPairs(contents.Some?, name, p.filter);
    if ok {
      StoredReads(crc, verify, file, p.meta, p.metaContents);
    }
    var block := ReadBlock(crc, verify, file, meta);
    if block.None? {
      return None;
    }
    var key := FILTER_PREFIX + name;
    var found, i := SeekBlock(block.value, Less, key, kvs);
    if ok {
      LessTransitive();
      MetaFound(kvs, key, i);
    }
    if !found.Hit? || found.pair.key != key {
      return None;
    }
    filter := ReadFilter(crc, verify, file, found.pair.value, p.filter, if contents.Some? then contents.value
        else [], ok);
  }

  lemma LessTransitive()
    ensures I.Transitive(Less)
  {
    forall a, b, c | Less(a, b) && Less(b, c) ensures Less(a, c) {
      RankOrder(a, b);
      RankOrder(b, c);
      RankOrder(a, c);
    }
  }

  lemma MetaFound(kvs: seq<B.Pair>, key: Bytes, i: nat)
    requires |kvs| <= 1 && (|kvs| == 1 ==> kvs[0].key == key) && I.IsLowerBound(Less, kvs, key, i)
    ensures i == 0
  {
    RankOrder(key, key);
  }

  method ReadFilter(crc: Checksum, verify: bool, file: Bytes, value: Bytes, ghost h: Handle, ghost contents: Bytes,
        ghost ok: bool) returns (filter: Option<Reader>)
    requires Log.ChecksumOk(crc) && (ok ==> HandleOk(h) && value == HandleBytes(h) && StoredAt(crc, file, h, contents))
    ensures ok ==> filter == Some(OpenReader(contents))
  {
    if ok {
      HandleDecodes(h);
      StoredReads(crc, verify, file, h, contents);
    }
    var handle := DecodeHandle(value);
    if handle.Fail? {
      return None;
    }
    var block := ReadBlock(crc, verify, file, handle.value);
    filter := if block.None? then None else Some(OpenReader(block.value));
  }

  // ---- Looking a key up ----

  datatype Lookup = Answered(item: Option<Item>) | Failed

  /** Table::InternalGet with the SaveValue callback. */
  method InternalGet(crc: Checksum, verify: bool, o: OpenTable, hash: Hash, k: ByteKey, ghost t: Table,
        ghost blocks: seq<seq<Item>>)
    returns (r: Lookup)
    requires Log.ChecksumOk(crc) && k.sn <= MAX_SEQUENCE && (o.filter.Some? ==> ReaderOk(o.filter.value))
    ensures Servable(crc, o, hash, t, blocks) ==> r.Answered? && IsAnswer(blocks, k, r.item)
  {
    ghost var ok := Servable(crc, o, hash, t, blocks);
    ghost var kvs := if ok then IndexPairs(t.index) else [];
    if ok {
      IndexSorted(t, blocks);
    }
    EncodedIsTransitive();
    var found, a := SeekBlock(o.index, EncodedLess, EncodeKey(k), kvs);
    if ok {
      IndexLeads(t, k, a);
    }
    match found {
      case Past =>
        if ok {
          AbsentFrom(t, blocks, k, a);
        }
        return Answered(None);
      case Hit(pair) =>
        r := GetFrom(crc, verify, o, hash, k, pair.value, t, blocks, a, ok);
      case _ => return Failed;
    }
  }

  /** The file serves lookups: the opened parts are those of a sound table with
      blocks of usable size. */
  ghost predicate Servable(crc: Checksum, o: OpenTable, hash: Hash, t: Table, blocks: seq<seq<Item>>)
    requires Log.ChecksumOk(crc)
  {
    && TableOk(t, blocks) && FilterOk(t, blocks, hash) && IndexFits(t.index) && OpenOf(crc, o, o.file, t)
    && (forall b {:trigger SmallBlock(crc, o.file, t.index[b].handle, blocks[b])} :: 0 <= b < |blocks| ==>
       SmallBlock(crc, o.file, t.index[b].handle, blocks[b]))
  }

  ghost predicate SmallBlock(crc: Checksum, file: Bytes, h: Handle, items: seq<Item>)
    requires Log.ChecksumOk(crc)
  {
    HandleOk(h) && ItemsFit(items) && Small(AsPairs(items)) && BlockIn(crc, file, h, items)
  }

  /** A finished file, opened, serves lookups. */
  lemma OpenedServes(crc: Checksum, file: Bytes, o: OpenTable, hash: Hash, t: Table, blocks: seq<seq<Item>>,
        name: Bytes)
    requires Log.ChecksumOk(crc) && TableOk(t, blocks) && FilterOk(t, blocks, hash) && IndexFits(t.index)
    requires Represents(crc, file, t, blocks, name) && OpenOf(crc, o, file, t)
    requires forall b :: 0 <= b < |blocks| ==> ItemsFit(blocks[b]) && Small(AsPairs(blocks[b]))
    ensures Servable(crc, o, hash, t, blocks)
  {
    forall b | 0 <= b < |blocks| ensures SmallBlock(crc, file, t.index[b].handle, blocks[b]) {
      assert BlockIn(crc, file, t.index[b].handle, blocks[b]);
    }
  }

  lemma EncodedIsTransitive()
    ensures I.Transitive(EncodedLess)
  {
    forall a, b, c | EncodedLess(a, b) && EncodedLess(b, c) ensures EncodedLess(a, c) {
      EncodedTransitive(a, b, c);
    }
  }

  lemma IndexSorted(t: Table, blocks: seq<seq<Item>>)
    requires TableOk(t, blocks) && IndexFits(t.index)
    ensures I.SortedBy(EncodedLess, IndexPairs(t.index))
  {
    TableLeads(t, blocks);
    var seps, g := SepsOf(t.index), GridOf(blocks);
    forall b, c | 0 <= b < c < |t.index| ensures EncodedLess(EncodeKey(t.index[b].key), EncodeKey(t.index[c].key)) {
      BlockAboveSeparator(seps, g, b, c, 0);
      BlockBelowSeparator(seps, g, c, 0);
      assert Before(seps[b], seps[c]);
      EncodedOrder(t.index[b].key, t.index[c].key);
    }
  }

  /** The lower bound in the index is the block led to. */
  lemma IndexLeads(t: Table, k: ByteKey, a: nat)
    requires IndexFits(t.index) && k.sn <= MAX_SEQUENCE
             && I.IsLowerBound(EncodedLess, IndexPairs(t.index), EncodeKey(k), a)
    ensures LedTo(SepsOf(t.index), Ranked(k), a)
  {
    forall b | 0 <= b < |t.index| ensures EncodedLess(EncodeKey(t.index[b].key), EncodeKey(k)) <==>
        Before(SepsOf(t.index)[b], Ranked(k)) {
      EncodedOrder(t.index[b].key, k);
    }
    forall i | 0 <= i < a ensures Before(SepsOf(t.index)[i], Ranked(k)) {
      assert EncodedLess(IndexPairs(t.index)[i].key, EncodeKey(k));
    }
  }

  lemma ItemsSorted(items: seq<Item>)
    requires SortedItems(items) && ItemsFit(items)
    ensures I.SortedBy(EncodedLess, AsPairs(items))
  {
    forall i, j | 0 <= i < j < |items| ensures EncodedLess(EncodeKey(items[i].key), EncodeKey(items[j].key)) {
      assert ItemBefore(items[i], items[j]);
      EncodedOrder(items[i].key, items[j].key);
    }
  }

  /** The lower bound in a block is its first item at or after the key. */
  lemma ItemsBound(items: seq<Item>, k: ByteKey, j: nat)
    requires ItemsFit(items) && k.sn <= MAX_SEQUENCE && I.IsLowerBound(EncodedLess, AsPairs(items), EncodeKey(k), j)
    ensures (forall i :: 0 <= i < j ==> !AtOrAfter(items[i], k)) && (j < |items| ==> AtOrAfter(items[j], k))
  {
    forall i | 0 <= i < |items| ensures EncodedLess(EncodeKey(items[i].key), EncodeKey(k)) <==>
        !AtOrAfter(items[i], k) {
      EncodedOrder(items[i].key, k);
    }
    forall i | 0 <= i < j ensures !AtOrAfter(items[i], k) {
      assert EncodedLess(AsPairs(items)[i].key, EncodeKey(k));
    }
  }

  /** The filter and the data block behind an index entry. */
  method GetFrom(crc: Checksum, verify: bool, o: OpenTable, hash: Hash, k: ByteKey, value: Bytes,
                 ghost t: Table, ghost blocks: seq<seq<Item>>, ghost a: nat, ghost ok: bool) returns (r: Lookup)
    requires Log.ChecksumOk(crc) && k.sn <= MAX_SEQUENCE && (o.filter.Some? ==> ReaderOk(o.filter.value))
    requires ok ==> Servable(crc, o, hash, t, blocks) && a < |blocks| && LedTo(SepsOf(t.index), Ranked(k), a)
                    && value == HandleBytes(t.index[a].handle)
    ensures ok ==> r.Answered? && IsAnswer(blocks, k, r.item)
  {
    if ok {
      HandleIn(crc, o, hash, t, blocks, a);
    }
    var handle := DecodeHandle(value);
    if o.filter.Some? && handle.Parsed? && !KeyMayMatch(hash, o.filter.value, handle.value.offset, k.user) {
      if ok {
        NoneInBlock(hash, o.filter.value, handle.value.offset, blocks[a], k.user);
        AbsentFrom(t, blocks, k, a);
      }
      return Answered(None);
    }
    if handle.Fail? {
      return Failed;
    }
    r := GetInBlock(crc, verify, o, hash, k, handle.value, t, blocks, a, ok);
  }

  lemma HandleIn(crc: Checksum, o: OpenTable, hash: Hash, t: Table, blocks: seq<seq<Item>>, a: nat)
    requires Log.ChecksumOk(crc) && Servable(crc, o, hash, t, blocks) && a < |blocks|
    ensures DecodeHandle(HandleBytes(t.index[a].handle)) == Parsed(t.index[a].handle, [])
    ensures o.filter.Some? ==> BlockMatches(hash, o.filter.value, t.index[a].handle.offset, blocks[a])
    ensures SmallBlock(crc, o.file, t.index[a].handle, blocks[a])
  {
    assert SmallBlock(crc, o.file, t.index[a].handle, blocks[a]);
    HandleDecodes(t.index[a].handle);
  }

  lemma HandleDecodes(h: Handle)
    requires HandleOk(h)
    ensures DecodeHandle(HandleBytes(h)) == Parsed(h, [])
  {
    HandleRoundTrip(h, []);
    assert HandleBytes(h) + [] == HandleBytes(h);
  }

  method GetInBlock(crc: Checksum, verify: bool, o: OpenTable, ghost hash: Hash, k: ByteKey, handle: Handle,
                    ghost t: Table, ghost blocks: seq<seq<Item>>, ghost a: nat, ghost ok: bool) returns (r: Lookup)
    requires Log.ChecksumOk(crc) && k.sn <= MAX_SEQUENCE
    requires ok ==> Servable(crc, o, hash, t, blocks) && a < |blocks| && LedTo(SepsOf(t.index), Ranked(k), a)
    requires ok ==> SmallBlock(crc, o.file, handle, blocks[a])
    ensures ok ==> r.Answered? && IsAnswer(blocks, k, r.item)
  {
    ghost var kvs := if ok then AsPairs(blocks[a]) else [];
    if ok {
      ghost var c :| StoredAt(crc, o.file, handle, c) && Packs(c, kvs);
      StoredReads(crc, verify, o.file, handle, c);
      ItemsSorted(blocks[a]);
    }
    var block := ReadBlock(crc, verify, o.file, handle);
    if block.None? {
      return Failed;
    }
    EncodedIsTransitive();
    var found, j := SeekBlock(block.value, EncodedLess, EncodeKey(k), kvs);
    r := Save(found, k);
    if ok {
      ItemsBound(blocks[a], k, j);
      if j < |blocks[a]| {
        KeyRoundTrip(blocks[a][j].key);
      }
      InBlock(t, blocks, k, a, j, r);
    }
  }

  /** SaveValue: the entry found counts only if it has the user key asked for. */
  method Save(found: Found, k: ByteKey) returns (r: Lookup)
    ensures r == match found
                 case Hit(pair) => Answered(if DecodeKey(pair.key).user
                     == k.user then Some(Item(DecodeKey(pair.key), pair.value)) else None)
                 case Past => Answered(None)
                 case _ => Failed
  {
    match found {
      case Hit(pair) =>
        var key := DecodeKey(pair.key);
        r := Answered(if key.user == k.user then Some(Item(key, pair.value)) else None);
      case Past => r := Answered(None);
      case _ => r := Failed;
    }
  }

  lemma InBlock(t: Table, blocks: seq<seq<Item>>, k: ByteKey, a: nat, j: nat, r: Lookup)
    requires TableOk(t, blocks) && LedTo(SepsOf(t.index), Ranked(k), a) && a < |blocks| && j <= |blocks[a]|
    requires (forall i :: 0 <= i < j ==> !AtOrAfter(blocks[a][i], k))
             && (j < |blocks[a]| ==> AtOrAfter(blocks[a][j], k))
    requires r == Answered(if j < |blocks[a]| && blocks[a][j].key.user == k.user then Some(blocks[a][j]) else None)
    ensures IsAnswer(blocks, k, r.item)
  {
    if r.item.Some? {
      LeastIn(t, blocks, k, a, j);
    } else {
      NoneFrom(blocks[a], k, j);
      AbsentFrom(t, blocks, k, a);
    }
  }

  lemma NoneInBlock(hash: Hash, r: Reader, offset: nat, block: seq<Item>, user: Bytes)
    requires ReaderOk(r) && BlockMatches(hash, r, offset, block) && !KeyMayMatch(hash, r, offset, user)
    ensures forall i :: 0 <= i < |block| ==> block[i].key.user != user
  {}

  /** If the first item from k on has another user key, none has k's. */
  lemma NoneFrom(block: seq<Item>, k: ByteKey, j: nat)
    requires SortedItems(block) && j <= |block| && forall i :: 0 <= i < j ==> !AtOrAfter(block[i], k)
    requires j < |block| ==> AtOrAfter(block[j], k) && block[j].key.user != k.user
    ensures forall i :: 0 <= i < |block| ==> block[i].key.user != k.user || !AtOrAfter(block[i], k)
  {
    forall i | j <= i < |block| ensures block[i].key.user != k.user {
      RankOrder(block[j].key.user, k.user);
      assert i == j || ItemBefore(block[j], block[i]);
    }
  }

  lemma AbsentFrom(t: Table, blocks: seq<seq<Item>>, k: ByteKey, a: nat)
    requires TableOk(t, blocks) && LedTo(SepsOf(t.index), Ranked(k), a)
    requires a < |blocks| ==> forall i :: 0 <= i < |blocks[a]| ==> blocks[a][i].key.user != k.user
                                                                   || !AtOrAfter(blocks[a][i], k)
    ensures IsAnswer(blocks, k, None)
  {
    TableLeads(t, blocks);
    var seps: seq<InternalKey>, g: seq<seq<InternalKey>> := SepsOf(t.index), GridOf(blocks);
    if a < |blocks| {
      forall j | 0 <= j < |g[a]| ensures g[a][j].user != Rank(k.user) || Before(g[a][j], Ranked(k)) {
        RankOrder(blocks[a][j].key.user, k.user);
      }
    }
    forall y | InBlocks(blocks, y) && y.key.user == k.user ensures !AtOrAfter(y, k) {
      var b, i :| 0 <= b < |blocks| && 0 <= i < |blocks[b]| && blocks[b][i] == y;
      assert g[b][i] == Ranked(y.key);
      NotPresent(seps, g, Ranked(k), a, b, i);
    }
  }

  lemma LeastIn(t: Table, blocks: seq<seq<Item>>, k: ByteKey, a: nat, j: nat)
    requires TableOk(t, blocks) && LedTo(SepsOf(t.index), Ranked(k), a) && a < |blocks| && j < |blocks[a]|
    requires (forall i :: 0 <= i < j ==> !AtOrAfter(blocks[a][i], k)) && AtOrAfter(blocks[a][j], k)
             && blocks[a][j].key.user == k.user
    ensures IsAnswer(blocks, k, Some(blocks[a][j]))
  {
    TableLeads(t, blocks);
    var seps: seq<InternalKey>, g: seq<seq<InternalKey>> := SepsOf(t.index), GridOf(blocks);
    assert forall m :: 0 <= m < j ==> g[a][m] == Ranked(blocks[a][m].key);
    forall y | InBlocks(blocks, y) && AtOrAfter(y, k) ensures !ItemBefore(y, blocks[a][j]) {
      var b, i :| 0 <= b < |blocks| && 0 <= i < |blocks[b]| && blocks[b][i] == y;
      assert g[b][i] == Ranked(y.key);
      LeastFound(seps, g, Ranked(k), a, j, b, i);
    }
  }

  // ---- As the engine sees it ----

  function AsEntry(x: Item): Entry {
    Entry(Rank(x.key.user), x.key.sn, x.key.kind, x.value)
  }

  /** The table as a sorted run. */
  ghost predicate Holds(f: File, blocks: seq<seq<Item>>) {
    FileOk(f) && forall e :: e in f.entries <==> exists x :: InBlocks(blocks, x) && AsEntry(x) == e
  }

  /** The point lookup through index, filter and block is the seek in the flat
      run that the engine's reads are built on. */
  lemma GetIsFileGet(f: File, blocks: seq<seq<Item>>, user: Bytes, s: nat, r: Option<Item>)
    requires Holds(f, blocks) && IsAnswer(blocks, ByteKey(user, s, Put), r)
    ensures VersionGet.FileGet(f, Rank(user), s) == (match r case None => None case Some(x) => Some(AsEntry(x)))
  {
    var k := ByteKey(user, s, Put);
    var got := VersionGet.FileGet(f, Rank(user), s);
    match r {
      case None =>
        if got.Some? {
          assert got.value in f.entries;
          var y :| InBlocks(blocks, y) && AsEntry(y) == got.value;
          RankOrder(y.key.user, user);
          assert AtOrAfter(y, k);
        }
      case Some(x) =>
        assert AsEntry(x) in f.entries && Candidate(AsEntry(x), Rank(user), s);
        assert got.value in f.entries;
        var y :| InBlocks(blocks, y) && AsEntry(y) == got.value;
        assert AtOrAfter(y, k) && !ItemBefore(y, x);
        FirstHit(f, Rank(user), s, AsEntry(x));
    }
  }

  /** FileGet finds nothing after an entry that is at or after the lookup key. */
  lemma FirstHit(f: File, user: UserKey, s: nat, x: Entry)
    requires FileOk(f) && x in f.entries && !Before(KeyOf(x), LookupKey(user, s))
    requires VersionGet.FileGet(f, user, s).Some?
    ensures var y := VersionGet.FileGet(f, user, s).value; y == x || Before(KeyOf(y), KeyOf(x))
  {
    var i := LowerBound(f.entries, LookupKey(user, s));
    var j :| 0 <= j < |f.entries| && f.entries[j] == x;
    assert i <= j;
  }

  ghost function EntriesOf(block: seq<Item>): seq<Entry> {
    seq(|block|, i requires 0 <= i < |block| => AsEntry(block[i]))
  }

  ghost function EntryBlocks(blocks: seq<seq<Item>>): seq<seq<Entry>> {
    seq(|blocks|, b requires 0 <= b < |blocks| => EntriesOf(blocks[b]))
  }

  /** A grid led to by separators is an index in the two-level iterator's
      sense. */
  lemma LeadsIndex(seps: seq<InternalKey>, g: seq<seq<InternalKey>>, blocks: seq<seq<Entry>>)
    requires Leads(seps, g) && |blocks| == |g|
    requires forall b :: 0 <= b < |g| ==> |blocks[b]| == |g[b]|
    requires forall b, i :: 0 <= b < |g| && 0 <= i < |g[b]| ==> KeyOf(blocks[b][i]) == g[b][i]
    ensures TwoLevel.IndexOk(seps, blocks)
  {
    forall b, i | 0 <= b < |g| && 0 <= i < |blocks[b]| ensures !Before(seps[b], KeyOf(blocks[b][i])) {
      BlockBelowSeparator(seps, g, b, i);
    }
    forall b, c, i | 0 <= b < c < |g| && 0 <= i < |blocks[c]| ensures Before(seps[b], KeyOf(blocks[c][i])) {
      BlockAboveSeparator(seps, g, b, c, i);
    }
    forall b, c | 0 <= b < c < |g| ensures Before(seps[b], seps[c]) {
      BlockAboveSeparator(seps, g, b, c, 0);
      BlockBelowSeparator(seps, g, c, 0);
    }
  }

  /** A finished table is what the two-level iterator asks for, so iterating it
      is a cursor over the flat sorted run. */
  lemma TableIterates(t: Table, blocks: seq<seq<Item>>)
    requires TableOk(t, blocks)
    ensures TwoLevel.IndexOk(SepsOf(t.index), EntryBlocks(blocks))
  {
    TableLeads(t, blocks);
    LeadsIndex(SepsOf(t.index), GridOf(blocks), EntryBlocks(blocks));
  }
}
