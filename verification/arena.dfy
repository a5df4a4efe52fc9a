/** The blocks, chunks and free lists of an AllocSet as values.  Addresses are
    numbers; chunk and block headers are fields here, not bytes of memory. */
module Arenas {

  const BLOCK_HEADER: nat := 32
  const CHUNK_HEADER: nat := 16
  const NUM_FREELISTS: nat := 11

  // ---- Size classes ----

  /** 8 << k. */
  function ClassSize(k: nat): nat {
    if k == 0 then 8 else 2 * ClassSize(k - 1)
  }

  lemma {:induction false} ClassSizeGrows(j: nat, k: nat)
    requires j < k
    ensures 8 <= ClassSize(j) && 2 * ClassSize(j) <= ClassSize(k)
  {
    if j + 1 < k {
      ClassSizeGrows(j, k - 1);
    } else if j > 0 {
      ClassSizeGrows(j - 1, j);
    }
  }

  lemma ClassSizes()
    ensures ClassSize(0) == 8 && ClassSize(1) == 16 && ClassSize(2) == 32 && ClassSize(3) == 64 && ClassSize(4) == 128
    ensures ClassSize(5) == 256 && ClassSize(6) == 512 && ClassSize(7) == 1024 && ClassSize(8) == 2048
    ensures ClassSize(9) == 4096 && ClassSize(10) == 8192
  {
    assert ClassSize(1) == 16 && ClassSize(3) == 64 && ClassSize(5) == 256 && ClassSize(7) == 1024
           && ClassSize(9) == 4096;
  }

  function LT16(n: nat): seq<nat> {
    [n, n, n, n, n, n, n, n, n, n, n, n, n, n, n, n]
  }

  /** LogTable256, row by row. */
  function LogRow(r: nat): seq<nat> {
    if r == 0 then [0, 1, 2, 2, 3, 3, 3, 3, 4, 4, 4, 4, 4, 4, 4, 4]
    else if r < 2 then LT16(5)
    else if r < 4 then LT16(6)
    else if r < 8 then LT16(7)
    else LT16(8)
  }

  function LogTable256(t: nat): nat {
    LogRow(t / 16)[t % 16]
  }

  /** AllocSetFreeIndex. */
  function FreeIndex(size: nat): nat {
    if size > 8 then
      var tsize := (size - 1) / 8;
      var t := tsize / 256;
      if t != 0 then LogTable256(t) + 8 else LogTable256(tsize)
    else
      0
  }

  lemma TableIsBitLength(t: nat)
    requires 0 < t < 256
    ensures var n := LogTable256(t); 1 <= n <= 8 && ClassSize(n - 1) <= 8 * t && 8 * t + 8 <= ClassSize(n)
  {
    ClassSizes();
  }

  lemma EightUp(n: nat)
    ensures ClassSize(n + 8) == 256 * ClassSize(n)
  {
    assert ClassSize(n + 2) == 4 * ClassSize(n) && ClassSize(n + 4) == 4 * ClassSize(n + 2);
    assert ClassSize(n + 6) == 4 * ClassSize(n + 4) && ClassSize(n + 8) == 4 * ClassSize(n + 6);
  }

  predicate LeastClass(size: nat, k: nat) {
    size <= ClassSize(k) && (k > 0 ==> ClassSize(k - 1) < size)
  }

  lemma SmallIndex(size: nat, tsize: nat)
    requires size > 8 && 8 * tsize < size <= 8 * tsize + 8 && tsize < 256
    ensures var k := LogTable256(tsize); 1 <= k <= 8 && LeastClass(size, k)
  {
    TableIsBitLength(tsize);
  }

  lemma LargeIndex(size: nat, tsize: nat, t: nat)
    requires size > 8 && 8 * tsize < size <= 8 * tsize + 8 && 256 * t <= tsize < 256 * t + 256 && 0 < t < 4
    ensures var k := LogTable256(t) + 8; 9 <= k <= 10 && LeastClass(size, k)
  {
    TableIsBitLength(t);
    var n := LogTable256(t);
    EightUp(n);
    EightUp(n - 1);
    assert n - 1 + 8 == n + 7;
  }

  /** The class of a request is the smallest that holds it. */
  lemma FreeIndexLeast(size: nat)
    requires size <= 8192
    ensures FreeIndex(size) < NUM_FREELISTS && LeastClass(size, FreeIndex(size))
  {
    if size > 8 {
      var tsize := (size - 1) / 8;
      if tsize / 256 != 0 {
        LargeIndex(size, tsize, tsize / 256);
      } else {
        SmallIndex(size, tsize);
      }
    }
  }

  lemma {:induction false} OneLeastClass(size: nat, j: nat, k: nat)
    requires LeastClass(size, j) && LeastClass(size, k)
    ensures j == k
  {
    if j < k {
      LowerHolds(j, k - 1);
    } else if k < j {
      LowerHolds(k, j - 1);
    }
  }

  lemma LowerHolds(j: nat, k: nat)
    requires j <= k
    ensures ClassSize(j) <= ClassSize(k)
  {
    if j < k {
      ClassSizeGrows(j, k);
    }
  }

  /** A class size belongs to its own list. */
  lemma FreeIndexOfClass(k: nat)
    requires k < NUM_FREELISTS
    ensures FreeIndex(ClassSize(k)) == k
  {
    ClassBound(k);
    FreeIndexLeast(ClassSize(k));
    if k > 0 {
      ClassSizeGrows(k - 1, k);
    }
    OneLeastClass(ClassSize(k), FreeIndex(ClassSize(k)), k);
  }

  lemma ClassBound(k: nat)
    requires k < NUM_FREELISTS
    ensures 8 <= ClassSize(k) <= 8192
  {
    ClassSizes();
    LowerHolds(k, 10);
    LowerHolds(0, k);
  }

  // ---- Blocks tiled by chunks ----

  datatype Block = Block(base: nat, freeptr: nat, endptr: nat)

  /** Sizes read from the chunk headers, by header address. */
  type Sizes = map<nat, nat>

  predicate Tiled(size: Sizes, pos: nat, end: nat)
    decreases end - pos
  {
    pos == end || (pos in size && pos + CHUNK_HEADER + size[pos] <= end
        && Tiled(size, pos + CHUNK_HEADER + size[pos], end))
  }

  /** The chunk walker. */
  function Walk(size: Sizes, pos: nat, end: nat): seq<nat>
    requires Tiled(size, pos, end)
    decreases end - pos
  {
    if pos == end then [] else [pos] + Walk(size, pos + CHUNK_HEADER + size[pos], end)
  }

  predicate BlockTiled(size: Sizes, b: Block) {
    Tiled(size, b.base + BLOCK_HEADER, b.freeptr)
  }

  predicate AllTiled(size: Sizes, blocks: seq<Block>) {
    forall i :: 0 <= i < |blocks| ==> BlockTiled(size, blocks[i])
  }

  function Chunks(size: Sizes, blocks: seq<Block>): seq<nat>
    requires AllTiled(size, blocks)
  {
    if |blocks| == 0 then [] else
      (assert BlockTiled(size, blocks[0]);
       Walk(size, blocks[0].base + BLOCK_HEADER, blocks[0].freeptr) + Chunks(size, blocks[1..]))
  }

  predicate Agree(size: Sizes, size': Sizes, lo: nat, hi: nat) {
    forall a: nat :: lo <= a < hi ==> (a in size <==> a in size') && (a in size ==> size[a] == size'[a])
  }

  /** Headers elsewhere do not matter. */
  lemma {:induction false} WalkFrame(size: Sizes, size': Sizes, pos: nat, end: nat)
    requires Tiled(size, pos, end) && Agree(size, size', pos, end)
    ensures Tiled(size', pos, end) && Walk(size', pos, end) == Walk(size, pos, end)
    decreases end - pos
  {
    if pos != end {
      WalkFrame(size, size', pos + CHUNK_HEADER + size[pos], end);
    }
  }

  /** A chunk cut at the end of a tiled stretch. */
  lemma {:induction false} WalkExtend(size: Sizes, pos: nat, end: nat, n: nat)
    requires Tiled(size, pos, end) && pos <= end
    ensures var size' := size[end := n]; var end' := end + CHUNK_HEADER + n;
            Tiled(size', pos, end') && Walk(size', pos, end') == Walk(size, pos, end) + [end]
    decreases end - pos
  {
    var size', end' := size[end := n], end + CHUNK_HEADER + n;
    if pos == end {
      assert Tiled(size', end', end');
      assert Walk(size', pos, end') == [pos] + Walk(size', end', end');
    } else {
      WalkExtend(size, pos + CHUNK_HEADER + size[pos], end, n);
      var next := pos + CHUNK_HEADER + size[pos];
      assert Walk(size', pos, end') == [pos] + Walk(size', next, end');
      assert [pos] + (Walk(size, next, end) + [end]) == ([pos] + Walk(size, next, end)) + [end];
    }
  }

  lemma {:induction false} WalkBounds(size: Sizes, pos: nat, end: nat, c: nat)
    requires Tiled(size, pos, end) && c in Walk(size, pos, end)
    ensures pos <= c && c in size && c + CHUNK_HEADER + size[c] <= end
    decreases end - pos
  {
    if pos != end && c != pos {
      assert c in Walk(size, pos + CHUNK_HEADER + size[pos], end);
      WalkBounds(size, pos + CHUNK_HEADER + size[pos], end, c);
    }
  }

  predicate Apart(size: Sizes, c: nat, d: nat)
    requires c in size && d in size
  {
    c + CHUNK_HEADER + size[c] <= d || d + CHUNK_HEADER + size[d] <= c
  }

  lemma {:induction false} WalkApart(size: Sizes, pos: nat, end: nat, c: nat, d: nat)
    requires Tiled(size, pos, end) && c in Walk(size, pos, end) && d in Walk(size, pos, end) && c != d
    ensures c in size && d in size && Apart(size, c, d)
    decreases end - pos
  {
    WalkBounds(size, pos, end, c);
    WalkBounds(size, pos, end, d);
    var next := pos + CHUNK_HEADER + size[pos];
    if c != pos && d != pos {
      assert c in Walk(size, next, end) && d in Walk(size, next, end);
      WalkApart(size, next, end, c, d);
    } else if c == pos {
      assert d in Walk(size, next, end);
      WalkBounds(size, next, end, d);
    } else {
      assert c in Walk(size, next, end);
      WalkBounds(size, next, end, c);
    }
  }

  /** A walk meets each chunk once. */
  lemma {:induction false} WalkOnce(size: Sizes, pos: nat, end: nat, c: nat)
    requires Tiled(size, pos, end)
    ensures multiset(Walk(size, pos, end))[c] <= 1
    decreases end - pos
  {
    if pos != end {
      var next := pos + CHUNK_HEADER + size[pos];
      WalkOnce(size, next, end, c);
      if c == pos && c in Walk(size, next, end) {
        WalkBounds(size, next, end, c);
      }
    }
  }

  // ---- Several blocks ----

  predicate BlockOk(b: Block) {
    b.base > 0 && b.base + BLOCK_HEADER <= b.freeptr <= b.endptr
  }

  predicate BlocksApart(b: Block, b': Block) {
    b.endptr <= b'.base || b'.endptr <= b.base
  }

  predicate Geometry(blocks: seq<Block>) {
    && (forall i :: 0 <= i < |blocks| ==> BlockOk(blocks[i]))
    && (forall i, j :: 0 <= i < j < |blocks| ==> BlocksApart(blocks[i], blocks[j]))
  }

  lemma {:induction false} ChunksFrame(size: Sizes, size': Sizes, blocks: seq<Block>)
    requires AllTiled(size, blocks)
    requires forall i :: 0 <= i < |blocks| ==> Agree(size, size', blocks[i].base + BLOCK_HEADER, blocks[i].freeptr)
    ensures AllTiled(size', blocks) && Chunks(size', blocks) == Chunks(size, blocks)
  {
    forall i | 0 <= i < |blocks| ensures BlockTiled(size', blocks[i]) {
      assert BlockTiled(size, blocks[i]);
      WalkFrame(size, size', blocks[i].base + BLOCK_HEADER, blocks[i].freeptr);
    }
    if |blocks| > 0 {
      assert BlockTiled(size, blocks[0]);
      WalkFrame(size, size', blocks[0].base + BLOCK_HEADER, blocks[0].freeptr);
      ChunksFrame(size, size', blocks[1..]);
    }
  }

  lemma {:induction false} ChunksSplit(size: Sizes, front: seq<Block>, back: seq<Block>)
    requires AllTiled(size, front) && AllTiled(size, back)
    ensures AllTiled(size, front + back) && Chunks(size, front + back) == Chunks(size, front) + Chunks(size, back)
  {
    if |front| == 0 {
      assert front + back == back;
    } else {
      ChunksSplit(size, front[1..], back);
      assert (front + back)[1..] == front[1..] + back;
      assert AllTiled(size, front + back);
    }
  }

  /** A chunk lies in some block. */
  lemma {:induction false} ChunkBlock(size: Sizes, blocks: seq<Block>, c: nat) returns (i: nat)
    requires AllTiled(size, blocks) && c in Chunks(size, blocks)
    ensures i < |blocks| && BlockTiled(size, blocks[i])
            && c in Walk(size, blocks[i].base + BLOCK_HEADER, blocks[i].freeptr)
  {
    assert BlockTiled(size, blocks[0]);
    if c in Walk(size, blocks[0].base + BLOCK_HEADER, blocks[0].freeptr) {
      i := 0;
    } else {
      i := ChunkBlock(size, blocks[1..], c);
      i := i + 1;
    }
  }

  /** Any two chunks of a set, headers included, are apart. */
  lemma ChunksApart(size: Sizes, blocks: seq<Block>, c: nat, d: nat)
    requires Geometry(blocks) && AllTiled(size, blocks) && c in Chunks(size, blocks) && d in Chunks(size, blocks)
             && c != d
    ensures c in size && d in size && Apart(size, c, d)
  {
    var i := ChunkBlock(size, blocks, c);
    var j := ChunkBlock(size, blocks, d);
    WalkBounds(size, blocks[i].base + BLOCK_HEADER, blocks[i].freeptr, c);
    WalkBounds(size, blocks[j].base + BLOCK_HEADER, blocks[j].freeptr, d);
    if i == j {
      WalkApart(size, blocks[i].base + BLOCK_HEADER, blocks[i].freeptr, c, d);
    } else if i < j {
      assert BlocksApart(blocks[i], blocks[j]);
    } else {
      assert BlocksApart(blocks[j], blocks[i]);
    }
  }

  lemma FirstBlockApart(size: Sizes, blocks: seq<Block>, c: nat)
    requires Geometry(blocks) && AllTiled(size, blocks) && |blocks| > 0 && BlockTiled(size, blocks[0])
    requires c in Walk(size, blocks[0].base + BLOCK_HEADER, blocks[0].freeptr) && AllTiled(size, blocks[1..])
    ensures c !in Chunks(size, blocks[1..])
  {
    if c in Chunks(size, blocks[1..]) {
      var j := ChunkBlock(size, blocks[1..], c);
      assert BlocksApart(blocks[0], blocks[j + 1]) && BlockOk(blocks[0]);
      WalkBounds(size, blocks[0].base + BLOCK_HEADER, blocks[0].freeptr, c);
      WalkBounds(size, blocks[j + 1].base + BLOCK_HEADER, blocks[j + 1].freeptr, c);
    }
  }

  lemma {:induction false} ChunksOnce(size: Sizes, blocks: seq<Block>, c: nat)
    requires Geometry(blocks) && AllTiled(size, blocks)
    ensures multiset(Chunks(size, blocks))[c] <= 1
  {
    if |blocks| > 0 {
      var b := blocks[0];
      assert BlockTiled(size, b);
      WalkOnce(size, b.base + BLOCK_HEADER, b.freeptr, c);
      ChunksOnce(size, blocks[1..], c);
      if c in Walk(size, b.base + BLOCK_HEADER, b.freeptr) {
        FirstBlockApart(size, blocks, c);
      }
    }
  }

  // ---- Space ----

  function Space(size: Sizes, s: seq<nat>): nat
    requires forall c :: c in s ==> c in size
  {
    if |s| == 0 then 0 else size[s[0]] + CHUNK_HEADER + Space(size, s[1..])
  }

  lemma {:induction false} SpaceJoin(size: Sizes, s: seq<nat>, t: seq<nat>)
    requires forall c :: c in s + t ==> c in size
    ensures (forall c :: c in s ==> c in size) && (forall c :: c in t ==> c in size)
    ensures Space(size, s + t) == Space(size, s) + Space(size, t)
  {
    assert forall c :: c in s ==> c in s + t;
    assert forall c :: c in t ==> c in s + t;
    if |s| == 0 {
      assert s + t == t;
    } else {
      assert (s + t)[1..] == s[1..] + t;
      SpaceJoin(size, s[1..], t);
    }
  }

  lemma BagAt(s: seq<nat>, i: nat)
    requires i < |s|
    ensures multiset(s[..i] + s[i + 1..]) == multiset(s) - multiset{s[i]}
  {
    assert s == s[..i] + [s[i]] + s[i + 1..];
  }

  lemma SpaceAt(size: Sizes, s: seq<nat>, i: nat)
    requires i < |s| && forall c :: c in s ==> c in size
    ensures (forall c :: c in s[..i] + s[i + 1..] ==> c in size)
    ensures Space(size, s) == Space(size, s[..i] + s[i + 1..]) + size[s[i]] + CHUNK_HEADER
  {
    assert s == s[..i] + ([s[i]] + s[i + 1..]);
    SpaceJoin(size, s[..i], [s[i]] + s[i + 1..]);
    assert ([s[i]] + s[i + 1..])[1..] == s[i + 1..];
    SpaceJoin(size, s[..i], s[i + 1..]);
  }

  /** Space does not depend on the order of the chunks. */
  lemma {:induction false} SpaceOfBag(size: Sizes, s: seq<nat>, t: seq<nat>)
    requires multiset(s) == multiset(t) && (forall c :: c in s ==> c in size) && forall c :: c in t ==> c in size
    ensures Space(size, s) == Space(size, t)
  {
    if |s| == 0 {
      assert |multiset(t)| == |t|;
    } else {
      assert s[0] in multiset(s);
      var i := IndexOf(t, s[0]);
      BagAt(s, 0);
      BagAt(t, i);
      SpaceAt(size, s, 0);
      SpaceAt(size, t, i);
      SpaceOfBag(size, s[..0] + s[1..], t[..i] + t[i + 1..]);
    }
  }

  lemma IndexOf(t: seq<nat>, x: nat) returns (i: nat)
    requires x in multiset(t)
    ensures i < |t| && t[i] == x
  {
    i :| 0 <= i < |t| && t[i] == x;
  }

  /** Bytes of the blocks that are cut into chunks. */
  function Carved(blocks: seq<Block>): int {
    if |blocks| == 0 then 0 else blocks[0].freeptr - blocks[0].base - BLOCK_HEADER + Carved(blocks[1..])
  }

  lemma {:induction false} WalkSpace(size: Sizes, pos: nat, end: nat)
    requires Tiled(size, pos, end) && pos <= end
    ensures (forall c :: c in Walk(size, pos, end) ==> c in size) && Space(size, Walk(size, pos, end)) == end - pos
    decreases end - pos
  {
    if pos != end {
      WalkSpace(size, pos + CHUNK_HEADER + size[pos], end);
      var w := Walk(size, pos + CHUNK_HEADER + size[pos], end);
      assert ([pos] + w)[1..] == w;
    }
  }

  lemma {:induction false} ChunksSpace(size: Sizes, blocks: seq<Block>)
    requires AllTiled(size, blocks) && forall i :: 0 <= i < |blocks| ==> BlockOk(blocks[i])
    ensures (forall c :: c in Chunks(size, blocks) ==> c in size) && Space(size, Chunks(size, blocks)) == Carved(blocks)
  {
    if |blocks| > 0 {
      assert BlockTiled(size, blocks[0]) && BlockOk(blocks[0]);
      WalkSpace(size, blocks[0].base + BLOCK_HEADER, blocks[0].freeptr);
      ChunksSpace(size, blocks[1..]);
      SpaceJoin(size, Walk(size, blocks[0].base + BLOCK_HEADER, blocks[0].freeptr), Chunks(size, blocks[1..]));
    }
  }

  // ---- Free lists ----

  function Flat(free: seq<seq<nat>>): seq<nat> {
    if |free| == 0 then [] else free[0] + Flat(free[1..])
  }

  lemma {:induction false} FlatUpdate(free: seq<seq<nat>>, k: nat, list: seq<nat>)
    requires k < |free|
    ensures multiset(free[k]) <= multiset(Flat(free))
    ensures multiset(Flat(free[k := list])) == multiset(Flat(free)) - multiset(free[k]) + multiset(list)
  {
    if k == 0 {
      assert free[k := list][1..] == free[1..];
    } else {
      FlatUpdate(free[1..], k - 1, list);
      assert free[k := list][1..] == free[1..][k - 1 := list];
    }
  }

  lemma {:induction false} FlatEmpty(free: seq<seq<nat>>)
    requires forall i :: 0 <= i < |free| ==> free[i] == []
    ensures Flat(free) == []
  {
    if |free| > 0 {
      FlatEmpty(free[1..]);
    }
  }
}
