/** AllocSet: palloc's allocator over malloc. */
module AllocSets {
  import opened Mvcc
  import opened Arenas
  import opened ArenaSteps
  import opened Sequences

  type Malloc = nat -> Option<nat>

  /** malloc answers with space outside every block the set holds. */
  ghost predicate Mallocs(malloc: Malloc, blocks: seq<Block>) {
    forall n: nat :: malloc(n).Some? ==> Fits(blocks, malloc(n).value, n)
  }

  /** malloc has space. */
  ghost predicate Grants(malloc: Malloc) {
    forall n: nat :: malloc(n).Some?
  }

  function MaxAlign(n: nat): nat {
    (n + 7) / 8 * 8
  }

  /** The keeper is a block of small chunks. */
  ghost predicate KeeperOk(size: Sizes, top: nat, blocks: seq<Block>, keeper: Option<nat>) {
    keeper.Some? ==> exists i: nat :: i < |blocks| && KeeperAt(size, top, blocks[i], keeper.value)
  }

  ghost predicate KeeperAt(size: Sizes, top: nat, b: Block, base: nat) {
    b.base == base && BlockTiled(size, b) && Shared(size, top, b)
  }

  lemma KeeperCutAt(a: Arena, n: nat, i: nat, base: nat)
    requires Inv(a) && i < |a.blocks| && IsClass(n, a.top) && KeeperAt(a.size, a.top, a.blocks[i], base)
    requires a.blocks[0].freeptr + CHUNK_HEADER + n <= a.blocks[0].endptr
    ensures KeeperAt(a.size[a.blocks[0].freeptr := n], a.top, Cut(a.blocks, n)[i], base)
  {
    assert Sound(Layout, a);
    assert BlockOk(a.blocks[0]) && BlockOk(a.blocks[i]);
    if i == 0 {
      WalkExtend(a.size, base + BLOCK_HEADER, a.blocks[0].freeptr, n);
      SharedGrows(a.size, a.top, a.blocks[0], n);
    } else {
      assert BlocksApart(a.blocks[0], a.blocks[i]);
      KindFrame(a.size, a.size[a.blocks[0].freeptr := n], a.top, a.blocks[i], a.blocks[0].freeptr, n);
    }
  }

  lemma KeeperCut(a: Arena, n: nat, keeper: Option<nat>)
    requires Inv(a) && |a.blocks| > 0 && IsClass(n, a.top) && KeeperOk(a.size, a.top, a.blocks, keeper)
    requires a.blocks[0].freeptr + CHUNK_HEADER + n <= a.blocks[0].endptr
    ensures KeeperOk(a.size[a.blocks[0].freeptr := n], a.top, Cut(a.blocks, n), keeper)
  {
    if keeper.Some? {
      var i: nat :| i < |a.blocks| && KeeperAt(a.size, a.top, a.blocks[i], keeper.value);
      KeeperCutAt(a, n, i, keeper.value);
    }
  }

  lemma KeeperInsert(size: Sizes, size': Sizes, top: nat, blocks: seq<Block>, p: nat, b: Block, keeper: Option<nat>)
    requires KeeperOk(size, top, blocks, keeper) && p <= |blocks|
    requires forall j :: 0 <= j < |blocks| ==> KindKept(size, size', top, blocks[j])
    ensures KeeperOk(size', top, Inserted(blocks, p, b), keeper)
  {
    if keeper.Some? {
      var i: nat :| i < |blocks| && KeeperAt(size, top, blocks[i], keeper.value);
      assert KindKept(size, size', top, blocks[i]);
      var i' := if i < p then i else i + 1;
      assert Inserted(blocks, p, b)[i'] == blocks[i];
      assert KeeperAt(size', top, Inserted(blocks, p, b)[i'], keeper.value);
    }
  }

  lemma KeeperRemove(size: Sizes, top: nat, blocks: seq<Block>, p: nat, keeper: Option<nat>)
    requires KeeperOk(size, top, blocks, keeper) && p < |blocks| && BlockOk(blocks[p])
             && Dedicated(size, top, blocks[p])
    ensures KeeperOk(size, top, Removed(blocks, p), keeper)
  {
    if keeper.Some? {
      var i: nat :| i < |blocks| && KeeperAt(size, top, blocks[i], keeper.value);
      if i == p {
        DedicatedWalk(size, top, blocks[p]);
        var k: nat :| k <= top && size[blocks[p].base + BLOCK_HEADER] == ClassSize(k);
        LowerHolds(k, top);
      }
      var i' := if i < p then i else i - 1;
      assert Removed(blocks, p)[i'] == blocks[i];
      assert KeeperAt(size, top, Removed(blocks, p)[i'], keeper.value);
    }
  }

  /** The same blocks, however much of the first is cut. */
  ghost predicate SameOutline(blocks: seq<Block>, blocks': seq<Block>) {
    |blocks| == |blocks'| && forall i :: 0 <= i < |blocks| ==> blocks[i].base == blocks'[i].base
                                                               && blocks[i].endptr == blocks'[i].endptr
  }

  lemma MallocsOutline(malloc: Malloc, blocks: seq<Block>, blocks': seq<Block>)
    requires Mallocs(malloc, blocks) && SameOutline(blocks, blocks')
    ensures Mallocs(malloc, blocks')
  {
    forall n: nat | malloc(n).Some? ensures Fits(blocks', malloc(n).value, n) {
      assert Fits(blocks, malloc(n).value, n);
    }
  }

  /** Chunks in use keep their sizes. */
  ghost predicate SameSizes(size: Sizes, size': Sizes, live: seq<nat>) {
    forall c :: c in live ==> c in size && c in size' && size'[c] == size[c]
  }

  /** What an allocation does to the chunks in use. */
  ghost predicate Allocated(r: Option<nat>, request: nat, size: Sizes, live: seq<nat>, size': Sizes, live': seq<nat>) {
    && SameSizes(size, size', live)
    && (r.None? ==> live' == live)
    && (r.Some? ==>
          && r.value >= CHUNK_HEADER && live' == live + [r.value - CHUNK_HEADER] && r.value - CHUNK_HEADER !in live
          && r.value - CHUNK_HEADER in size' && size'[r.value - CHUNK_HEADER] >= request)
  }

  lemma BigKindsAll(a: Arena, at: nat, n: nat)
    requires Inv(a) && Fits(a.blocks, at, n + BLOCK_HEADER + CHUNK_HEADER)
    ensures forall j :: 0 <= j < |a.blocks| ==> KindKept(a.size, a.size[at + BLOCK_HEADER := n], a.top, a.blocks[j])
  {
    forall j | 0 <= j < |a.blocks| ensures KindKept(a.size, a.size[at + BLOCK_HEADER := n], a.top, a.blocks[j]) {
      BigKinds(a, at, n, j);
    }
  }

  lemma IndexWithin(request: nat, k: nat, top: nat)
    requires LeastClass(request, k) && request <= ClassSize(top)
    ensures k <= top
  {
    if top < k {
      LowerHolds(top, k - 1);
    }
  }

  type Memory = nat -> bv8

  /** memcpy of `length` bytes. */
  function Moved(m: Memory, to: nat, from: nat, length: nat): Memory {
    (x: nat) => if to <= x < to + length then m(from + (x - to)) else m(x)
  }

  function ByteAt(m: Memory, p: nat, i: nat): bv8 {
    m(p + i)
  }

  ghost predicate SameData(m: Memory, m': Memory, p: nat, p': nat, length: nat) {
    forall i: nat :: i < length ==> ByteAt(m', p', i) == ByteAt(m, p, i)
  }

  ghost predicate Untouched(m: Memory, m': Memory, size: Sizes, size': Sizes, d: nat) {
    d in size && d in size' && size'[d] == size[d] && SameData(m, m', d + CHUNK_HEADER, d + CHUNK_HEADER, size[d])
  }

  ghost predicate Reallocated(c: nat, c': nat, request: nat, size: Sizes, live: seq<nat>, m: Memory, size': Sizes,
        live': seq<nat>, m': Memory)
  {
    && c in size && c' in size' && size'[c'] >= request
    && multiset(live') == multiset(live) - multiset{c} + multiset{c'}
    && SameData(m, m', c + CHUNK_HEADER, c' + CHUNK_HEADER, size[c])
    && (forall d :: d in live && d != c ==> Untouched(m, m', size, size', d))
  }

  /** New space misses every chunk in use. */
  lemma FitsMissesChunk(a: Arena, at: nat, n: nat, d: nat)
    requires Inv(a) && d in a.live && Fits(a.blocks, at, n)
    ensures d in a.size && (d + CHUNK_HEADER + a.size[d] <= at || at + n <= d)
  {
    LiveIsChunk(a, d);
    assert Sound(Layout, a);
    var i := ChunkBlock(a.size, a.blocks, d);
    assert BlockOk(a.blocks[i]);
    WalkBounds(a.size, a.blocks[i].base + BLOCK_HEADER, a.blocks[i].freeptr, d);
  }

  lemma WithoutMembers(s: seq<nat>, x: nat, d: nat)
    requires x in s && d in s && d != x
    ensures d in Without(s, x)
  {
    WithoutBag(s, x);
    assert d in multiset(s);
    assert d in multiset(Without(s, x));
  }

  ghost predicate Copied(m: Memory, m': Memory, to: nat, from: nat, length: nat) {
    && (forall x: nat {:trigger m'(x)} :: to <= x < to + length ==> m'(x) == m(from + (x - to)))
    && (forall x: nat {:trigger m'(x)} :: !(to <= x < to + length) ==> m'(x) == m(x))
  }

  lemma MovedCopies(m: Memory, to: nat, from: nat, length: nat)
    ensures Copied(m, Moved(m, to, from, length), to, from, length)
  {}

  lemma CopiedData(m: Memory, m': Memory, to: nat, from: nat, length: nat, skip: nat, n: nat)
    requires Copied(m, m', to, from, length) && skip + n <= length
    ensures SameData(m, m', from + skip, to + skip, n)
  {}

  lemma CopiedElsewhere(m: Memory, m': Memory, to: nat, from: nat, length: nat, p: nat, n: nat)
    requires Copied(m, m', to, from, length) && (p + n <= to || to + length <= p)
    ensures SameData(m, m', p, p, n)
  {}

  /** What realloc's move of a dedicated block is told. */
  ghost predicate BigMove(a: Arena, i: nat, at: nat, n: nat, m: Memory, m': Memory, c: nat) {
    && Inv(a) && i < |a.blocks| && Dedicated(a.size, a.top, a.blocks[i])
    && c == a.blocks[i].base + BLOCK_HEADER && c in a.live && a.size[c] <= n
    && Fits(Removed(a.blocks, i), at, n + BLOCK_HEADER + CHUNK_HEADER)
    && Copied(m, m', at, a.blocks[i].base, BLOCK_HEADER + CHUNK_HEADER + a.size[c])
  }

  lemma MovedUntouched(a: Arena, i: nat, at: nat, n: nat, m: Memory, m': Memory, c: nat, d: nat)
    requires BigMove(a, i, at, n, m, m', c) && d in a.live && d != c
    ensures Untouched(m, m', a.size, a.size[at + BLOCK_HEADER := n], d)
  {
    RemoveBigKeeps(a, i);
    WithoutMembers(a.live, c, d);
    FitsMissesChunk(WithoutBig(a, i), at, n + BLOCK_HEADER + CHUNK_HEADER, d);
    CopiedElsewhere(m, m', at, a.blocks[i].base, BLOCK_HEADER + CHUNK_HEADER + a.size[c], d + CHUNK_HEADER, a.size[d]);
  }

  lemma BigMoves(a: Arena, i: nat, at: nat, n: nat, m: Memory, m': Memory, c: nat, c': nat)
    requires BigMove(a, i, at, n, m, m', c) && c' == at + BLOCK_HEADER
    ensures Reallocated(c, c', n, a.size, a.live, m, a.size[c' := n], Without(a.live, c) + [c'], m')
  {
    BigBags(a.live, c, c');
    forall d | d in a.live && d != c ensures Untouched(m, m', a.size, a.size[c' := n], d) {
      MovedUntouched(a, i, at, n, m, m', c, d);
    }
    CopiedData(m, m', at, a.blocks[i].base, BLOCK_HEADER + CHUNK_HEADER + a.size[c], BLOCK_HEADER + CHUNK_HEADER,
        a.size[c]);
  }

  lemma CopyKeeps(a: Arena, c: nat, to: nat, m: Memory, m': Memory)
    requires Inv(a) && c in a.live && to in a.live && c != to && SameSizes(a.size, a.size, a.live)
             && a.size[c] <= a.size[to]
    requires Copied(m, m', to + CHUNK_HEADER, c + CHUNK_HEADER, a.size[c])
    ensures SameData(m, m', c + CHUNK_HEADER, to + CHUNK_HEADER, a.size[c])
    ensures forall d :: d in a.live && d != to ==> SameData(m, m', d + CHUNK_HEADER, d + CHUNK_HEADER, a.size[d])
  {
    CopiedData(m, m', to + CHUNK_HEADER, c + CHUNK_HEADER, a.size[c], 0, a.size[c]);
    forall d | d in a.live && d != to ensures SameData(m, m', d + CHUNK_HEADER, d + CHUNK_HEADER, a.size[d]) {
      LiveApart(a, d, to);
      CopiedElsewhere(m, m', to + CHUNK_HEADER, c + CHUNK_HEADER, a.size[c], d + CHUNK_HEADER, a.size[d]);
    }
  }

  lemma BigBags(live: seq<nat>, c: nat, c': nat)
    requires c in live
    ensures multiset(Without(live, c) + [c']) == multiset(live) - multiset{c} + multiset{c'}
  {
    WithoutBag(live, c);
  }

  lemma SmallBags(live: seq<nat>, c: nat, c': nat)
    requires c in live
    ensures multiset(Without(live + [c'], c)) == multiset(live) - multiset{c} + multiset{c'}
  {
    WithoutBag(live + [c'], c);
    assert c in multiset(live);
  }

  lemma SmallMoves(a: Arena, size: Sizes, live: seq<nat>, c: nat, c': nat, request: nat, m: Memory, m': Memory)
    requires Inv(a) && a.live == live + [c'] && c' !in live && c in live && SameSizes(size, a.size, live)
    requires c' in a.size && a.size[c'] >= request >= size[c]
    requires Copied(m, m', c' + CHUNK_HEADER, c + CHUNK_HEADER, a.size[c])
    ensures Reallocated(c, c', request, size, live, m, a.size, Without(a.live, c), m')
  {
    SmallBags(live, c, c');
    CopyKeeps(a, c, c', m, m');
    forall d | d in live && d != c ensures Untouched(m, m', size, a.size, d) {
      assert d in a.live;
    }
  }

  lemma StaysReallocated(c: nat, request: nat, size: Sizes, live: seq<nat>, m: Memory)
    requires c in live && SameSizes(size, size, live) && size[c] >= request
    ensures Reallocated(c, c, request, size, live, m, size, live, m)
  {
    assert c in multiset(live);
  }

  // ---- Reset and statistics ----

  /** The first n blocks that reset gives back to malloc. */
  function Others(blocks: seq<Block>, keeper: Option<nat>, n: nat): seq<nat>
    requires n <= |blocks|
  {
    if n == 0 then [] else
      Others(blocks, keeper, n - 1) + if keeper == Some(blocks[n - 1].base) then [] else [blocks[n - 1].base]
  }

  function NoLists(): seq<seq<nat>> {
    seq(NUM_FREELISTS, _ => [])
  }

  lemma EmptyArena(top: nat, blocks: seq<Block>, size: Sizes)
    requires top < NUM_FREELISTS && |blocks| <= 1
             && (|blocks| == 1 ==> BlockOk(blocks[0]) && blocks[0].freeptr == blocks[0].base + BLOCK_HEADER)
    ensures Inv(Arena(top, blocks, size, NoLists(), []))
    ensures |blocks| == 1 ==> KeeperAt(size, top, blocks[0], blocks[0].base)
  {
    if |blocks| == 1 {
      OneEmptyBlock(top, blocks[0], size);
      assert blocks == [blocks[0]];
    } else {
      NoBlock(top, size);
      assert blocks == [];
    }
  }

  lemma NoBlock(top: nat, size: Sizes)
    requires top < NUM_FREELISTS
    ensures Inv(Arena(top, [], size, NoLists(), []))
  {
    FlatEmpty(NoLists());
  }

  lemma OneEmptyBlock(top: nat, b: Block, size: Sizes)
    requires top < NUM_FREELISTS && BlockOk(b) && b.freeptr == b.base + BLOCK_HEADER
    ensures Inv(Arena(top, [b], size, NoLists(), [])) && KeeperAt(size, top, b, b.base)
  {
    FlatEmpty(NoLists());
    OneBlock(size, b);
  }

  lemma {:induction false} StatsNext(blocks: seq<Block>, i: nat)
    requires i < |blocks|
    ensures TotalSpace(blocks[..i + 1]) == TotalSpace(blocks[..i]) + blocks[i].endptr - blocks[i].base
    ensures Remaining(blocks[..i + 1]) == Remaining(blocks[..i]) + blocks[i].endptr - blocks[i].freeptr
  {
    if i > 0 {
      assert blocks[..i + 1][1..] == blocks[1..][..i] && blocks[..i][1..] == blocks[1..][..i - 1];
      StatsNext(blocks[1..], i - 1);
    } else {
      assert TotalSpace(blocks[..1][1..]) == 0 && Remaining(blocks[..1][1..]) == 0;
    }
  }

  lemma {:induction false} FlatNext(free: seq<seq<nat>>, k: nat)
    requires k < |free|
    ensures Flat(free[..k + 1]) == Flat(free[..k]) + free[k]
  {
    if k > 0 {
      assert free[..k + 1][1..] == free[1..][..k] && free[..k][1..] == free[1..][..k - 1];
      FlatNext(free[1..], k - 1);
    } else {
      assert Flat(free[..1][1..]) == [];
    }
  }

  lemma {:induction false} FlatJoin(front: seq<seq<nat>>, back: seq<seq<nat>>)
    ensures Flat(front + back) == Flat(front) + Flat(back)
  {
    if |front| == 0 {
      assert front + back == back;
    } else {
      assert (front + back)[1..] == front[1..] + back;
      FlatJoin(front[1..], back);
    }
  }

  lemma SpaceNext(size: Sizes, s: seq<nat>, i: nat)
    requires i < |s| && forall c :: c in s ==> c in size
    ensures Space(size, s[..i + 1]) == Space(size, s[..i]) + size[s[i]] + CHUNK_HEADER
  {
    assert s[..i + 1] == s[..i] + [s[i]];
    SpaceJoin(size, s[..i], [s[i]]);
    assert Space(size, [s[i]][1..]) == 0;
  }

  const CHUNK_FRACTION: nat := 4

  /** The largest class that leaves room for four chunks in a block of full size. */
  predicate ChunkLimit(maxBlockSize: nat, top: nat) {
    && maxBlockSize >= BLOCK_HEADER && top < NUM_FREELISTS
    && ClassSize(top) + CHUNK_HEADER <= (maxBlockSize - BLOCK_HEADER) / CHUNK_FRACTION
    && (top + 1 < NUM_FREELISTS ==> ClassSize(top + 1) + CHUNK_HEADER > (maxBlockSize - BLOCK_HEADER) / CHUNK_FRACTION)
  }

  method SetChunkLimit(maxBlockSize: nat) returns (top: nat)
    requires maxBlockSize >= 1024
    ensures ChunkLimit(maxBlockSize, top)
  {
    top := NUM_FREELISTS - 1;
    while ClassSize(top) + CHUNK_HEADER > (maxBlockSize - BLOCK_HEADER) / CHUNK_FRACTION
      invariant top < NUM_FREELISTS
      invariant top + 1 < NUM_FREELISTS ==>
                ClassSize(top + 1) + CHUNK_HEADER > (maxBlockSize - BLOCK_HEADER) / CHUNK_FRACTION
      decreases top
    {
      assert ClassSize(0) == 8;
      top := top - 1;
    }
  }

  class AllocSet {
    const top: nat
    const initBlockSize: nat
    const maxBlockSize: nat
    var blocks: seq<Block>
    var size: Sizes                // chunk headers
    var freelist: seq<seq<nat>>
    var nextBlockSize: nat
    var keeper: Option<nat>
    var memory: Memory
    ghost var live: seq<nat>       // chunks the callers hold

    /** AllocSetContextCreate: the chunk limit follows from the largest block size,
        and `at` is where a context that wants one gets its first block. */
    constructor (minContextSize: nat, initBlockSize: nat, maxBlockSize: nat, at: nat)
      requires 1024 <= initBlockSize <= maxBlockSize
               && (minContextSize == 0 || (minContextSize > BLOCK_HEADER + CHUNK_HEADER && at > 0))
      ensures Valid() && live == [] && ChunkLimit(maxBlockSize, top)
      ensures blocks == if minContextSize == 0 then [] else [Block(at, at + BLOCK_HEADER, at + minContextSize)]
      ensures keeper == if minContextSize == 0 then None else Some(at)
    {
      var limit := SetChunkLimit(maxBlockSize);
      var first := if minContextSize == 0 then [] else [Block(at, at + BLOCK_HEADER, at + minContextSize)];
      this.initBlockSize, this.maxBlockSize, this.top := initBlockSize, maxBlockSize, limit;
      blocks, size, freelist, nextBlockSize, live := first, map[], NoLists(), initBlockSize, [];
      keeper := if minContextSize == 0 then None else Some(at);
      memory := (x: nat) => 0;
      EmptyArena(limit, first, map[]);
    }

    ghost function View(): Arena
      reads this
    {
      Arena(top, blocks, size, freelist, live)
    }

    ghost predicate Valid()
      reads this
    {
      && Inv(View()) && KeeperOk(size, top, blocks, keeper) && 0 < nextBlockSize
      && 0 < initBlockSize <= maxBlockSize && |freelist| == NUM_FREELISTS && top < NUM_FREELISTS
    }

    /** A chunk cut from the active block onto a free list. */
    method CutFree(k: nat)
      requires Valid() && |blocks| > 0 && k <= top
               && blocks[0].freeptr + CHUNK_HEADER + ClassSize(k) <= blocks[0].endptr
      modifies this`blocks, this`size, this`freelist
      ensures Valid() && SameOutline(old(blocks), blocks) && SameSizes(old(size), size, live)
      ensures blocks[0].freeptr == old(blocks)[0].freeptr + CHUNK_HEADER + ClassSize(k)
      ensures freelist == old(freelist)[k := [old(blocks)[0].freeptr] + old(freelist)[k]]
    {
      var c, n := blocks[0].freeptr, ClassSize(k);
      HeadIn(freelist, k, c);
      LiveKnown();
      if Classes(size[c := n], freelist, top) {
        MoreKeepClasses(size[c := n], freelist, top, k, c);
      }
      CutKeeps(View(), n, freelist[k := [c] + freelist[k]], live);
      KeeperCut(View(), n, keeper);
      blocks, size, freelist := Cut(blocks, n), size[c := n], freelist[k := [c] + freelist[k]];
    }

    lemma LiveKnown()
      requires Inv(View())
      ensures SameSizes(size, size, live)
    {
      forall c | c in live ensures c in size {
        LiveIsChunk(View(), c);
      }
    }

    /** A chunk cut from the active block for a caller. */
    method CutLive(k: nat) returns (c: nat)
      requires Valid() && |blocks| > 0 && k <= top
               && blocks[0].freeptr + CHUNK_HEADER + ClassSize(k) <= blocks[0].endptr
      modifies this`blocks, this`size, this`live
      ensures Valid() && SameSizes(old(size), size, old(live)) && live == old(live) + [c] && c !in old(live)
      ensures c in size && size[c] == ClassSize(k)
    {
      c := blocks[0].freeptr;
      var n := ClassSize(k);
      LiveKnown();
      CutKeeps(View(), n, freelist, live + [c]);
      KeeperCut(View(), n, keeper);
      blocks, size, live := Cut(blocks, n), size[c := n], live + [c];
    }

    /** The active block is used up: its rest becomes free chunks, each of a
        smaller class than the one before. */
    method Carve(fidx: nat) returns (ghost classes: seq<nat>)
      requires Valid() && |blocks| > 0 && fidx <= top
               && blocks[0].endptr < blocks[0].freeptr + CHUNK_HEADER + ClassSize(fidx)
      modifies this`blocks, this`size, this`freelist
      ensures Valid() && SameOutline(old(blocks), blocks) && SameSizes(old(size), size, live)
      ensures blocks[0].endptr < blocks[0].freeptr + CHUNK_HEADER + 8
      ensures Falling(classes, fidx) && |classes| <= fidx < NUM_FREELISTS
    {
      classes := [];
      ghost var bound: nat := fidx;
      LiveKnown();
      while blocks[0].endptr - blocks[0].freeptr >= 8 + CHUNK_HEADER
        invariant Valid() && SameOutline(old(blocks), blocks) && SameSizes(old(size), size, live)
        invariant |blocks| > 0 && bound <= fidx
                  && blocks[0].endptr < blocks[0].freeptr + CHUNK_HEADER + ClassSize(bound)
        invariant Falling(classes, fidx) && |classes| + bound <= fidx && (classes == [] ==> bound == fidx)
                  && (classes != [] ==> bound == classes[|classes| - 1])
        decreases bound
      {
        var availchunk := blocks[0].endptr - blocks[0].freeptr - CHUNK_HEADER;
        var k := CarveClass(availchunk, bound);
        CutFree(k);
        FallingNext(classes, fidx, k);
        classes, bound := classes + [k], k;
      }
    }

    /** The free list for what is left, which is the next smaller one unless
        what is left is exactly a class size. */
    method CarveClass(availchunk: nat, ghost bound: nat) returns (k: nat)
      requires 8 <= availchunk < ClassSize(bound) && bound < NUM_FREELISTS
      ensures k < bound && ClassSize(k) <= availchunk < 2 * ClassSize(k)
    {
      ClassBound(bound);
      FreeIndexLeast(availchunk);
      k := FreeIndex(availchunk);
      if availchunk != ClassSize(k) {
        k := k - 1;
      }
      if bound <= k {
        LowerHolds(bound, k);
      }
    }

    /** A new active block, doubling sizes up to the maximum and halving again
        while malloc refuses. */
    method NewBlock(chunkSize: nat, malloc: Malloc) returns (ok: bool)
      requires Valid() && Mallocs(malloc, blocks)
      modifies this`blocks, this`nextBlockSize, this`keeper
      ensures Valid()
      ensures ok ==> |blocks| > 0 && blocks[0].freeptr + CHUNK_HEADER + chunkSize <= blocks[0].endptr
                     && blocks[1..] == old(blocks)
      ensures !ok ==> blocks == old(blocks) && keeper == old(keeper) && !Grants(malloc)
    {
      var blksize := nextBlockSize;
      nextBlockSize := nextBlockSize * 2;
      if nextBlockSize > maxBlockSize {
        nextBlockSize := maxBlockSize;
      }
      var required := chunkSize + BLOCK_HEADER + CHUNK_HEADER;
      while blksize < required
        invariant blksize > 0
        decreases required - blksize
      {
        blksize := blksize * 2;
      }
      var at := malloc(blksize);
      while at.None? && blksize > 1024 * 1024
        invariant blksize > 0 && at == malloc(blksize) && (at.Some? ==> blksize >= required)
        decreases blksize
      {
        blksize := blksize / 2;
        if blksize < required {
          return false;
        }
        at := malloc(blksize);
      }
      ok := at.Some?;
      if ok {
        AddBlock(at.value, blksize);
      }
    }

    method AddBlock(at: nat, blksize: nat)
      requires Valid() && Fits(blocks, at, blksize) && BLOCK_HEADER <= blksize
      modifies this`blocks, this`keeper
      ensures Valid() && blocks == [Block(at, at + BLOCK_HEADER, at + blksize)] + old(blocks)
    {
      var b := Block(at, at + BLOCK_HEADER, at + blksize);
      EmptyBlockKeeps(View(), 0, b);
      assert Sound(Layout, View()) && Sound(Sizing, View());
      assert forall j :: 0 <= j < |blocks| ==> BlockTiled(size, blocks[j]);
      KeeperInsert(size, size, top, blocks, 0, b, keeper);
      assert KeeperAt(size, top, b, at);
      assert Inserted(blocks, 0, b) == [b] + blocks;
      if keeper.None? && blksize == initBlockSize {
        keeper := Some(at);
      }
      blocks := [b] + blocks;
      assert keeper == Some(at) ==> KeeperAt(size, top, blocks[0], at);
    }

    /** A large request gets a block of its own, kept below the active one. */
    method AllocBig(request: nat, malloc: Malloc) returns (r: Option<nat>)
      requires Valid() && Mallocs(malloc, blocks) && request > ClassSize(top)
      modifies this`blocks, this`size, this`live
      ensures Valid() && Allocated(r, request, old(size), old(live), size, live) && (Grants(malloc) ==> r.Some?)
      ensures r.None? ==> blocks == old(blocks)
      ensures r.Some? ==>
                && r.value >= BLOCK_HEADER + CHUNK_HEADER
                && blocks == Inserted(old(blocks), if |old(blocks)| > 0 then 1
                   else 0, BigBlock(r.value - BLOCK_HEADER - CHUNK_HEADER, MaxAlign(request)))
    {
      LiveKnown();
      var n := MaxAlign(request);
      r := malloc(n + BLOCK_HEADER + CHUNK_HEADER);
      if r.None? {
        return;
      }
      PlaceBig(r.value, n, if |blocks| > 0 then 1 else 0);
      r := Some(r.value + BLOCK_HEADER + CHUNK_HEADER);
    }

    method PlaceBig(at: nat, n: nat, i: nat)
      requires Valid() && i <= |blocks| && n > ClassSize(top) && Fits(blocks, at, n + BLOCK_HEADER + CHUNK_HEADER)
      modifies this`blocks, this`size, this`live
      ensures Valid() && SameSizes(old(size), size, old(live)) && at + BLOCK_HEADER !in old(live)
      ensures live == old(live) + [at + BLOCK_HEADER] && size == old(size)[at + BLOCK_HEADER := n]
      ensures blocks == Inserted(old(blocks), i, BigBlock(at, n))
    {
      LiveKnown();
      BigKeeps(View(), i, at, n);
      BigKindsAll(View(), at, n);
      KeeperInsert(size, size[at + BLOCK_HEADER := n], top, blocks, i, BigBlock(at, n), keeper);
      blocks, size, live := Inserted(blocks, i, BigBlock(at, n)), size[at + BLOCK_HEADER := n],
          live + [at + BLOCK_HEADER];
    }

    method Pop(k: nat) returns (c: nat)
      requires Valid() && k < |freelist| && |freelist[k]| > 0
      modifies this`freelist, this`live
      ensures Valid() && live == old(live) + [c] && c !in old(live) && SameSizes(size, size, old(live))
      ensures c in size && size[c] == ClassSize(k)
      ensures c == old(freelist)[k][0] && freelist == old(freelist)[k := old(freelist)[k][1..]]
    {
      LiveKnown();
      PopKeeps(View(), k);
      c := freelist[k][0];
      freelist, live := freelist[k := freelist[k][1..]], live + [c];
    }

    /** No free chunk: cut one from the active block, or from a new one. */
    method AllocFresh(k: nat, malloc: Malloc) returns (c: Option<nat>)
      requires Valid() && Mallocs(malloc, blocks) && k <= top
      modifies this
      ensures Valid() && memory == old(memory)
      ensures c.None? ==> live == old(live) && SameSizes(old(size), size, live) && !Grants(malloc)
      ensures c.Some? ==> live == old(live) + [c.value] && c.value !in old(live)
                          && SameSizes(old(size), size, old(live))
                          && c.value in size && size[c.value] == ClassSize(k)
    {
      LiveKnown();
      if |blocks| == 0 || blocks[0].endptr < blocks[0].freeptr + CHUNK_HEADER + ClassSize(k) {
        if |blocks| > 0 {
          ghost var classes := Carve(k);
          MallocsOutline(malloc, old(blocks), blocks);
        }
        var ok := NewBlock(ClassSize(k), malloc);
        if !ok {
          return None;
        }
      }
      var chunk := CutLive(k);
      c := Some(chunk);
    }

    /** The free list of the class first. */
    method AllocClass(k: nat, malloc: Malloc) returns (c: Option<nat>)
      requires Valid() && Mallocs(malloc, blocks) && k <= top
      modifies this
      ensures Valid() && memory == old(memory)
      ensures c.None? ==> live == old(live) && SameSizes(old(size), size, live) && !Grants(malloc)
      ensures c.Some? ==> live == old(live) + [c.value] && c.value !in old(live)
                          && SameSizes(old(size), size, old(live))
                          && c.value in size && size[c.value] == ClassSize(k)
      ensures |old(freelist)[k]| > 0 ==> c == Some(old(freelist)[k][0])
                                         && Popped(k, old(freelist), old(blocks), old(size))
    {
      if |freelist[k]| > 0 {
        var chunk := Pop(k);
        c := Some(chunk);
      } else {
        c := AllocFresh(k, malloc);
      }
    }

    /** All that happened is that list k lost its first chunk. */
    ghost predicate Popped(k: nat, freelist0: seq<seq<nat>>, blocks0: seq<Block>, size0: Sizes)
      requires k < |freelist0| && |freelist0[k]| > 0
      reads this
    {
      freelist == freelist0[k := freelist0[k][1..]] && blocks == blocks0 && size == size0
    }

    method AllocSmall(request: nat, malloc: Malloc) returns (r: Option<nat>)
      requires Valid() && Mallocs(malloc, blocks) && request <= ClassSize(top)
      modifies this
      ensures Valid() && memory == old(memory) && Allocated(r, request, old(size), old(live), size, live)
      ensures Grants(malloc) ==> r.Some?
      ensures LeastClass(request, FreeIndex(request)) && FreeIndex(request) <= top
      ensures var k := FreeIndex(request);
              |old(freelist)[k]| > 0 ==> r == Some(old(freelist)[k][0] + CHUNK_HEADER)
                                         && Popped(k, old(freelist), old(blocks), old(size))
    {
      var k := FreeIndex(request);
      ClassFor(request);
      r := AllocClass(k, malloc);
      if r.Some? {
        r := Some(r.value + CHUNK_HEADER);
      }
    }

    lemma ClassFor(request: nat)
      requires request <= ClassSize(top) && top < NUM_FREELISTS
      ensures LeastClass(request, FreeIndex(request)) && FreeIndex(request) <= top
    {
      ClassBound(top);
      FreeIndexLeast(request);
      IndexWithin(request, FreeIndex(request), top);
    }

    /** AllocSetAlloc: a pointer past the header of a chunk at least as large as
        the request and apart from every other chunk in use. */
    method Alloc(request: nat, malloc: Malloc) returns (r: Option<nat>)
      requires Valid() && Mallocs(malloc, blocks)
      modifies this
      ensures Valid() && memory == old(memory) && Allocated(r, request, old(size), old(live), size, live)
      ensures Grants(malloc) ==> r.Some?
    {
      if request > ClassSize(top) {
        r := AllocBig(request, malloc);
      } else {
        r := AllocSmall(request, malloc);
      }
    }

    /** The block whose first chunk is `c`. */
    method FindBlock(c: nat) returns (i: nat)
      requires Valid() && c in live && c in size && size[c] > ClassSize(top)
      ensures i < |blocks| && blocks[i].base + BLOCK_HEADER == c && Dedicated(size, top, blocks[i])
              && BlockOk(blocks[i])
    {
      ghost var j := LargeIsAlone(View(), c);
      Geometric();
      i := 0;
      while i < |blocks| && blocks[i].base + BLOCK_HEADER != c
        invariant i <= j
      {
        i := i + 1;
      }
    }

    lemma Geometric()
      requires Inv(View())
      ensures forall i :: 0 <= i < |blocks| ==> BlockOk(blocks[i])
      ensures forall i, j :: 0 <= i < j < |blocks| ==> blocks[i].base != blocks[j].base
    {
      Parts(View());
      forall i, j | 0 <= i < j < |blocks| ensures blocks[i].base != blocks[j].base {
        assert BlocksApart(blocks[i], blocks[j]);
      }
    }

    /** AllocSetFree: a large chunk's block goes back to malloc, a small chunk to
        the free list of its class. */
    method Free(p: nat)
      requires Valid() && p >= CHUNK_HEADER && p - CHUNK_HEADER in live
      modifies this`blocks, this`freelist, this`live
      ensures Valid() && live == Without(old(live), p - CHUNK_HEADER) && SameSizes(size, size, old(live))
    {
      var c := p - CHUNK_HEADER;
      LiveKnown();
      if size[c] > ClassSize(top) {
        var i := FindBlock(c);
        DropBig(i);
      } else {
        SmallIsClass(View(), c);
        ghost var j: nat :| j <= top && size[c] == ClassSize(j);
        FreeIndexOfClass(j);
        var k := FreeIndex(size[c]);
        PushKeeps(View(), c, k);
        freelist, live := freelist[k := [c] + freelist[k]], Without(live, c);
      }
    }

    method DropBig(i: nat)
      requires Valid() && i < |blocks| && BlockOk(blocks[i]) && Dedicated(size, top, blocks[i])
               && blocks[i].base + BLOCK_HEADER in live
      modifies this`blocks, this`live
      ensures Valid() && live == Without(old(live), old(blocks)[i].base + BLOCK_HEADER)
              && blocks == Removed(old(blocks), i)
    {
      RemoveBigKeeps(View(), i);
      KeeperRemove(size, top, blocks, i, keeper);
      live, blocks := Without(live, blocks[i].base + BLOCK_HEADER), Removed(blocks, i);
    }

    /** AllocSetRealloc: what the chunk held is still there, and no other chunk in
        use is touched. */
    method Realloc(p: nat, request: nat, malloc: Malloc, realloc: Malloc) returns (r: Option<nat>)
      requires Valid() && Mallocs(malloc, blocks) && p >= CHUNK_HEADER && p - CHUNK_HEADER in live
      requires forall i :: 0 <= i < |blocks| ==> Mallocs(realloc, Removed(blocks, i))
      modifies this
      ensures Valid()
      ensures r.None? ==> live == old(live) && memory == old(memory) && SameSizes(old(size), size, live)
      ensures Grants(malloc) && Grants(realloc) ==> r.Some?
      ensures r.Some? ==> r.value >= CHUNK_HEADER && Reallocated(p - CHUNK_HEADER, r.value - CHUNK_HEADER, request,
                          old(size), old(live), old(memory), size, live, memory)
    {
      LiveKnown();
      var c := p - CHUNK_HEADER;
      if size[c] >= request {
        StaysReallocated(c, request, size, live, memory);
        r := Some(p);
      } else if size[c] > ClassSize(top) {
        r := ReallocBig(c, request, realloc);
      } else {
        r := ReallocSmall(c, request, malloc);
      }
    }

    method ReallocBig(c: nat, request: nat, realloc: Malloc) returns (r: Option<nat>)
      requires Valid() && c in live && c in size && size[c] > ClassSize(top) && size[c] < request
      requires forall i :: 0 <= i < |blocks| ==> Mallocs(realloc, Removed(blocks, i))
      modifies this
      ensures Valid()
      ensures r.None? ==> live == old(live) && memory == old(memory) && size == old(size) && !Grants(realloc)
      ensures r.Some? ==> r.value >= CHUNK_HEADER && Reallocated(c, r.value - CHUNK_HEADER, request, old(size),
                          old(live), old(memory), size, live, memory)
    {
      var i := FindBlock(c);
      var n := MaxAlign(request);
      r := realloc(n + BLOCK_HEADER + CHUNK_HEADER);
      if r.None? {
        return;
      }
      assert Mallocs(realloc, Removed(blocks, i));
      MoveBig(i, r.value, n);
      r := Some(r.value + BLOCK_HEADER + CHUNK_HEADER);
    }

    method MoveBig(i: nat, at: nat, n: nat)
      requires Valid() && i < |blocks| && BlockOk(blocks[i]) && Dedicated(size, top, blocks[i])
               && blocks[i].base + BLOCK_HEADER in live
      requires Fits(Removed(blocks, i), at, n + BLOCK_HEADER + CHUNK_HEADER) && n >= size[blocks[i].base + BLOCK_HEADER]
      modifies this
      ensures Valid()
      ensures Reallocated(old(blocks)[i].base + BLOCK_HEADER, at + BLOCK_HEADER, n, old(size), old(live), old(memory),
              size, live, memory)
    {
      ghost var a, m := View(), memory;
      var base, c := blocks[i].base, blocks[i].base + BLOCK_HEADER;
      var length := BLOCK_HEADER + CHUNK_HEADER + size[c];
      DropBig(i);
      PlaceBig(at, n, i);
      Copy(at, base, length);
      BigMoves(a, i, at, n, m, memory, c, at + BLOCK_HEADER);
    }

    method Copy(to: nat, from: nat, length: nat)
      modifies this`memory
      ensures Copied(old(memory), memory, to, from, length)
    {
      MovedCopies(memory, to, from, length);
      memory := Moved(memory, to, from, length);
    }

    method ReallocSmall(c: nat, request: nat, malloc: Malloc) returns (r: Option<nat>)
      requires Valid() && c in live && c in size && size[c] < request && Mallocs(malloc, blocks)
      modifies this
      ensures Valid()
      ensures r.None? ==> live == old(live) && memory == old(memory) && SameSizes(old(size), size, live)
                          && !Grants(malloc)
      ensures r.Some? ==> r.value >= CHUNK_HEADER && Reallocated(c, r.value - CHUNK_HEADER, request, old(size),
                          old(live), old(memory), size, live, memory)
    {
      r := Alloc(request, malloc);
      if r.None? {
        return;
      }
      Copy(r.value, c + CHUNK_HEADER, size[c]);
      SmallMoves(View(), old(size), old(live), c, r.value - CHUNK_HEADER, request, old(memory), memory);
      Free(c + CHUNK_HEADER);
    }

    /** AllocSetReset: everything goes but the keeper, which is empty again. */
    method Reset() returns (freed: seq<nat>)
      requires Valid()
      modifies this`blocks, this`freelist, this`nextBlockSize, this`live
      ensures Valid() && live == [] && nextBlockSize == initBlockSize
              && freed == Others(old(blocks), keeper, |old(blocks)|)
      ensures keeper.None? ==> blocks == []
      ensures keeper.Some? ==> |blocks| == 1 && blocks[0].base == keeper.value
                               && blocks[0].freeptr == keeper.value + BLOCK_HEADER
    {
      Geometric();
      KeeperListed();
      var all := blocks;
      var kept: seq<Block>;
      kept, freed := [], [];
      var i := 0;
      while i < |all|
        invariant i <= |all| && freed == Others(all, keeper, i)
        invariant |kept| <= 1 && (|kept| == 1 ==> keeper == Some(kept[0].base) && BlockOk(kept[0])
                                                  && kept[0].freeptr == kept[0].base + BLOCK_HEADER)
        invariant |kept| == 1 <==> exists j :: 0 <= j < i && keeper == Some(all[j].base)
      {
        if keeper == Some(all[i].base) {
          kept := [all[i].(freeptr := all[i].base + BLOCK_HEADER)];
        } else {
          freed := freed + [all[i].base];
        }
        i := i + 1;
      }
      blocks, freelist, nextBlockSize, live := kept, NoLists(), initBlockSize, [];
      EmptyArena(top, blocks, size);
    }

    lemma KeeperListed()
      requires KeeperOk(size, top, blocks, keeper)
      ensures keeper.Some? ==> exists j :: 0 <= j < |blocks| && blocks[j].base == keeper.value
    {}

    /** AllocSetStats: what is not free is the block headers and the chunks in use. */
    method Stats() returns (nblocks: nat, freechunks: nat, totalspace: int, freespace: int)
      requires Valid()
      ensures nblocks == |blocks| && freechunks == |Flat(freelist)|
      ensures totalspace == TotalSpace(blocks)
      ensures SameSizes(size, size, live) && totalspace - freespace == nblocks * BLOCK_HEADER + Space(size, live)
    {
      nblocks, freechunks, totalspace, freespace := 0, 0, 0, 0;
      while nblocks < |blocks|
        invariant nblocks <= |blocks| && totalspace == TotalSpace(blocks[..nblocks])
                  && freespace == Remaining(blocks[..nblocks])
      {
        StatsNext(blocks, nblocks);
        totalspace := totalspace + (blocks[nblocks].endptr - blocks[nblocks].base);
        freespace := freespace + (blocks[nblocks].endptr - blocks[nblocks].freeptr);
        nblocks := nblocks + 1;
      }
      assert blocks[..nblocks] == blocks;
      Conservation(View());
      LiveKnown();
      var chunkspace;
      freechunks, chunkspace := FreeStats();
      freespace := freespace + chunkspace;
    }

    method FreeStats() returns (freechunks: nat, space: nat)
      requires |freelist| == NUM_FREELISTS && forall c :: c in Flat(freelist) ==> c in size
      ensures freechunks == |Flat(freelist)| && space == Space(size, Flat(freelist))
    {
      freechunks, space := 0, 0;
      var k := 0;
      while k < NUM_FREELISTS
        invariant k <= NUM_FREELISTS && FlatWithin(k)
        invariant freechunks == |Flat(freelist[..k])| && space == Space(size, Flat(freelist[..k]))
      {
        FlatNext(freelist, k);
        FlatTail(k + 1);
        SpaceJoin(size, Flat(freelist[..k]), freelist[k]);
        var n := ListSpace(freelist[k]);
        freechunks, space := freechunks + |freelist[k]|, space + n;
        k := k + 1;
      }
      assert freelist[..k] == freelist;
    }

    ghost predicate FlatWithin(k: nat)
      reads this
    {
      k <= |freelist| && forall c :: c in Flat(freelist[..k]) ==> c in size
    }

    lemma FlatTail(k: nat)
      requires k <= |freelist| && forall c :: c in Flat(freelist) ==> c in size
      ensures FlatWithin(k)
    {
      assert freelist == freelist[..k] + freelist[k..];
      FlatJoin(freelist[..k], freelist[k..]);
    }

    /** One free list, link by link. */
    method ListSpace(list: seq<nat>) returns (space: nat)
      requires forall c :: c in list ==> c in size
      ensures space == Space(size, list)
    {
      space := 0;
      var i := 0;
      while i < |list|
        invariant i <= |list| && space == Space(size, list[..i])
      {
        SpaceNext(size, list, i);
        space := space + size[list[i]] + CHUNK_HEADER;
        i := i + 1;
      }
      assert list[..i] == list;
    }
  }

  /** Strictly decreasing and below `bound`. */
  predicate Falling(classes: seq<nat>, bound: nat) {
    && (forall i :: 0 <= i < |classes| ==> classes[i] < bound)
    && (forall i, j :: 0 <= i < j < |classes| ==> classes[j] < classes[i])
  }

  lemma FallingNext(classes: seq<nat>, bound: nat, k: nat)
    requires Falling(classes, bound) && k < if classes == [] then bound else classes[|classes| - 1]
    ensures Falling(classes + [k], bound)
  {}
}
