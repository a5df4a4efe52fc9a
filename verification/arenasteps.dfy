/** What an AllocSet keeps, and how each change to it keeps that. */
module ArenaSteps {
  import opened Arenas
  import opened Sequences

  /** `top` is the class of the largest chunk that is not given a block of its own. */
  datatype Arena = Arena(top: nat, blocks: seq<Block>, size: Sizes, free: seq<seq<nat>>, live: seq<nat>)

  function Limit(a: Arena): nat {
    ClassSize(a.top)
  }

  predicate IsClass(n: nat, top: nat) {
    exists k: nat :: k <= top && n == ClassSize(k)
  }

  /** A block made for one chunk beyond the limit. */
  predicate Dedicated(size: Sizes, top: nat, b: Block) {
    var c := b.base + BLOCK_HEADER;
    c in size && size[c] > ClassSize(top) && b.freeptr == b.endptr == c + CHUNK_HEADER + size[c]
  }

  predicate Shared(size: Sizes, top: nat, b: Block)
    requires BlockTiled(size, b)
  {
    forall c :: c in Walk(size, b.base + BLOCK_HEADER, b.freeptr) ==> c in size && IsClass(size[c], top)
  }

  ghost predicate Kinds(size: Sizes, top: nat, blocks: seq<Block>)
    requires AllTiled(size, blocks)
  {
    forall i :: 0 <= i < |blocks| ==> BlockTiled(size, blocks[i])
                                      && (Dedicated(size, top, blocks[i]) || Shared(size, top, blocks[i]))
  }

  /** Free list k holds chunks of size 8 << k. */
  ghost predicate ListOk(size: Sizes, list: seq<nat>, k: nat, top: nat) {
    forall c :: c in list ==> c in size && size[c] == ClassSize(k) && k <= top
  }

  ghost predicate Classes(size: Sizes, free: seq<seq<nat>>, top: nat) {
    && |free| == NUM_FREELISTS && top < NUM_FREELISTS
    && forall k :: 0 <= k < |free| ==> ListOk(size, free[k], k, top)
  }

  /** Every chunk is either in use or on one free list, and only once. */
  ghost predicate Split(size: Sizes, blocks: seq<Block>, free: seq<seq<nat>>, live: seq<nat>)
    requires AllTiled(size, blocks)
  {
    multiset(Chunks(size, blocks)) == multiset(live) + multiset(Flat(free))
  }

  datatype Aspect = Layout | Sizing | Lists | Ownership

  ghost predicate Sound(p: Aspect, a: Arena) {
    match p
    case Layout => Geometry(a.blocks) && AllTiled(a.size, a.blocks)
    case Sizing => AllTiled(a.size, a.blocks) && Kinds(a.size, a.top, a.blocks)
    case Lists => Classes(a.size, a.free, a.top)
    case Ownership => AllTiled(a.size, a.blocks) && Split(a.size, a.blocks, a.free, a.live)
  }

  ghost predicate Inv(a: Arena) {
    forall p: Aspect :: Sound(p, a)
  }

  lemma Parts(a: Arena)
    requires Inv(a)
    ensures Geometry(a.blocks) && AllTiled(a.size, a.blocks) && Kinds(a.size, a.top, a.blocks)
    ensures Classes(a.size, a.free, a.top) && Split(a.size, a.blocks, a.free, a.live)
  {
    assert Sound(Layout, a) && Sound(Sizing, a) && Sound(Lists, a) && Sound(Ownership, a);
  }

  // ---- What follows from it ----

  lemma LiveIsChunk(a: Arena, c: nat)
    requires Inv(a) && c in a.live
    ensures AllTiled(a.size, a.blocks) && c in Chunks(a.size, a.blocks) && c in a.size
  {
    Parts(a);
    assert c in multiset(a.live);
    assert c in multiset(Chunks(a.size, a.blocks));
    ChunksSpaceKnown(a.size, a.blocks);
  }

  lemma ChunksSpaceKnown(size: Sizes, blocks: seq<Block>)
    requires Geometry(blocks) && AllTiled(size, blocks)
    ensures forall c :: c in Chunks(size, blocks) ==> c in size
  {
    ChunksSpace(size, blocks);
  }

  /** Two chunks in use share no byte, header or data. */
  lemma LiveApart(a: Arena, c: nat, d: nat)
    requires Inv(a) && c in a.live && d in a.live && c != d
    ensures c in a.size && d in a.size && Apart(a.size, c, d)
  {
    Parts(a);
    LiveIsChunk(a, c);
    LiveIsChunk(a, d);
    ChunksApart(a.size, a.blocks, c, d);
  }

  /** A chunk in use is on no free list, and counted once. */
  lemma LiveNotFree(a: Arena, c: nat)
    requires Inv(a) && c in a.live
    ensures c !in Flat(a.free) && multiset(a.live)[c] == 1
  {
    Parts(a);
    ChunksOnce(a.size, a.blocks, c);
    assert c in multiset(a.live);
    assert (multiset(a.live) + multiset(Flat(a.free)))[c] <= 1;
    assert c !in multiset(Flat(a.free));
  }

  lemma FreeNotLive(a: Arena, c: nat)
    requires Inv(a) && c in Flat(a.free)
    ensures c !in a.live
  {
    if c in a.live {
      LiveNotFree(a, c);
    }
  }

  function TotalSpace(blocks: seq<Block>): int {
    if |blocks| == 0 then 0 else blocks[0].endptr - blocks[0].base + TotalSpace(blocks[1..])
  }

  function Remaining(blocks: seq<Block>): int {
    if |blocks| == 0 then 0 else blocks[0].endptr - blocks[0].freeptr + Remaining(blocks[1..])
  }

  lemma {:induction false} TotalParts(blocks: seq<Block>)
    ensures TotalSpace(blocks) == Carved(blocks) + Remaining(blocks) + |blocks| * BLOCK_HEADER
  {
    if |blocks| > 0 {
      TotalParts(blocks[1..]);
    }
  }

  /** Every byte of the blocks is a block header, part of a chunk in use, part of
      a free chunk or still uncut. */
  lemma Conservation(a: Arena)
    requires Inv(a)
    ensures (forall c :: c in a.live ==> c in a.size) && (forall c :: c in Flat(a.free) ==> c in a.size)
    ensures TotalSpace(a.blocks) ==
            |a.blocks| * BLOCK_HEADER + Space(a.size, a.live) + (Remaining(a.blocks) + Space(a.size, Flat(a.free)))
  {
    Parts(a);
    ChunksSpace(a.size, a.blocks);
    TotalParts(a.blocks);
    var all := a.live + Flat(a.free);
    forall c | c in all ensures c in a.size {
      assert c in multiset(all);
      assert c in multiset(Chunks(a.size, a.blocks));
    }
    SpaceOfBag(a.size, Chunks(a.size, a.blocks), all);
    SpaceJoin(a.size, a.live, Flat(a.free));
  }

  // ---- Moving a chunk between the lists ----

  lemma ListsMove(a: Arena, free': seq<seq<nat>>, live': seq<nat>)
    requires Inv(a) && Classes(a.size, free', a.top)
    requires multiset(live') + multiset(Flat(free')) == multiset(a.live) + multiset(Flat(a.free))
    ensures Inv(a.(free := free', live := live'))
  {
    Parts(a);
  }

  function Popped(a: Arena, k: nat): Arena
    requires k < |a.free| && |a.free[k]| > 0
  {
    a.(free := a.free[k := a.free[k][1..]], live := a.live + [a.free[k][0]])
  }

  lemma HeadOut(free: seq<seq<nat>>, k: nat)
    requires k < |free| && |free[k]| > 0
    ensures free[k][0] in multiset(Flat(free))
    ensures multiset(Flat(free[k := free[k][1..]])) == multiset(Flat(free)) - multiset{free[k][0]}
  {
    var c, rest := free[k][0], free[k][1..];
    assert free[k] == [c] + rest;
    FlatUpdate(free, k, rest);
    assert multiset(free[k]) == multiset{c} + multiset(rest);
    assert c in multiset(free[k]);
  }

  lemma FewerKeepClasses(size: Sizes, free: seq<seq<nat>>, top: nat, k: nat, rest: seq<nat>)
    requires Classes(size, free, top) && k < |free| && forall c :: c in rest ==> c in free[k]
    ensures Classes(size, free[k := rest], top)
  {
    assert ListOk(size, free[k], k, top) && ListOk(size, rest, k, top);
  }

  lemma MoreKeepClasses(size: Sizes, free: seq<seq<nat>>, top: nat, k: nat, c: nat)
    requires Classes(size, free, top) && k < |free| && k <= top && c in size && size[c] == ClassSize(k)
    ensures Classes(size, free[k := [c] + free[k]], top)
  {
    assert ListOk(size, free[k], k, top) && ListOk(size, [c] + free[k], k, top);
  }

  lemma HeadIn(free: seq<seq<nat>>, k: nat, c: nat)
    requires k < |free|
    ensures multiset(Flat(free[k := [c] + free[k]])) == multiset(Flat(free)) + multiset{c}
  {
    FlatUpdate(free, k, [c] + free[k]);
    assert multiset([c] + free[k]) == multiset{c} + multiset(free[k]);
  }

  lemma PopKeeps(a: Arena, k: nat)
    requires Inv(a) && k < |a.free| && |a.free[k]| > 0
    ensures Inv(Popped(a, k)) && a.free[k][0] !in a.live && a.free[k][0] in a.size
            && a.size[a.free[k][0]] == ClassSize(k)
  {
    var c, rest := a.free[k][0], a.free[k][1..];
    HeadOut(a.free, k);
    FreeNotLive(a, c);
    assert Sound(Lists, a) && ListOk(a.size, a.free[k], k, a.top) && c in a.free[k];
    FewerKeepClasses(a.size, a.free, a.top, k, rest);
    ListsMove(a, a.free[k := rest], a.live + [c]);
  }

  lemma {:induction false} WithoutBag(s: seq<nat>, x: nat)
    requires x in s
    ensures multiset(Without(s, x)) == multiset(s) - multiset{x}
  {
    assert s == [s[0]] + s[1..];
    if s[0] != x {
      WithoutBag(s[1..], x);
    }
  }

  function Pushed(a: Arena, c: nat, k: nat): Arena
    requires k < |a.free|
  {
    a.(free := a.free[k := [c] + a.free[k]], live := Without(a.live, c))
  }

  lemma PushKeeps(a: Arena, c: nat, k: nat)
    requires Inv(a) && c in a.live && k < |a.free| && c in a.size && a.size[c] == ClassSize(k) && k <= a.top
    ensures Inv(Pushed(a, c, k))
  {
    assert Sound(Lists, a);
    HeadIn(a.free, k, c);
    WithoutBag(a.live, c);
    assert c in multiset(a.live);
    MoreKeepClasses(a.size, a.free, a.top, k, c);
    ListsMove(a, a.free[k := [c] + a.free[k]], Without(a.live, c));
  }

  // ---- Cutting a chunk from the active block ----

  function Cut(blocks: seq<Block>, n: nat): seq<Block>
    requires |blocks| > 0
  {
    blocks[0 := blocks[0].(freeptr := blocks[0].freeptr + CHUNK_HEADER + n)]
  }

  /** Writing a header inside one block leaves the other blocks' headers alone. */
  lemma HeaderElsewhere(size: Sizes, b: Block, b': Block, c: nat, n: nat)
    requires BlockOk(b) && BlockOk(b') && BlocksApart(b, b') && b.base <= c < b.endptr
    ensures Agree(size, size[c := n], b'.base + BLOCK_HEADER, b'.freeptr)
  {}

  lemma CutLayout(size: Sizes, blocks: seq<Block>, n: nat)
    requires Geometry(blocks) && AllTiled(size, blocks) && |blocks| > 0
    requires blocks[0].freeptr + CHUNK_HEADER + n <= blocks[0].endptr
    ensures var c := blocks[0].freeptr; var size' := size[c := n]; var blocks' := Cut(blocks, n);
            && Geometry(blocks') && AllTiled(size', blocks') && c !in Chunks(size, blocks)
            && multiset(Chunks(size', blocks')) == multiset(Chunks(size, blocks)) + multiset{c}
  {
    var b, c, size', blocks' := blocks[0], blocks[0].freeptr, size[blocks[0].freeptr := n], Cut(blocks, n);
    assert BlockOk(b) && BlockTiled(size, b);
    WalkExtend(size, b.base + BLOCK_HEADER, b.freeptr, n);
    assert BlockTiled(size', blocks'[0]);
    RestAgrees(size, blocks, c, n);
    assert AllTiled(size, blocks[1..]);
    ChunksFrame(size, size', blocks[1..]);
    assert blocks'[1..] == blocks[1..];
    FirstAndRest(size', blocks');
    CutGeometry(blocks, n);
    CutFresh(size, blocks);
  }

  lemma FirstAndRest(size: Sizes, blocks: seq<Block>)
    requires |blocks| > 0 && BlockTiled(size, blocks[0]) && AllTiled(size, blocks[1..])
    ensures AllTiled(size, blocks)
  {
    assert forall i :: 0 < i < |blocks| ==> blocks[i] == blocks[1..][i - 1];
  }

  lemma RestAgrees(size: Sizes, blocks: seq<Block>, c: nat, n: nat)
    requires Geometry(blocks) && |blocks| > 0 && blocks[0].base <= c < blocks[0].endptr
    ensures forall i :: 0 <= i < |blocks[1..]| ==>
            Agree(size, size[c := n], blocks[1..][i].base + BLOCK_HEADER, blocks[1..][i].freeptr)
  {
    forall i | 0 <= i < |blocks[1..]|
      ensures Agree(size, size[c := n], blocks[1..][i].base + BLOCK_HEADER, blocks[1..][i].freeptr)
    {
      assert BlocksApart(blocks[0], blocks[i + 1]);
      HeaderElsewhere(size, blocks[0], blocks[i + 1], c, n);
    }
  }

  lemma CutGeometry(blocks: seq<Block>, n: nat)
    requires Geometry(blocks) && |blocks| > 0 && blocks[0].freeptr + CHUNK_HEADER + n <= blocks[0].endptr
    ensures Geometry(Cut(blocks, n))
  {
    var blocks' := Cut(blocks, n);
    assert BlockOk(blocks[0]);
    assert forall j :: 0 < j < |blocks'| ==> blocks'[j] == blocks[j];
    forall i, j | 0 <= i < j < |blocks'| ensures BlocksApart(blocks'[i], blocks'[j]) {
      assert BlocksApart(blocks[i], blocks[j]);
    }
  }

  /** The end of the active block is no chunk yet. */
  lemma CutFresh(size: Sizes, blocks: seq<Block>)
    requires Geometry(blocks) && AllTiled(size, blocks) && |blocks| > 0 && blocks[0].freeptr < blocks[0].endptr
    ensures blocks[0].freeptr !in Chunks(size, blocks)
  {
    var c := blocks[0].freeptr;
    if c in Chunks(size, blocks) {
      assert BlockOk(blocks[0]);
      var i := ChunkBlock(size, blocks, c);
      assert i > 0 ==> BlocksApart(blocks[0], blocks[i]);
      WalkBounds(size, blocks[i].base + BLOCK_HEADER, blocks[i].freeptr, c);
    }
  }

  lemma CutKinds(size: Sizes, top: nat, blocks: seq<Block>, n: nat)
    requires Geometry(blocks) && AllTiled(size, blocks) && Kinds(size, top, blocks) && |blocks| > 0 && IsClass(n, top)
    requires blocks[0].freeptr + CHUNK_HEADER + n <= blocks[0].endptr
    requires AllTiled(size[blocks[0].freeptr := n], Cut(blocks, n))
    ensures Kinds(size[blocks[0].freeptr := n], top, Cut(blocks, n))
  {
    var b, c, size', blocks' := blocks[0], blocks[0].freeptr, size[blocks[0].freeptr := n], Cut(blocks, n);
    forall i | 0 <= i < |blocks'|
      ensures BlockTiled(size', blocks'[i]) && (Dedicated(size', top, blocks'[i]) || Shared(size', top, blocks'[i]))
    {
      assert BlockTiled(size', blocks'[i]) && BlockTiled(size, blocks[i]);
      assert BlockOk(blocks[0]) && BlockOk(blocks[i]);
      if i == 0 {
        assert Shared(size, top, b);
        WalkExtend(size, b.base + BLOCK_HEADER, b.freeptr, n);
        SharedGrows(size, top, b, n);
      } else {
        assert BlocksApart(blocks[0], blocks[i]);
        KindFrame(size, size', top, blocks[i], c, n);
      }
    }
  }

  lemma SharedGrows(size: Sizes, top: nat, b: Block, n: nat)
    requires BlockOk(b) && BlockTiled(size, b) && Shared(size, top, b) && IsClass(n, top)
    requires BlockTiled(size[b.freeptr := n], b.(freeptr := b.freeptr + CHUNK_HEADER + n))
    ensures Shared(size[b.freeptr := n], top, b.(freeptr := b.freeptr + CHUNK_HEADER + n))
  {
    WalkExtend(size, b.base + BLOCK_HEADER, b.freeptr, n);
  }

  lemma KindFrame(size: Sizes, size': Sizes, top: nat, b: Block, c: nat, n: nat)
    requires BlockOk(b) && BlockTiled(size, b) && size' == size[c := n] && !(b.base <= c < b.endptr)
    ensures BlockTiled(size', b)
    ensures Dedicated(size, top, b) ==> Dedicated(size', top, b)
    ensures Shared(size, top, b) ==> Shared(size', top, b)
  {
    WalkFrame(size, size', b.base + BLOCK_HEADER, b.freeptr);
    if Shared(size, top, b) {
      forall d | d in Walk(size', b.base + BLOCK_HEADER, b.freeptr) ensures d in size' && IsClass(size'[d], top) {
        WalkBounds(size, b.base + BLOCK_HEADER, b.freeptr, d);
      }
    }
  }

  lemma FreeIsChunk(a: Arena, k: nat, c: nat)
    requires Inv(a) && AllTiled(a.size, a.blocks) && k < |a.free| && c in a.free[k]
    ensures c in Chunks(a.size, a.blocks)
  {
    assert Sound(Ownership, a);
    FlatUpdate(a.free, k, []);
    assert c in multiset(a.free[k]);
    assert c in multiset(Chunks(a.size, a.blocks));
  }

  /** Free chunks are chunks, so a new header is not one of theirs. */
  lemma CutClasses(a: Arena, c: nat, n: nat)
    requires Inv(a) && AllTiled(a.size, a.blocks) && c !in Chunks(a.size, a.blocks)
    ensures Classes(a.size[c := n], a.free, a.top)
  {
    assert Sound(Lists, a);
    forall k | 0 <= k < |a.free| ensures ListOk(a.size[c := n], a.free[k], k, a.top) {
      assert ListOk(a.size, a.free[k], k, a.top);
      if c in a.free[k] {
        FreeIsChunk(a, k, c);
      }
    }
  }

  /** Whoever gets the new chunk, the set stays sound. */
  lemma CutKeeps(a: Arena, n: nat, free': seq<seq<nat>>, live': seq<nat>)
    requires Inv(a) && |a.blocks| > 0 && IsClass(n, a.top)
    requires a.blocks[0].freeptr + CHUNK_HEADER + n <= a.blocks[0].endptr
    requires Classes(a.size[a.blocks[0].freeptr := n], a.free, a.top) ==>
             Classes(a.size[a.blocks[0].freeptr := n], free', a.top)
    requires multiset(live') + multiset(Flat(free')) == multiset(a.live) + multiset(Flat(a.free))
             + multiset{a.blocks[0].freeptr}
    ensures Inv(Arena(a.top, Cut(a.blocks, n), a.size[a.blocks[0].freeptr := n], free', live'))
    ensures a.blocks[0].freeptr !in a.live
  {
    Parts(a);
    CutLayout(a.size, a.blocks, n);
    CutKinds(a.size, a.top, a.blocks, n);
    CutClasses(a, a.blocks[0].freeptr, n);
    if a.blocks[0].freeptr in a.live {
      LiveIsChunk(a, a.blocks[0].freeptr);
    }
  }

  // ---- Blocks obtained and given back ----

  /** What malloc promises of n bytes at `at`. */
  predicate Fits(blocks: seq<Block>, at: nat, n: nat) {
    at > 0 && forall i :: 0 <= i < |blocks| ==> blocks[i].endptr <= at || at + n <= blocks[i].base
  }

  function Inserted(blocks: seq<Block>, i: nat, b: Block): seq<Block>
    requires i <= |blocks|
  {
    blocks[..i] + [b] + blocks[i..]
  }

  lemma InsertGeometry(blocks: seq<Block>, i: nat, b: Block)
    requires Geometry(blocks) && i <= |blocks| && BlockOk(b) && Fits(blocks, b.base, b.endptr - b.base)
    ensures Geometry(Inserted(blocks, i, b))
  {
    var blocks' := Inserted(blocks, i, b);
    forall p | 0 <= p < |blocks'| ensures BlockOk(blocks'[p]) {
      assert p < i ==> blocks'[p] == blocks[p];
      assert p > i ==> blocks'[p] == blocks[p - 1];
    }
    forall p, q | 0 <= p < q < |blocks'| ensures BlocksApart(blocks'[p], blocks'[q]) {
      var p', q' := if p < i then p else p - 1, if q < i then q else q - 1;
      assert p != i ==> blocks'[p] == blocks[p'];
      assert q != i ==> blocks'[q] == blocks[q'];
      if p != i && q != i {
        assert BlocksApart(blocks[p'], blocks[q']);
      }
    }
  }

  lemma InsertLayout(size: Sizes, size': Sizes, blocks: seq<Block>, i: nat, b: Block)
    requires Geometry(blocks) && AllTiled(size, blocks) && i <= |blocks| && BlockOk(b)
             && Fits(blocks, b.base, b.endptr - b.base)
    requires BlockTiled(size', b) && forall j :: 0 <= j < |blocks| ==>
             Agree(size, size', blocks[j].base + BLOCK_HEADER, blocks[j].freeptr)
    ensures var blocks' := Inserted(blocks, i, b);
            && Geometry(blocks') && AllTiled(size', blocks')
            && multiset(Chunks(size', blocks')) == multiset(Chunks(size, blocks))
               + multiset(Walk(size', b.base + BLOCK_HEADER, b.freeptr))
  {
    InsertGeometry(blocks, i, b);
    ChunksFrame(size, size', blocks);
    BlockAmong(size', blocks[..i], b, blocks[i..]);
    assert blocks == blocks[..i] + blocks[i..];
    ChunksSplit(size', blocks[..i], blocks[i..]);
  }

  lemma OneBlock(size: Sizes, b: Block)
    requires BlockTiled(size, b)
    ensures AllTiled(size, [b]) && Chunks(size, [b]) == Walk(size, b.base + BLOCK_HEADER, b.freeptr)
  {
    assert Chunks(size, [b][1..]) == [];
  }

  lemma BlockAmong(size: Sizes, front: seq<Block>, b: Block, back: seq<Block>)
    requires AllTiled(size, front) && AllTiled(size, back) && BlockTiled(size, b)
    ensures AllTiled(size, front + [b] + back)
    ensures multiset(Chunks(size, front + [b] + back)) ==
            multiset(Chunks(size, front)) + multiset(Chunks(size, back))
                + multiset(Walk(size, b.base + BLOCK_HEADER, b.freeptr))
  {
    OneBlock(size, b);
    ChunksSplit(size, front, [b]);
    ChunksSplit(size, front + [b], back);
  }

  lemma InsertKinds(size: Sizes, size': Sizes, top: nat, blocks: seq<Block>, i: nat, b: Block)
    requires AllTiled(size, blocks) && Kinds(size, top, blocks) && i <= |blocks|
    requires BlockTiled(size', b) && (Dedicated(size', top, b) || Shared(size', top, b))
    requires forall j :: 0 <= j < |blocks| ==> KindKept(size, size', top, blocks[j])
    requires AllTiled(size', Inserted(blocks, i, b))
    ensures Kinds(size', top, Inserted(blocks, i, b))
  {
    var blocks' := Inserted(blocks, i, b);
    forall p | 0 <= p < |blocks'|
      ensures BlockTiled(size', blocks'[p]) && (Dedicated(size', top, blocks'[p]) || Shared(size', top, blocks'[p]))
    {
      assert BlockTiled(size', blocks'[p]);
      if p != i {
        var j := if p < i then p else p - 1;
        assert blocks'[p] == blocks[j] && KindKept(size, size', top, blocks[j]);
      }
    }
  }

  ghost predicate KindKept(size: Sizes, size': Sizes, top: nat, b: Block) {
    && BlockTiled(size, b) && BlockTiled(size', b)
    && (Dedicated(size, top, b) ==> Dedicated(size', top, b))
    && (Shared(size, top, b) ==> Shared(size', top, b))
  }

  /** A new block for many chunks, empty as yet. */
  lemma EmptyBlockKeeps(a: Arena, i: nat, b: Block)
    requires Inv(a) && i <= |a.blocks| && BlockOk(b) && Fits(a.blocks, b.base, b.endptr - b.base)
             && b.freeptr == b.base + BLOCK_HEADER
    ensures Inv(a.(blocks := Inserted(a.blocks, i, b)))
  {
    Parts(a);
    InsertLayout(a.size, a.size, a.blocks, i, b);
    InsertKinds(a.size, a.size, a.top, a.blocks, i, b);
  }

  lemma DedicatedWalk(size: Sizes, top: nat, b: Block)
    requires BlockOk(b) && Dedicated(size, top, b)
    ensures BlockTiled(size, b) && Walk(size, b.base + BLOCK_HEADER, b.freeptr) == [b.base + BLOCK_HEADER]
  {
    var c := b.base + BLOCK_HEADER;
    assert Tiled(size, c + CHUNK_HEADER + size[c], b.freeptr);
    assert Walk(size, c, b.freeptr) == [c] + Walk(size, c + CHUNK_HEADER + size[c], b.freeptr);
  }

  function BigBlock(at: nat, n: nat): Block {
    var end := at + BLOCK_HEADER + CHUNK_HEADER + n;
    Block(at, end, end)
  }

  /** A block of its own for one large chunk. */
  function WithBig(a: Arena, i: nat, at: nat, n: nat): Arena
    requires i <= |a.blocks|
  {
    var c := at + BLOCK_HEADER;
    a.(blocks := Inserted(a.blocks, i, BigBlock(at, n)), size := a.size[c := n], live := a.live + [c])
  }

  lemma BigKinds(a: Arena, at: nat, n: nat, j: nat)
    requires Inv(a) && j < |a.blocks| && Fits(a.blocks, at, n + BLOCK_HEADER + CHUNK_HEADER)
    ensures var size' := a.size[at + BLOCK_HEADER := n];
            Agree(a.size, size', a.blocks[j].base + BLOCK_HEADER, a.blocks[j].freeptr)
                && KindKept(a.size, size', a.top, a.blocks[j])
  {
    Parts(a);
    var c, size' := at + BLOCK_HEADER, a.size[at + BLOCK_HEADER := n];
    assert BlockOk(a.blocks[j]) && BlockTiled(a.size, a.blocks[j]);
    HeaderElsewhere(a.size, BigBlock(at, n), a.blocks[j], c, n);
    KindFrame(a.size, size', a.top, a.blocks[j], c, n);
  }

  lemma NewHeaderFresh(a: Arena, at: nat, n: nat)
    requires Inv(a) && AllTiled(a.size, a.blocks) && Fits(a.blocks, at, n + BLOCK_HEADER + CHUNK_HEADER)
    ensures at + BLOCK_HEADER !in Chunks(a.size, a.blocks)
  {
    var c := at + BLOCK_HEADER;
    if c in Chunks(a.size, a.blocks) {
      Parts(a);
      var i := ChunkBlock(a.size, a.blocks, c);
      assert BlockOk(a.blocks[i]);
      WalkBounds(a.size, a.blocks[i].base + BLOCK_HEADER, a.blocks[i].freeptr, c);
    }
  }

  lemma BigKeeps(a: Arena, i: nat, at: nat, n: nat)
    requires Inv(a) && i <= |a.blocks| && n > Limit(a) && Fits(a.blocks, at, n + BLOCK_HEADER + CHUNK_HEADER)
    ensures Inv(WithBig(a, i, at, n)) && at + BLOCK_HEADER !in a.live
  {
    Parts(a);
    var c, b, size' := at + BLOCK_HEADER, BigBlock(at, n), a.size[at + BLOCK_HEADER := n];
    NewHeaderFresh(a, at, n);
    CutClasses(a, c, n);
    forall j | 0 <= j < |a.blocks|
      ensures Agree(a.size, size', a.blocks[j].base + BLOCK_HEADER, a.blocks[j].freeptr)
              && KindKept(a.size, size', a.top, a.blocks[j])
    {
      BigKinds(a, at, n, j);
    }
    DedicatedWalk(size', a.top, b);
    InsertLayout(a.size, size', a.blocks, i, b);
    InsertKinds(a.size, size', a.top, a.blocks, i, b);
    if c in a.live {
      LiveIsChunk(a, c);
    }
  }

  // ---- Giving a dedicated block back ----

  function Removed(blocks: seq<Block>, i: nat): seq<Block>
    requires i < |blocks|
  {
    blocks[..i] + blocks[i + 1..]
  }

  lemma RemoveChunks(size: Sizes, blocks: seq<Block>, i: nat)
    requires AllTiled(size, blocks) && i < |blocks| && BlockTiled(size, blocks[i])
    ensures AllTiled(size, Removed(blocks, i))
    ensures multiset(Chunks(size, blocks)) ==
            multiset(Chunks(size, Removed(blocks, i)))
                + multiset(Walk(size, blocks[i].base + BLOCK_HEADER, blocks[i].freeptr))
  {
    assert blocks == blocks[..i] + [blocks[i]] + blocks[i + 1..];
    BlockAmong(size, blocks[..i], blocks[i], blocks[i + 1..]);
    ChunksSplit(size, blocks[..i], blocks[i + 1..]);
  }

  lemma RemoveGeometry(blocks: seq<Block>, i: nat)
    requires Geometry(blocks) && i < |blocks|
    ensures Geometry(Removed(blocks, i))
  {
    var blocks' := Removed(blocks, i);
    forall p, q | 0 <= p < q < |blocks'| ensures BlocksApart(blocks'[p], blocks'[q]) {
      var p', q' := if p < i then p else p + 1, if q < i then q else q + 1;
      assert blocks'[p] == blocks[p'] && blocks'[q] == blocks[q'] && BlocksApart(blocks[p'], blocks[q']);
    }
    forall p | 0 <= p < |blocks'| ensures BlockOk(blocks'[p]) {
      assert blocks'[p] == blocks[if p < i then p else p + 1];
    }
  }

  lemma RemoveKinds(size: Sizes, top: nat, blocks: seq<Block>, i: nat)
    requires AllTiled(size, blocks) && Kinds(size, top, blocks) && i < |blocks| && AllTiled(size, Removed(blocks, i))
    ensures Kinds(size, top, Removed(blocks, i))
  {
    var blocks' := Removed(blocks, i);
    forall p | 0 <= p < |blocks'|
      ensures BlockTiled(size, blocks'[p]) && (Dedicated(size, top, blocks'[p]) || Shared(size, top, blocks'[p]))
    {
      assert blocks'[p] == blocks[if p < i then p else p + 1];
    }
  }

  function WithoutBig(a: Arena, i: nat): Arena
    requires i < |a.blocks|
  {
    a.(blocks := Removed(a.blocks, i), live := Without(a.live, a.blocks[i].base + BLOCK_HEADER))
  }

  lemma BagCancel(all: multiset<nat>, rest: multiset<nat>, live: multiset<nat>, free: multiset<nat>, c: nat)
    requires all == rest + multiset{c} && all == live + free && c in live
    ensures rest == (live - multiset{c}) + free
  {
    forall x ensures rest[x] == ((live - multiset{c}) + free)[x] {
      assert all[x] == rest[x] + multiset{c}[x] && all[x] == live[x] + free[x];
    }
  }

  lemma RemoveBigOwners(a: Arena, i: nat)
    requires AllTiled(a.size, a.blocks) && Split(a.size, a.blocks, a.free, a.live) && i < |a.blocks|
    requires BlockOk(a.blocks[i]) && Dedicated(a.size, a.top, a.blocks[i]) && a.blocks[i].base + BLOCK_HEADER in a.live
    ensures AllTiled(a.size, Removed(a.blocks, i))
    ensures Split(a.size, Removed(a.blocks, i), a.free, Without(a.live, a.blocks[i].base + BLOCK_HEADER))
  {
    var c := a.blocks[i].base + BLOCK_HEADER;
    DedicatedWalk(a.size, a.top, a.blocks[i]);
    RemoveChunks(a.size, a.blocks, i);
    WithoutBag(a.live, c);
    BagCancel(multiset(Chunks(a.size, a.blocks)), multiset(Chunks(a.size, Removed(a.blocks, i))), multiset(a.live),
        multiset(Flat(a.free)), c);
  }

  lemma RemoveBigKeeps(a: Arena, i: nat)
    requires Inv(a) && i < |a.blocks| && Dedicated(a.size, a.top, a.blocks[i])
             && a.blocks[i].base + BLOCK_HEADER in a.live
    ensures Inv(WithoutBig(a, i))
  {
    Parts(a);
    assert BlockOk(a.blocks[i]);
    RemoveBigOwners(a, i);
    RemoveGeometry(a.blocks, i);
    RemoveKinds(a.size, a.top, a.blocks, i);
  }

  /** A chunk beyond the limit is alone in the block that starts just before it. */
  lemma LargeIsAlone(a: Arena, c: nat) returns (i: nat)
    requires Inv(a) && c in a.live && c in a.size && a.size[c] > Limit(a)
    ensures i < |a.blocks| && Dedicated(a.size, a.top, a.blocks[i]) && c == a.blocks[i].base + BLOCK_HEADER
  {
    Parts(a);
    LiveIsChunk(a, c);
    i := ChunkBlock(a.size, a.blocks, c);
    assert BlockOk(a.blocks[i]);
    if Dedicated(a.size, a.top, a.blocks[i]) {
      DedicatedWalk(a.size, a.top, a.blocks[i]);
    } else {
      assert Shared(a.size, a.top, a.blocks[i]);
      assert IsClass(a.size[c], a.top);
      var k: nat :| k <= a.top && a.size[c] == ClassSize(k);
      LowerHolds(k, a.top);
    }
  }

  /** A chunk within the limit has the size of a class. */
  lemma SmallIsClass(a: Arena, c: nat)
    requires Inv(a) && c in a.live && c in a.size && a.size[c] <= Limit(a)
    ensures IsClass(a.size[c], a.top)
  {
    Parts(a);
    LiveIsChunk(a, c);
    var i := ChunkBlock(a.size, a.blocks, c);
    assert BlockOk(a.blocks[i]);
    if Dedicated(a.size, a.top, a.blocks[i]) {
      DedicatedWalk(a.size, a.top, a.blocks[i]);
    }
  }
}
