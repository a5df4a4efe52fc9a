/** Block::Iter: a cursor over a finished block. */
module BlockIterators {
  import opened Keys
  import opened Mvcc
  import opened Coding
  import opened Blocks

  // ---- What the iterator reads ----

  /** A block as opened: its bytes, where the restart array starts, how many
      restart points there are. */
  datatype Block = Block(data: Bytes, restarts: nat, num: nat)

  function RestartPoint(b: Block, i: nat): nat
    requires i < b.num && b.restarts + 4 * b.num <= |b.data|
  {
    FromFixed(b.data[b.restarts + 4 * i..b.restarts + 4 * i + 4])
  }

  /** Block's constructor; None for contents too small for what they claim. The
      offset of the restart array is kept in 32 bits. */
  function Open(contents: Bytes): Option<Block> {
    var n := |contents|;
    if n < 4 then None
    else
      var num := FromFixed(contents[n - 4..]);
      if num > (n - 4) / 4 then None else Some(Block(contents, (n - 4 * (1 + num)) % TWO32, num))
  }

  /** Entry i read at its offset: lengths, text, and where the next one starts. */
  ghost predicate Reads(b: Block, L: Layout, i: nat)
    requires Shaped(L) && i < |L.kvs|
  {
    && L.offs[i] < b.restarts <= |b.data|
    && var h := DecodeEntry(b.data[L.offs[i]..b.restarts]);
       var x := L.kvs[i];
       && Roomy(h) && h.shared == L.shr[i] && h.shared <= |x.key| && h.nonShared == |x.key| - h.shared
          && h.valueLength == |x.value|
       && |h.rest| <= b.restarts && h.rest[..h.nonShared] == x.key[h.shared..]
       && var v := b.restarts - |h.rest| + h.nonShared;
          && v + h.valueLength == L.offs[i + 1] <= b.restarts && b.data[v..v + h.valueLength] == x.value
          && CommonPrefix(PrevKey(L.kvs, i), x.key, L.shr[i])
  }

  /** The block's lengths and offsets are those of a block the iterator can open. */
  predicate Opened(b: Block) {
    b.num > 0 && b.restarts + 4 * b.num <= |b.data| && b.restarts < TWO32
  }

  /** At offset p stands a head that is accepted although its two lengths add up to
      2^32 or more. */
  predicate Wraps(b: Block, p: nat)
    requires Opened(b)
  {
    p < b.restarts && var h := DecodeEntry(b.data[p..b.restarts]); h.Head? && h.nonShared + h.valueLength >= TWO32
  }

  predicate NoWrap(b: Block)
    requires Opened(b)
  {
    forall p :: 0 <= p < b.restarts ==> !Wraps(b, p)
  }

  /** A head at p lies in the block unless it wraps. */
  lemma RoomUnlessWraps(b: Block, p: nat)
    requires Opened(b) && p < b.restarts
    ensures var h := DecodeEntry(b.data[p..b.restarts]); h.Head? ==> (Roomy(h) <==> !Wraps(b, p))
  {
    var s := b.data[p..b.restarts];
    if DecodeEntry(s).Head? {
      RoomIff(s);
    }
  }

  datatype Part = Entries | Offsets | Points

  ghost predicate PartOk(part: Part, b: Block, L: Layout, at: seq<nat>)
    requires Shaped(L) && Opened(b)
  {
    match part
    case Entries => forall i :: 0 <= i < |L.kvs| ==> Reads(b, L, i)
    case Offsets => L.offs[|L.kvs|] == b.restarts && forall i, j :: 0 <= i < j <= |L.kvs| ==> L.offs[i] < L.offs[j]
    case Points =>
      && RestartsOk(seq(b.num, j requires 0 <= j < b.num => RestartPoint(b, j)), at, L)
      && (|L.kvs| > 0 ==> at[|at| - 1] < |L.kvs|)
  }

  /** The block holds the layout. */
  ghost predicate BlockOk(b: Block, L: Layout, at: seq<nat>) {
    Shaped(L) && Opened(b) && b.num == |at| && forall part: Part :: PartOk(part, b, L, at)
  }

  lemma EntryReady(b: Block, L: Layout, at: seq<nat>, i: nat)
    requires BlockOk(b, L, at) && i < |L.kvs|
    ensures Reads(b, L, i)
  {
    assert PartOk(Entries, b, L, at);
  }

  lemma Rises(b: Block, L: Layout, at: seq<nat>, i: nat, j: nat)
    requires BlockOk(b, L, at) && i <= |L.kvs| && j <= |L.kvs|
    ensures L.offs[i] < L.offs[j] <==> i < j
    ensures L.offs[|L.kvs|] == b.restarts
  {
    assert PartOk(Offsets, b, L, at);
    assert i > j ==> L.offs[j] < L.offs[i];
  }

  lemma PointAt(b: Block, L: Layout, at: seq<nat>, j: nat)
    requires BlockOk(b, L, at) && j < b.num
    ensures at[0] == 0 && at[j] <= |L.kvs| && (|L.kvs| > 0 ==> at[j] < |L.kvs|)
    ensures RestartPoint(b, j) == L.offs[at[j]] && (at[j] < |L.kvs| ==> L.shr[at[j]] == 0)
    ensures j > 0 ==> at[j] > 0
  {
    assert PartOk(Points, b, L, at);
    var points := seq(b.num, j requires 0 <= j < b.num => RestartPoint(b, j));
    assert points[j] == L.offs[at[j]];
    assert j == |at| - 1 || at[j] < at[|at| - 1];
  }

  type Order = (Bytes, Bytes) -> bool

  ghost predicate Transitive(less: Order) {
    forall a, b, c :: less(a, b) && less(b, c) ==> less(a, c)
  }

  ghost predicate SortedBy(less: Order, kvs: seq<Pair>) {
    forall i, j :: 0 <= i < j < |kvs| ==> less(kvs[i].key, kvs[j].key)
  }

  ghost predicate KeysBelow(less: Order, kvs: seq<Pair>, target: Bytes, n: nat) {
    n <= |kvs| && forall j :: 0 <= j < n ==> less(kvs[j].key, target)
  }

  /** The first pair whose key is not below the target. */
  ghost predicate IsLowerBound(less: Order, kvs: seq<Pair>, target: Bytes, i: nat) {
    KeysBelow(less, kvs, target, i) && (i < |kvs| ==> !less(kvs[i].key, target))
  }

  // ---- The iterator ----

  class Iter {
    const b: Block
    const less: Order
    ghost const L: Layout
    ghost const at: seq<nat>
    var current: nat           // offset of the current entry; b.restarts when not valid
    var restartIndex: nat      // restart block in which current falls
    var key: Bytes
    var valueAt: nat           // the value as a slice of the block
    var valueLength: nat
    var corrupt: bool
    var stray: bool            // an entry reaching outside the block was taken up

    constructor (b: Block, less: Order, ghost L: Layout, ghost at: seq<nat>)
      requires Opened(b)
      ensures Sane() && this.b == b && this.less == less && this.L == L && this.at == at && !Valid() && !corrupt
    {
      this.b, this.less, this.L, this.at := b, less, L, at;
      current, restartIndex, key, valueAt, valueLength, corrupt, stray := b.restarts, b.num, [], 0, 0, false, false;
    }

    predicate Valid()
      reads this
    {
      current < b.restarts
    }

    /** What holds whatever the block contains, as long as no length wrapped. */
    ghost predicate Sane()
      reads this
    {
      && Opened(b) && !stray
      && (Valid() ==> restartIndex < b.num && current < valueAt + valueLength <= b.restarts)
    }

    /** The block holds the layout, and the iterator shows entry i of it. */
    ghost predicate On(i: nat)
      reads this
    {
      && BlockOk(b, L, at) && !corrupt && !stray
      && i < |L.kvs| && current == L.offs[i] && key == L.kvs[i].key
      && valueAt + valueLength == L.offs[i + 1] <= |b.data| && b.data[valueAt..valueAt + valueLength] == L.kvs[i].value
      && restartIndex < b.num && at[restartIndex] <= i && (restartIndex + 1 < b.num ==> i <= at[restartIndex + 1])
    }

    /** The block holds the layout, and entry e is the next to be parsed. */
    ghost predicate Ready(e: nat)
      reads this
    {
      && BlockOk(b, L, at) && !corrupt && !stray
      && e <= |L.kvs| && valueAt + valueLength == L.offs[e]
      && restartIndex < b.num && at[restartIndex] <= e
      && (e < |L.kvs| ==> L.shr[e] <= |key| && CommonPrefix(key, L.kvs[e].key, L.shr[e]))
    }

    lemma OnReady(i: nat)
      requires On(i)
      ensures Ready(i + 1)
    {
      if i + 1 < |L.kvs| {
        EntryReady(b, L, at, i + 1);
      }
    }

    method SeekToRestartPoint(index: nat)
      requires index < b.num && Opened(b)
      modifies this`key, this`restartIndex, this`valueAt, this`valueLength
      ensures restartIndex == index
      ensures BlockOk(b, L, at) && !corrupt && !stray ==> Ready(at[index])
    {
      if BlockOk(b, L, at) {
        PointAt(b, L, at, index);
      }
      key := [];
      restartIndex := index;
      valueAt, valueLength := RestartPoint(b, index), 0;
    }

    /** Catch the restart index up with the current entry. */
    method AdvanceRestart(ghost e: nat)
      requires Opened(b) && restartIndex < b.num
      modifies this`restartIndex
      ensures restartIndex < b.num
      ensures BlockOk(b, L, at) && e < |L.kvs| && current == L.offs[e] && at[old(restartIndex)] <= e ==>
                at[restartIndex] <= e && (restartIndex + 1 < b.num ==> e <= at[restartIndex + 1])
    {
      ghost var ok := BlockOk(b, L, at) && e < |L.kvs| && current == L.offs[e] && at[restartIndex] <= e;
      while restartIndex + 1 < b.num && RestartPoint(b, restartIndex + 1) < current
        invariant restartIndex < b.num && (ok ==> at[restartIndex] <= e)
        decreases b.num - restartIndex
      {
        if ok {
          PointAt(b, L, at, restartIndex + 1);
          Rises(b, L, at, at[restartIndex + 1], e);
        }
        restartIndex := restartIndex + 1;
      }
      if ok && restartIndex + 1 < b.num {
        PointAt(b, L, at, restartIndex + 1);
        Rises(b, L, at, at[restartIndex + 1], e);
      }
    }

    /** Take over the entry whose head has been decoded. */
    method Load(h: Head, ghost e: nat)
      requires Roomy(h) && h.shared <= |key| && |h.rest| <= b.restarts
      modifies this`key, this`valueAt, this`valueLength
      ensures valueAt + valueLength == b.restarts - |h.rest| + h.nonShared + h.valueLength
      ensures old(Ready(e)) && e < |L.kvs| && L.offs[e] < b.restarts
              && h == DecodeEntry(b.data[L.offs[e]..b.restarts]) ==>
                && key == L.kvs[e].key && valueAt + valueLength == L.offs[e + 1] <= |b.data|
                && b.data[valueAt..valueAt + valueLength] == L.kvs[e].value
    {
      ghost var ok := Ready(e) && e < |L.kvs| && L.offs[e] < b.restarts
          && h == DecodeEntry(b.data[L.offs[e]..b.restarts]);
      if ok {
        EntryReady(b, L, at, e);
        KeyPieces(key, L.kvs[e].key, h.shared);
      }
      key := key[..h.shared] + h.rest[..h.nonShared];
      valueAt, valueLength := b.restarts - |h.rest| + h.nonShared, h.valueLength;
    }

    method CorruptionError()
      modifies this
      ensures corrupt && !Valid() && stray == old(stray)
    {
      current, restartIndex, corrupt, key, valueAt, valueLength := b.restarts, b.num, true, [], 0, 0;
    }

    lemma ReadHead(e: nat)
      requires BlockOk(b, L, at) && e < |L.kvs|
      ensures L.offs[e] < b.restarts <= |b.data|
      ensures var h := DecodeEntry(b.data[L.offs[e]..b.restarts]); Roomy(h) && h.shared == L.shr[e]
    {
      EntryReady(b, L, at, e);
    }

    /** The entry after the value shown; `stray` when its head wraps, after which the
        iterator reads beyond the block and nothing more is said of it. */
    method ParseNextKey(ghost e: nat) returns (more: bool)
      requires Opened(b) && !stray && restartIndex < b.num
      modifies this
      ensures stray <==> old(Wraps(b, valueAt + valueLength) && Reached())
      ensures stray || (Sane() && (more <==> Valid()))
      ensures more && !stray ==> valueAt + valueLength > old(valueAt + valueLength)
      ensures stray ==> !more
      ensures old(Ready(e)) ==> !stray && (more <==> e < |L.kvs|) && corrupt == old(corrupt)
      ensures old(Ready(e)) && more ==> On(e)
    {
      ghost var ok := Ready(e);
      if ok {
        Rises(b, L, at, e, |L.kvs|);
      }
      current := valueAt + valueLength;
      if current >= b.restarts {
        current, restartIndex := b.restarts, b.num;
        return false;
      }
      var h := DecodeEntry(b.data[current..b.restarts]);
      if ok && e < |L.kvs| {
        ReadHead(e);
      }
      RoomUnlessWraps(b, current);
      if h.BadHead? || |key| < h.shared {
        CorruptionError();
        return false;
      }
      if !Roomy(h) {
        stray := true;
        return false;
      }
      Load(h, e);
      AdvanceRestart(e);
      return true;
    }

    /** The key shown is long enough for the entry that follows. */
    predicate Reached()
      requires Opened(b)
      reads this
    {
      valueAt + valueLength < b.restarts
          && var h := DecodeEntry(b.data[valueAt + valueLength..b.restarts]); h.Head? && h.shared <= |key|
    }

    /** At entry i of n, or past the end when i == n. */
    ghost predicate Shows(i: nat)
      reads this
    {
      BlockOk(b, L, at) && !corrupt && !stray && i <= |L.kvs| && (i < |L.kvs| ==> On(i)) && (i == |L.kvs| ==> !Valid())
    }

    /** The block is as the builder left it and nothing has been reported. */
    ghost predicate Sound()
      reads this
    {
      BlockOk(b, L, at) && !corrupt && !stray
    }

    /** From the entry shown to the next one. */
    method Step(ghost i: nat) returns (more: bool)
      requires Sane() && Valid()
      modifies this
      ensures if stray then !more && !NoWrap(b) else Sane() && (more <==> Valid())
      ensures more ==> valueAt + valueLength > old(valueAt + valueLength)
      ensures old(On(i)) ==> Shows(i + 1) && (more <==> i + 1 < |L.kvs|)
    {
      if On(i) {
        OnReady(i);
      }
      more := ParseNextKey(i + 1);
    }

    method Next(ghost i: nat)
      requires Sane() && Valid()
      modifies this
      ensures stray || Sane()
      ensures NoWrap(b) ==> !stray
      ensures old(On(i)) ==> Shows(i + 1)
    {
      var more := Step(i);
    }

    method SeekToFirst()
      requires Sane()
      modifies this
      ensures stray || Sane()
      ensures NoWrap(b) ==> !stray
      ensures old(Sound()) ==> Shows(0)
    {
      if Sound() {
        PointAt(b, L, at, 0);
      }
      SeekToRestartPoint(0);
      var more := ParseNextKey(0);
    }

    /** Parse entries from e0 on until one ends at or beyond `limit`, which is
        where entry i starts. */
    method ScanTo(limit: nat, ghost e0: nat, ghost i: nat)
      requires Opened(b) && !stray && restartIndex < b.num
      modifies this
      ensures stray || Sane()
      ensures NoWrap(b) ==> !stray
      ensures old(Ready(e0)) && e0 < i <= |L.kvs| && limit == L.offs[i] ==> On(i - 1)
      ensures old(Ready(e0)) && e0 == |L.kvs| ==> Shows(e0)
    {
      ghost var ok := Ready(e0) && e0 < i <= |L.kvs| && limit == L.offs[i];
      ghost var e: nat := e0;
      var more := ParseNextKey(e);
      while more && valueAt + valueLength < limit
        invariant if stray then !more && !NoWrap(b) else Sane() && (more <==> Valid())
        invariant ok ==> more && On(e) && e < i
        invariant old(Ready(e0)) && e0 == |L.kvs| ==> Shows(e0)
        decreases more, b.restarts - (valueAt + valueLength)
      {
        if ok {
          Rises(b, L, at, e + 1, i);
        }
        more := Step(e);
        e := e + 1;
      }
      if ok {
        Rises(b, L, at, e + 1, i);
      }
    }

    method SeekToLast()
      requires Sane()
      modifies this
      ensures stray || Sane()
      ensures NoWrap(b) ==> !stray
      ensures old(Sound()) ==> Shows(if |L.kvs| == 0 then 0 else |L.kvs| - 1)
    {
      if Sound() {
        PointAt(b, L, at, b.num - 1);
        Rises(b, L, at, 0, 0);
      }
      SeekToRestartPoint(b.num - 1);
      ghost var e := if BlockOk(b, L, at) then at[b.num - 1] else 0;
      ScanTo(b.restarts, e, if BlockOk(b, L, at) then |L.kvs| else 0);
    }

    lemma Before(j: nat)
      requires BlockOk(b, L, at) && j < b.num
      ensures j > 0 ==> at[j - 1] < at[j]
    {
      assert PartOk(Points, b, L, at);
    }

    method Prev(ghost i: nat)
      requires Sane() && Valid()
      modifies this
      ensures stray || Sane()
      ensures NoWrap(b) ==> !stray
      ensures old(On(i)) ==> Shows(if i == 0 then |L.kvs| else i - 1)
    {
      ghost var ok := On(i);
      var original := current;
      while RestartPoint(b, restartIndex) >= original
        invariant restartIndex < b.num && current == original && corrupt == old(corrupt) && !stray
                  && (ok ==> at[restartIndex] <= i)
        decreases restartIndex
      {
        if ok {
          PointAt(b, L, at, restartIndex);
          Rises(b, L, at, at[restartIndex], i);
          Before(restartIndex);
        }
        if restartIndex == 0 {
          current, restartIndex := b.restarts, b.num;
          return;
        }
        restartIndex := restartIndex - 1;
      }
      if ok {
        PointAt(b, L, at, restartIndex);
        Rises(b, L, at, at[restartIndex], i);
      }
      SeekToRestartPoint(restartIndex);
      ScanTo(original, if ok then at[restartIndex] else 0, i);
    }

    /** The key a restart point stands for. */
    lemma RestartKey(j: nat)
      requires BlockOk(b, L, at) && 0 < j < b.num
      ensures at[j] < |L.kvs| && RestartPoint(b, j) < b.restarts
      ensures var h := DecodeEntry(b.data[RestartPoint(b, j)..b.restarts]);
              Roomy(h) && h.shared == 0 && h.rest[..h.nonShared] == L.kvs[at[j]].key
    {
      PointAt(b, L, at, j);
      Rises(b, L, at, at[j], |L.kvs|);
      EntryReady(b, L, at, at[j]);
      var x := L.kvs[at[j]];
      assert x.key[0..] == x.key;
    }

    /** The last restart point whose key is below the target, or the first. A
        restart key that reaches outside the block makes the search stray. */
    method FindRestart(target: Bytes) returns (found: bool, left: nat)
      requires Opened(b) && !stray
      modifies this`stray
      ensures left < b.num && (found ==> !stray)
      ensures NoWrap(b) ==> !stray
      ensures BlockOk(b, L, at) ==> found && (left > 0 ==> at[left] < |L.kvs| && less(L.kvs[at[left]].key, target))
    {
      left := 0;
      var right := b.num - 1;
      while left < right
        invariant 0 <= left <= right < b.num && !stray
        invariant BlockOk(b, L, at) && left > 0 ==> at[left] < |L.kvs| && less(L.kvs[at[left]].key, target)
      {
        var mid := (left + right + 1) / 2;
        var offset := RestartPoint(b, mid);
        if BlockOk(b, L, at) {
          RestartKey(mid);
        }
        var h := if offset <= b.restarts then DecodeEntry(b.data[offset..b.restarts]) else BadHead;
        if h.BadHead? || h.shared != 0 {
          return false, 0;
        }
        if h.nonShared > |h.rest| {
          RoomUnlessWraps(b, offset);
          stray := true;
          return false, 0;
        }
        if less(h.rest[..h.nonShared], target) {
          left := mid;
        } else {
          right := mid - 1;
        }
      }
      found := true;
    }

    /** Linear search from entry e0 for the first key not below the target. */
    method Scan(target: Bytes, ghost e0: nat) returns (ghost i: nat)
      requires Opened(b) && !stray && restartIndex < b.num
      modifies this
      ensures stray || Sane()
      ensures NoWrap(b) ==> !stray
      ensures old(Ready(e0)) && KeysBelow(less, L.kvs, target, e0) ==> Shows(i) && IsLowerBound(less, L.kvs, target, i)
    {
      ghost var ok := Ready(e0) && KeysBelow(less, L.kvs, target, e0);
      i := e0;
      var more := ParseNextKey(i);
      while more && less(key, target)
        invariant if stray then !more && !NoWrap(b) else Sane() && (more <==> Valid())
        invariant ok ==> Shows(i) && (more <==> i < |L.kvs|) && KeysBelow(less, L.kvs, target, i)
        decreases more, b.restarts - (valueAt + valueLength)
      {
        more := Step(i);
        i := i + 1;
      }
    }

    method Seek(target: Bytes) returns (ghost i: nat)
      requires Sane()
      modifies this
      ensures stray || Sane()
      ensures NoWrap(b) ==> !stray
      ensures old(Sound()) && Transitive(less) && SortedBy(less, L.kvs) ==>
              Shows(i) && IsLowerBound(less, L.kvs, target, i)
    {
      i := 0;
      var found, left := FindRestart(target);
      if stray {
        return;
      }
      if !found {
        CorruptionError();
        return;
      }
      if Sound() {
        PointAt(b, L, at, left);
      }
      SeekToRestartPoint(left);
      ghost var e := if BlockOk(b, L, at) then at[left] else 0;
      i := Scan(target, e);
    }
  }

  // ---- A finished block opens to what was added ----

  lemma OpenContents(data: Bytes, points: seq<nat>)
    requires |points| < TWO32 && |data| < TWO32
    ensures Open(BlockContents(data, points)) == Some(Block(BlockContents(data, points), |data|, |points|))
  {
    var c, n := BlockContents(data, points), |points|;
    LastWord(data, points);
    OpenFrom(c, |data|, n);
  }

  lemma LastWord(data: Bytes, points: seq<nat>)
    requires |points| < TWO32
    ensures var c := BlockContents(data, points);
            |c| == |data| + 4 * |points| + 4 && FromFixed(c[|c| - 4..]) == |points|
  {
    var n := |points|;
    assert n % TWO32 == n;
    EndSlice(data + Words(points, n), Fixed32(n));
    Fixed32RoundTrip(n);
  }

  lemma EndSlice(a: Bytes, b: Bytes)
    ensures (a + b)[|a + b| - |b|..] == b
  {}

  lemma OpenFrom(c: Bytes, size: nat, n: nat)
    requires |c| == size + 4 * n + 4 && FromFixed(c[|c| - 4..]) == n && size < TWO32
    ensures Open(c) == Some(Block(c, size, n))
  {
    assert |c| - 4 * (1 + n) == size;
    assert size % TWO32 == size;
  }

  lemma OpenPoint(data: Bytes, points: seq<nat>, j: nat)
    requires j < |points| && points[j] < TWO32
    ensures RestartPoint(Block(BlockContents(data, points), |data|, |points|), j) == points[j]
  {
    assert points[j] % TWO32 == points[j];
    PointBytes(data, points, j);
    Fixed32RoundTrip(points[j]);
  }

  lemma PointBytes(data: Bytes, points: seq<nat>, j: nat)
    requires j < |points|
    ensures BlockContents(data, points)[|data| + 4 * j..|data| + 4 * j + 4] == Fixed32(points[j] % TWO32)
  {
    WordOf(points, |points|, j);
    MiddleSlice(data, Words(points, |points|), Fixed32(|points| % TWO32), 4 * j);
  }

  /** The bytes from an entry's start on. */
  lemma FromEntry(data: Bytes, at: nat, entry: Bytes)
    requires EntryAt(data, at, entry)
    ensures data[at..] == entry + data[at + |entry|..]
  {}

  lemma EntrySlices(key: Bytes, value: Bytes, more: Bytes)
    ensures (key + value + more)[..|key|] == key && (key + value + more)[|key|..|key| + |value|] == value
  {}

  /** Decoding at an entry's offset. */
  lemma HeadAt(data: Bytes, whole: Bytes, at: nat, shared: nat, x: Pair)
    requires shared <= |x.key| && PairFits(x) && EntryAt(data, at, EncodeEntry(shared, x)) && data <= whole
             && |data| < TWO32
    ensures DecodeEntry(whole[at..|data|]) ==
            Head(shared, |x.key| - shared, |x.value|, x.key[shared..] + x.value + data[at + |EncodeEntry(shared, x)|..])
  {
    assert whole[at..|data|] == data[at..];
    FromEntry(data, at, EncodeEntry(shared, x));
    EntryRoundTrip(shared, x, data[at + |EncodeEntry(shared, x)|..]);
  }

  lemma EntryReads(data: Bytes, L: Layout, points: seq<nat>, i: nat)
    requires Laid(data, L) && i < |L.kvs| && |data| < TWO32
    ensures Reads(Block(BlockContents(data, points), |data|, |points|), L, i)
  {
    WrittenEntry(data, L, |L.kvs|, i);
    OffsetsRise(data, L, |L.kvs|, i);
    Contained(data, points);
    EntryFound(data, BlockContents(data, points), L, |points|, i);
  }

  lemma Contained(data: Bytes, points: seq<nat>)
    ensures data <= BlockContents(data, points)
  {}

  lemma EntryFound(data: Bytes, whole: Bytes, L: Layout, num: nat, i: nat)
    requires Shaped(L) && i < |L.kvs| && EntryIn(data, L, i) && data <= whole && L.offs[i] < |data| < TWO32
    ensures Reads(Block(whole, |data|, num), L, i)
  {
    var x, s := L.kvs[i], L.shr[i];
    HeadAt(data, whole, L.offs[i], s, x);
    EntrySlices(x.key[s..], x.value, data[L.offs[i + 1]..]);
    ValueSlice(data, L.offs[i], s, x, whole);
  }

  /** Where in the block an entry's value lies. */
  lemma ValueSlice(data: Bytes, at: nat, shared: nat, x: Pair, whole: Bytes)
    requires shared <= |x.key| && PairFits(x) && EntryAt(data, at, EncodeEntry(shared, x)) && data <= whole
    ensures var end := at + |EncodeEntry(shared, x)|;
            |x.value| <= end <= |whole| && whole[end - |x.value|..end] == x.value
  {
    var entry := EncodeEntry(shared, x);
    var front := Varint(shared) + (Varint(|x.key| - shared) + (Varint(|x.value|) + x.key[shared..]));
    assert entry == front + x.value;
    assert entry[|front|..] == x.value;
    assert whole[at..at + |entry|] == entry;
    assert whole[at + |front|..at + |entry|] == whole[at..at + |entry|][|front|..];
  }

  /** The block theorem's hypothesis met: what the builder finished opens to a
      block that holds exactly the pairs added. */
  lemma FinishedOpens(data: Bytes, L: Layout, points: seq<nat>, at: seq<nat>)
    requires Laid(data, L) && RestartsOk(points, at, L) && |data| < TWO32 && |points| < TWO32
    requires |L.kvs| > 0 ==> at[|at| - 1] < |L.kvs|
    ensures Open(BlockContents(data, points)) == Some(Block(BlockContents(data, points), |data|, |points|))
    ensures BlockOk(Block(BlockContents(data, points), |data|, |points|), L, at)
  {
    var b := Block(BlockContents(data, points), |data|, |points|);
    OpenContents(data, points);
    forall i | 0 <= i < |L.kvs| ensures Reads(b, L, i) {
      EntryReads(data, L, points, i);
    }
    forall i, j | 0 <= i < j <= |L.kvs| ensures L.offs[i] < L.offs[j] {
      WrittenPrefix(data, L, |L.kvs|, j);
      OffsetsRise(data, L, j, i);
    }
    var read := seq(b.num, j requires 0 <= j < b.num => RestartPoint(b, j));
    forall j | 0 <= j < b.num ensures read[j] == points[j] {
      PointFits(data, L, points, at, j);
      OpenPoint(data, points, j);
    }
    assert read == points;
  }

  lemma {:induction false} WrittenPrefix(data: Bytes, L: Layout, n: nat, m: nat)
    requires Shaped(L) && m <= n <= |L.kvs| && Written(data, L, n)
    ensures Written(data, L, m)
  {
    if m < n {
      WrittenPrefix(data, L, n - 1, m);
    }
  }

  lemma PointFits(data: Bytes, L: Layout, points: seq<nat>, at: seq<nat>, j: nat)
    requires Laid(data, L) && RestartsOk(points, at, L) && |data| < TWO32 && j < |points|
    ensures points[j] < TWO32
  {
    if at[j] < |L.kvs| {
      OffsetsRise(data, L, |L.kvs|, at[j]);
    }
  }
}
