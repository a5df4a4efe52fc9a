/** TwoLevelIterator: an index of separators over blocks, read as one flat run. */
module TwoLevel {
  import opened Mvcc
  import opened Levels

  // ---- The flat run ----

  /** The first n blocks laid end to end. */
  function Flat(blocks: seq<seq<Entry>>, n: nat): (r: seq<Entry>)
    requires n <= |blocks|
  {
    if n == 0 then [] else Flat(blocks, n - 1) + blocks[n - 1]
  }

  /** Where block n starts in the flat run. */
  ghost function Start(blocks: seq<seq<Entry>>, n: nat): nat
    requires n <= |blocks|
  {
    |Flat(blocks, n)|
  }

  lemma {:induction false} FlatAt(blocks: seq<seq<Entry>>, n: nat, b: nat, i: nat)
    requires b < n <= |blocks| && i < |blocks[b]|
    ensures Start(blocks, b) + i < Start(blocks, n)
    ensures Flat(blocks, n)[Start(blocks, b) + i] == blocks[b][i]
  {
    if b + 1 < n {
      FlatAt(blocks, n - 1, b, i);
    }
  }

  lemma {:induction false} StartRises(blocks: seq<seq<Entry>>, a: nat, b: nat)
    requires a <= b <= |blocks|
    ensures Start(blocks, a) <= Start(blocks, b)
  {
    if a < b {
      StartRises(blocks, a, b - 1);
    }
  }

  /** Every flat position lies in one block. */
  lemma {:induction false} Locate(blocks: seq<seq<Entry>>, n: nat, p: nat) returns (b: nat, i: nat)
    requires n <= |blocks| && p < Start(blocks, n)
    ensures b < n && i < |blocks[b]| && Start(blocks, b) + i == p
    ensures Flat(blocks, n)[p] == blocks[b][i]
  {
    if p < Start(blocks, n - 1) {
      b, i := Locate(blocks, n - 1, p);
    } else {
      b, i := n - 1, p - Start(blocks, n - 1);
    }
  }

  /** Index entry i is at or above everything in block i and below everything
      in later blocks. */
  ghost predicate IndexOk(index: seq<InternalKey>, blocks: seq<seq<Entry>>) {
    && |index| == |blocks|
    && (forall i, j :: 0 <= i < j < |index| ==> Before(index[i], index[j]))
    && (forall i, k :: 0 <= i < |blocks| && 0 <= k < |blocks[i]| ==> !Before(index[i], KeyOf(blocks[i][k])))
    && (forall i, j, k :: 0 <= i < j < |blocks| && 0 <= k < |blocks[j]| ==> Before(index[i], KeyOf(blocks[j][k])))
    && (forall i :: 0 <= i < |blocks| ==> SortedEntries(blocks[i]))
  }

  /** Seeking the index: the first separator not below the target. */
  function IndexSeek(index: seq<InternalKey>, t: InternalKey, from: nat): (i: nat)
    requires from <= |index|
    requires forall j :: 0 <= j < from ==> Before(index[j], t)
    ensures i <= |index|
    ensures forall j :: 0 <= j < i ==> Before(index[j], t)
    ensures i < |index| ==> !Before(index[i], t)
    decreases |index| - from
  {
    if from == |index| || !Before(index[from], t) then from else IndexSeek(index, t, from + 1)
  }

  /** The flat position index and block seek lead to. */
  ghost function SeekPosition(index: seq<InternalKey>, blocks: seq<seq<Entry>>, t: InternalKey): nat
    requires |index| == |blocks|
  {
    var a := IndexSeek(index, t, 0);
    if a < |blocks| then Start(blocks, a) + LowerBound(blocks[a], t) else Start(blocks, |blocks|)
  }

  lemma SeekSkipsSmaller(index: seq<InternalKey>, blocks: seq<seq<Entry>>, t: InternalKey, q: nat)
    requires IndexOk(index, blocks) && q < Start(blocks, |blocks|) && q < SeekPosition(index, blocks, t)
    ensures Before(KeyOf(Flat(blocks, |blocks|)[q]), t)
  {
    var a := IndexSeek(index, t, 0);
    var b, i := Locate(blocks, |blocks|, q);
    if a < b {
      StartRises(blocks, a + 1, b);
    }
    if b < a {
      assert Before(index[b], t) && !Before(index[b], KeyOf(blocks[b][i]));
    }
  }

  lemma SeekStopsInTime(index: seq<InternalKey>, blocks: seq<seq<Entry>>, t: InternalKey, a: nat, l: nat)
    requires IndexOk(index, blocks) && a < |blocks| && !Before(index[a], t)
    requires l <= |blocks[a]| && (l < |blocks[a]| ==> !Before(KeyOf(blocks[a][l]), t))
    requires Start(blocks, a) + l < Start(blocks, |blocks|)
    ensures !Before(KeyOf(Flat(blocks, |blocks|)[Start(blocks, a) + l]), t)
  {
    if l < |blocks[a]| {
      FlatAt(blocks, |blocks|, a, l);
    } else {
      var b, i := Locate(blocks, |blocks|, Start(blocks, a + 1));
      if b <= a {
        StartRises(blocks, b + 1, a + 1);
      }
      assert Before(index[a], KeyOf(blocks[b][i]));
    }
  }

  /** Index then block: the lower bound of the flat run. */
  lemma SeekFindsLowerBound(index: seq<InternalKey>, blocks: seq<seq<Entry>>, t: InternalKey)
    requires IndexOk(index, blocks)
    ensures LowerBound(Flat(blocks, |blocks|), t) == SeekPosition(index, blocks, t)
  {
    var a := IndexSeek(index, t, 0);
    if a < |blocks| {
      StartRises(blocks, a + 1, |blocks|);
    }
    var p := SeekPosition(index, blocks, t);
    forall q | 0 <= q < p ensures Before(KeyOf(Flat(blocks, |blocks|)[q]), t) {
      SeekSkipsSmaller(index, blocks, t, q);
    }
    if p < Start(blocks, |blocks|) {
      SeekStopsInTime(index, blocks, t, a, LowerBound(blocks[a], t));
    }
  }

  // ---- The iterator ----

  class TwoLevelIterator {
    const index: seq<InternalKey>
    const blocks: seq<seq<Entry>>
    var at: nat               // index position; |index| when not valid
    var data: Option<nat>     // which block the data iterator reads; None for NULL
    var pos: nat              // its position; the block's length when not valid

    constructor (index: seq<InternalKey>, blocks: seq<seq<Entry>>)
      requires IndexOk(index, blocks)
      ensures Consistent() && !Valid() && this.index == index && this.blocks == blocks
    {
      this.index, this.blocks := index, blocks;
      at, data, pos := |index|, None, 0;
    }

    predicate Valid()
      reads this
    {
      data.Some? && data.value < |blocks| && pos < |blocks[data.value]|
    }

    /** The data iterator reads the block the index stands on. */
    ghost predicate InStep()
      reads this
    {
      && IndexOk(index, blocks) && at <= |index|
      && (data.None? ==> at == |index|)
      && (data.Some? ==> data.value == at < |index| && pos <= |blocks[at]|)
    }

    ghost predicate Consistent()
      reads this
    {
      IndexOk(index, blocks) && at <= |index| && (data.Some? ==> InStep() && Valid())
    }

    /** The flat position of a valid iterator. */
    ghost function Position(): nat
      requires Valid()
      reads this
    {
      Start(blocks, data.value) + pos
    }

    ghost function Run(): seq<Entry> {
      Flat(blocks, |blocks|)
    }

    /** What key() and value() show is the entry at the flat position. */
    lemma ItemIsFlat()
      requires Valid()
      ensures Position() < |Run()| && Run()[Position()] == blocks[data.value][pos]
    {
      FlatAt(blocks, |blocks|, data.value, pos);
    }

    /** The flat position a forward scan stands for. */
    ghost function Ahead(): nat
      requires InStep()
      reads this
    {
      if at < |blocks| then Start(blocks, at) + pos else Start(blocks, |blocks|)
    }

    /** How many flat entries lie at or before a backward scan. */
    ghost function Count(): nat
      requires InStep()
      reads this
    {
      if at < |blocks| then Start(blocks, at) + (if pos < |blocks[at]| then pos + 1 else 0) else 0
    }

    method InitDataBlock()
      requires IndexOk(index, blocks) && at <= |index|
      modifies this`data, this`pos
      ensures at == |index| ==> data.None?
      ensures at < |index| ==> data == Some(at)
      ensures at < |index| && old(data) == Some(at) ==> pos == old(pos)
    {
      if at == |index| {
        data := None;
      } else if data.Some? && data.value == at {
      } else {
        data, pos := Some(at), |blocks[at]|;
      }
    }

    method SkipEmptyDataBlocksForward()
      requires InStep()
      modifies this
      ensures Consistent()
      ensures Valid() <==> old(Ahead()) < |Run()|
      ensures Valid() ==> Position() == old(Ahead())
    {
      while data.None? || pos == |blocks[at]|
        invariant InStep() && Ahead() == old(Ahead())
        decreases |index| - at
      {
        if at == |index| {
          data := None;
          return;
        }
        at := at + 1;
        InitDataBlock();
        if data.Some? {
          pos := 0;
        }
      }
      ItemIsFlat();
    }

    method SkipEmptyDataBlocksBackward()
      requires InStep()
      modifies this
      ensures Consistent()
      ensures Valid() <==> old(Count()) > 0
      ensures Valid() ==> Position() == old(Count()) - 1
    {
      while data.None? || pos == |blocks[at]|
        invariant InStep() && Count() == old(Count())
        decreases if at == |index| then 0 else at + 1
      {
        if at == |index| {
          data := None;
          return;
        }
        at := if at == 0 then |index| else at - 1;
        InitDataBlock();
        if data.Some? {
          pos := if |blocks[at]| == 0 then 0 else |blocks[at]| - 1;
        }
      }
    }

    method Seek(target: InternalKey)
      requires Consistent()
      modifies this
      ensures Consistent()
      ensures Valid() <==> LowerBound(Run(), target) < |Run()|
      ensures Valid() ==> Position() == LowerBound(Run(), target)
    {
      at := IndexSeek(index, target, 0);
      InitDataBlock();
      if data.Some? {
        pos := LowerBound(blocks[at], target);
      }
      SeekFindsLowerBound(index, blocks, target);
      SkipEmptyDataBlocksForward();
    }

    method SeekToFirst()
      requires Consistent()
      modifies this
      ensures Consistent()
      ensures Valid() <==> |Run()| > 0
      ensures Valid() ==> Position() == 0
    {
      at := 0;
      InitDataBlock();
      if data.Some? {
        pos := 0;
      }
      SkipEmptyDataBlocksForward();
    }

    method SeekToLast()
      requires Consistent()
      modifies this
      ensures Consistent()
      ensures Valid() <==> |Run()| > 0
      ensures Valid() ==> Position() == |Run()| - 1
    {
      at := if |index| == 0 then 0 else |index| - 1;
      InitDataBlock();
      if data.Some? {
        pos := if |blocks[at]| == 0 then 0 else |blocks[at]| - 1;
      }
      SkipEmptyDataBlocksBackward();
    }

    method Next()
      requires Consistent() && Valid()
      modifies this
      ensures Consistent()
      ensures Valid() <==> old(Position()) + 1 < |Run()|
      ensures Valid() ==> Position() == old(Position()) + 1
    {
      pos := pos + 1;
      SkipEmptyDataBlocksForward();
    }

    method Prev()
      requires Consistent() && Valid()
      modifies this
      ensures Consistent()
      ensures Valid() <==> old(Position()) > 0
      ensures Valid() ==> Position() == old(Position()) - 1
    {
      pos := if pos == 0 then |blocks[at]| else pos - 1;
      SkipEmptyDataBlocksBackward();
    }
  }

  /** The flat run is sorted, so the iterator is a cursor over a sorted run. */
  lemma FlatSorted(index: seq<InternalKey>, blocks: seq<seq<Entry>>)
    requires IndexOk(index, blocks)
    ensures SortedEntries(Flat(blocks, |blocks|))
  {
    var n := |blocks|;
    var flat := Flat(blocks, n);
    forall p, q | 0 <= p < q < |flat| ensures Before(KeyOf(flat[p]), KeyOf(flat[q])) {
      var b, i := Locate(blocks, n, p);
      var c, j := Locate(blocks, n, q);
      if b < c {
        assert !Before(index[b], KeyOf(blocks[b][i])) && Before(index[b], KeyOf(blocks[c][j]));
      } else if c < b {
        StartRises(blocks, c + 1, b);
      }
    }
  }

  /** The concatenating iterator of a sorted level: the index holds the files'
      largest keys, the blocks are the files. */
  lemma SortedLevelIndex(fs: seq<File>)
    requires SortedLevel(fs) && forall f :: f in fs ==> FileOk(f)
    ensures IndexOk(seq(|fs|, i requires 0 <= i < |fs| => fs[i].largest),
            seq(|fs|, i requires 0 <= i < |fs| => fs[i].entries))
  {
    var index := seq(|fs|, i requires 0 <= i < |fs| => fs[i].largest);
    var blocks := seq(|fs|, i requires 0 <= i < |fs| => fs[i].entries);
    assert forall i :: 0 <= i < |fs| ==> FileOk(fs[i]);
    forall i, k | 0 <= i < |fs| && 0 <= k < |blocks[i]| ensures !Before(index[i], KeyOf(blocks[i][k])) {
      assert fs[i].entries[k] == blocks[i][k];
    }
    forall i, j, k | 0 <= i < j < |fs| && 0 <= k < |blocks[j]| ensures Before(index[i], KeyOf(blocks[j][k])) {
      assert k == 0 || Before(KeyOf(fs[j].entries[0]), KeyOf(fs[j].entries[k]));
    }
  }
}
