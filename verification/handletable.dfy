/** HandleTable: the chained hash table of the LRU cache. */
module HandleTables {
  import opened Keys
  import opened Mvcc

  /** A cache entry as the table sees it. */
  datatype Slot = Slot(id: nat, key: Bytes, hash: nat)

  type Hash = Bytes -> nat

  // ---- Chains ----

  /** Chain b holds exactly the entries of m whose keys belong there, each once. */
  ghost predicate ChainOk(chain: seq<Slot>, b: nat, m: map<Bytes, nat>, H: Hash, B: Hash) {
    && (forall i :: 0 <= i < |chain| ==> SlotOk(chain[i], b, m, H, B))
    && (forall i, j :: 0 <= i < j < |chain| ==> chain[i].key != chain[j].key)
    && (forall k :: k in m && B(k) == b ==> Slot(m[k], k, H(k)) in chain)
  }

  ghost predicate SlotOk(s: Slot, b: nat, m: map<Bytes, nat>, H: Hash, B: Hash) {
    s.hash == H(s.key) && B(s.key) == b && s.key in m && m[s.key] == s.id
  }

  /** Where key is, or would be, in its chain. */
  ghost predicate IsPosition(chain: seq<Slot>, key: Bytes, i: nat) {
    i <= |chain| && (i < |chain| ==> chain[i].key == key) && forall j :: 0 <= j < i ==> chain[j].key != key
  }

  lemma PositionTells(chain: seq<Slot>, b: nat, m: map<Bytes, nat>, H: Hash, B: Hash, key: Bytes, i: nat)
    requires ChainOk(chain, b, m, H, B) && IsPosition(chain, key, i) && B(key) == b
    ensures if i < |chain| then key in m && m[key] == chain[i].id else key !in m
  {
    if i < |chain| {
      assert SlotOk(chain[i], b, m, H, B);
    } else {
      assert forall s :: s in chain ==> s.key != key;
    }
  }

  lemma ReplaceInChain(chain: seq<Slot>, b: nat, m: map<Bytes, nat>, H: Hash, B: Hash, s: Slot, i: nat)
    requires ChainOk(chain, b, m, H, B) && IsPosition(chain, s.key, i) && i < |chain| && s.hash == H(s.key)
             && B(s.key) == b
    ensures ChainOk(chain[i := s], b, m[s.key := s.id], H, B)
  {
    var chain', m' := chain[i := s], m[s.key := s.id];
    forall j | 0 <= j < |chain'| ensures SlotOk(chain'[j], b, m', H, B) {
      assert SlotOk(chain[j], b, m, H, B);
      assert j != i ==> chain[j].key != chain[i].key;
    }
    forall k | k in m' && B(k) == b ensures Slot(m'[k], k, H(k)) in chain' {
      if k == s.key {
        assert chain'[i] == s;
      } else {
        var t := Slot(m[k], k, H(k));
        var j :| 0 <= j < |chain| && chain[j] == t;
        assert chain'[j] == t;
      }
    }
  }

  lemma AddToChain(chain: seq<Slot>, b: nat, m: map<Bytes, nat>, H: Hash, B: Hash, s: Slot, chain': seq<Slot>)
    requires ChainOk(chain, b, m, H, B) && s.key !in m && s.hash == H(s.key) && B(s.key) == b
    requires chain' == chain + [s] || chain' == [s] + chain
    ensures ChainOk(chain', b, m[s.key := s.id], H, B)
  {
    var m' := m[s.key := s.id];
    forall j | 0 <= j < |chain| ensures SlotOk(chain[j], b, m', H, B) && chain[j].key != s.key {
      assert SlotOk(chain[j], b, m, H, B);
    }
    forall k | k in m' && B(k) == b ensures Slot(m'[k], k, H(k)) in chain' {
      if k != s.key {
        assert Slot(m[k], k, H(k)) in chain;
      }
    }
  }

  lemma DropFromChain(chain: seq<Slot>, b: nat, m: map<Bytes, nat>, H: Hash, B: Hash, key: Bytes, i: nat)
    requires ChainOk(chain, b, m, H, B) && IsPosition(chain, key, i) && i < |chain|
    ensures ChainOk(chain[..i] + chain[i + 1..], b, m - {key}, H, B)
  {
    var chain', m' := chain[..i] + chain[i + 1..], m - {key};
    forall j | 0 <= j < |chain'| ensures SlotOk(chain'[j], b, m', H, B) {
      var o := if j < i then j else j + 1;
      assert chain'[j] == chain[o] && SlotOk(chain[o], b, m, H, B);
      assert chain[o].key != chain[i].key;
    }
    forall k | k in m' && B(k) == b ensures Slot(m'[k], k, H(k)) in chain' {
      var t := Slot(m[k], k, H(k));
      var j :| 0 <= j < |chain| && chain[j] == t;
      assert chain'[if j < i then j else j - 1] == t;
    }
  }

  /** A chain the change does not concern. */
  lemma OtherChain(chain: seq<Slot>, c: nat, m: map<Bytes, nat>, m': map<Bytes, nat>, H: Hash, B: Hash, key: Bytes)
    requires ChainOk(chain, c, m, H, B) && B(key) != c
    requires forall k :: k != key ==> (k in m <==> k in m') && (k in m ==> m[k] == m'[k])
    ensures ChainOk(chain, c, m', H, B)
  {
    forall j | 0 <= j < |chain| ensures SlotOk(chain[j], c, m', H, B) {
      assert SlotOk(chain[j], c, m, H, B);
    }
  }

  // ---- The bucket array ----

  ghost predicate ListOk(list: seq<seq<Slot>>, m: map<Bytes, nat>, H: Hash, B: Hash) {
    && (forall b :: 0 <= b < |list| ==> ChainOk(list[b], b, m, H, B))
    && (forall k :: B(k) < |list|)
  }

  lemma OneChainChanged(list: seq<seq<Slot>>, m: map<Bytes, nat>, m': map<Bytes, nat>, H: Hash, B: Hash, key: Bytes,
        chain: seq<Slot>)
    requires ListOk(list, m, H, B) && ChainOk(chain, B(key), m', H, B)
    requires forall k :: k != key ==> (k in m <==> k in m') && (k in m ==> m[k] == m'[k])
    ensures ListOk(list[B(key) := chain], m', H, B)
  {
    forall b | 0 <= b < |list| && b != B(key) ensures ChainOk(list[b], b, m', H, B) {
      OtherChain(list[b], b, m, m', H, B, key);
    }
  }

  predicate PowerOfTwo(n: nat) {
    n == 1 || (n > 0 && n % 2 == 0 && PowerOfTwo(n / 2))
  }

  /** The least power of two, from four on, that is not below the number of entries. */
  predicate FittingLength(length: nat, elems: nat) {
    PowerOfTwo(length) && length >= 4 && elems <= length && (length > 4 ==> length / 2 < elems)
  }

  /** hash & (length - 1), the length being a power of two. */
  ghost function Bucket(H: Hash, n: nat): Hash
    requires n > 0
  {
    k => H(k) % n
  }

  class HandleTable {
    ghost const H: Hash
    var length: nat
    var elems: nat
    var list: seq<seq<Slot>>
    ghost var m: map<Bytes, nat>      // what the table stands for

    /** The table stands for the map. */
    ghost predicate Stands()
      reads this
    {
      |list| == length > 0 && elems == |m| && ListOk(list, m, H, Bucket(H, length))
    }

    /** ... and has no fewer buckets than entries. */
    ghost predicate Valid()
      reads this
    {
      Stands() && PowerOfTwo(length) && length >= 4 && elems <= length
    }

    constructor (ghost H: Hash)
      ensures Valid() && m == map[] && this.H == H && length == 4
    {
      this.H := H;
      assert PowerOfTwo(2);
      length, elems, list, m := 4, 0, [[], [], [], []], map[];
    }

    method FindPointer(key: Bytes, hash: nat) returns (b: nat, i: nat)
      requires Valid() && hash == H(key)
      ensures b == Bucket(H, length)(key) < |list| && IsPosition(list[b], key, i)
      ensures if i < |list[b]| then key in m && m[key] == list[b][i].id else key !in m
    {
      b, i := hash % length, 0;
      assert b == Bucket(H, length)(key);
      while i < |list[b]| && (list[b][i].hash != hash || list[b][i].key != key)
        invariant i <= |list[b]| && forall j :: 0 <= j < i ==> list[b][j].key != key
      {
        assert SlotOk(list[b][i], b, m, H, Bucket(H, length));
        i := i + 1;
      }
      PositionTells(list[b], b, m, H, Bucket(H, length), key, i);
    }

    method Lookup(key: Bytes, hash: nat) returns (r: Option<nat>)
      requires Valid() && hash == H(key)
      ensures r == if key in m then Some(m[key]) else None
    {
      var b, i := FindPointer(key, hash);
      r := if i < |list[b]| then Some(list[b][i].id) else None;
    }

    method Insert(s: Slot) returns (replaced: Option<nat>)
      requires Valid() && s.hash == H(s.key)
      modifies this
      ensures Valid() && m == old(m)[s.key := s.id]
      ensures replaced == if s.key in old(m) then Some(old(m)[s.key]) else None
    {
      var b, i := FindPointer(s.key, s.hash);
      ghost var B, m' := Bucket(H, length), m[s.key := s.id];
      if i < |list[b]| {
        replaced := Some(list[b][i].id);
        ReplaceInChain(list[b], b, m, H, B, s, i);
        OneChainChanged(list, m, m', H, B, s.key, list[b][i := s]);
        assert m'.Keys == m.Keys;
        list, m := list[b := list[b][i := s]], m';
      } else {
        replaced := None;
        AddToChain(list[b], b, m, H, B, s, list[b] + [s]);
        OneChainChanged(list, m, m', H, B, s.key, list[b] + [s]);
        assert m'.Keys == m.Keys + {s.key};
        list, m := list[b := list[b] + [s]], m';
        elems := elems + 1;
        if elems > length {
          Resize();
        }
      }
    }

    method Remove(key: Bytes, hash: nat) returns (r: Option<nat>)
      requires Valid() && hash == H(key)
      modifies this
      ensures Valid() && m == old(m) - {key}
      ensures r == if key in old(m) then Some(old(m)[key]) else None
    {
      var b, i := FindPointer(key, hash);
      if i < |list[b]| {
        var chain := list[b][..i] + list[b][i + 1..];
        r := Some(list[b][i].id);
        DropFromChain(list[b], b, m, H, Bucket(H, length), key, i);
        OneChainChanged(list, m, m - {key}, H, Bucket(H, length), key, chain);
        assert (m - {key}).Keys == m.Keys - {key};
        list, m := list[b := chain], m - {key};
        elems := elems - 1;
      } else {
        r := None;
        assert m - {key} == m;
      }
    }

    /** Rehash into a table of fitting length, which stands for the same map. */
    method Resize()
      requires Stands()
      modifies this`list, this`length
      ensures Valid() && FittingLength(length, elems)
    {
      var newLength := 4;
      assert PowerOfTwo(2);
      while newLength < elems
        invariant newLength >= 4 && PowerOfTwo(newLength) && (newLength > 4 ==> newLength / 2 < elems)
      {
        newLength := newLength * 2;
      }
      list := Rehash(list, newLength, m, H, Bucket(H, length));
      length := newLength;
    }
  }

  /** The first i slots of chain b, and all chains before it, have been moved;
      `done` is what has arrived. */
  ghost predicate Moved(list: seq<seq<Slot>>, b: nat, i: nat, m: map<Bytes, nat>, done: map<Bytes, nat>, B: Hash)
    requires b < |list| ==> i <= |list[b]|
  {
    && (forall k :: k in done ==> k in m && done[k] == m[k])
    && (forall k :: k in done ==> B(k) < b || (b < |list| && exists j :: 0 <= j < i && list[b][j].key == k))
    && (forall c, j :: 0 <= c < |list| && c < b && 0 <= j < |list[c]| ==> list[c][j].key in done)
    && (b < |list| ==> forall j :: 0 <= j < i ==> list[b][j].key in done)
  }

  method Rehash(list: seq<seq<Slot>>, newLength: nat, ghost m: map<Bytes, nat>, ghost H: Hash, ghost B: Hash)
        returns (newList: seq<seq<Slot>>)
    requires ListOk(list, m, H, B) && newLength > 0
    ensures |newList| == newLength && ListOk(newList, m, H, Bucket(H, newLength))
  {
    newList := seq(newLength, _ => []);
    ghost var done: map<Bytes, nat> := map[];
    ghost var B' := Bucket(H, newLength);
    for b := 0 to |list|
      invariant |newList| == newLength && ListOk(newList, done, H, B') && Moved(list, b, 0, m, done, B)
    {
      for i := 0 to |list[b]|
        invariant |newList| == newLength && ListOk(newList, done, H, B') && Moved(list, b, i, m, done, B)
      {
        var s := list[b][i];
        var c := s.hash % newLength;
        assert SlotOk(s, b, m, H, B);
        NotYetMoved(list, b, i, m, done, H, B);
        AddToChain(newList[c], c, done, H, B', s, [s] + newList[c]);
        OneChainChanged(newList, done, done[s.key := s.id], H, B', s.key, [s] + newList[c]);
        newList := newList[c := [s] + newList[c]];
        MoveOne(list, b, i, m, done, H, B);
        done := done[s.key := s.id];
      }
      NextChain(list, b, m, done, H, B);
    }
    AllMoved(list, m, done, H, B);
  }

  lemma NotYetMoved(list: seq<seq<Slot>>, b: nat, i: nat, m: map<Bytes, nat>, done: map<Bytes, nat>, H: Hash, B: Hash)
    requires b < |list| && i < |list[b]| && ListOk(list, m, H, B) && Moved(list, b, i, m, done, B)
    ensures list[b][i].key !in done
  {
    assert ChainOk(list[b], b, m, H, B) && SlotOk(list[b][i], b, m, H, B);
  }

  lemma MoveOne(list: seq<seq<Slot>>, b: nat, i: nat, m: map<Bytes, nat>, done: map<Bytes, nat>, H: Hash, B: Hash)
    requires b < |list| && i < |list[b]| && ListOk(list, m, H, B) && Moved(list, b, i, m, done, B)
    ensures Moved(list, b, i + 1, m, done[list[b][i].key := list[b][i].id], B)
  {
    assert SlotOk(list[b][i], b, m, H, B);
    var done' := done[list[b][i].key := list[b][i].id];
    forall k | k in done' ensures B(k) < b || exists j :: 0 <= j < i + 1 && list[b][j].key == k {
      if k in done && B(k) >= b {
        var j :| 0 <= j < i && list[b][j].key == k;
      }
    }
  }

  lemma NextChain(list: seq<seq<Slot>>, b: nat, m: map<Bytes, nat>, done: map<Bytes, nat>, H: Hash, B: Hash)
    requires b < |list| && ListOk(list, m, H, B) && Moved(list, b, |list[b]|, m, done, B)
    ensures Moved(list, b + 1, 0, m, done, B)
  {
    forall k | k in done ensures B(k) < b + 1 {
      if B(k) >= b {
        var j :| 0 <= j < |list[b]| && list[b][j].key == k;
        assert SlotOk(list[b][j], b, m, H, B);
      }
    }
  }

  lemma AllMoved(list: seq<seq<Slot>>, m: map<Bytes, nat>, done: map<Bytes, nat>, H: Hash, B: Hash)
    requires ListOk(list, m, H, B) && Moved(list, |list|, 0, m, done, B)
    ensures done == m
  {
    forall k | k in m ensures k in done {
      assert ChainOk(list[B(k)], B(k), m, H, B);
      var j :| 0 <= j < |list[B(k)]| && list[B(k)][j] == Slot(m[k], k, H(k));
    }
  }
}
