/** LRUCache: one shard of the block cache.  Handles are named by numbers, the
    two circular lists are sequences from oldest to newest. */
module LruCache {
  import opened Keys
  import opened Mvcc
  import opened HandleTables
  import opened Sequences

  datatype Handle = Handle(key: Bytes, hash: nat, charge: nat, inCache: bool, refs: nat)

  type Handles = map<nat, Handle>

  // ---- Lists ----

  function SetOf(s: seq<nat>): set<nat> {
    if |s| == 0 then {} else {s[0]} + SetOf(s[1..])
  }

  predicate NoDup(s: seq<nat>) {
    |s| == 0 || (s[0] !in SetOf(s[1..]) && NoDup(s[1..]))
  }

  lemma {:induction false} WithoutList(s: seq<nat>, x: nat)
    requires NoDup(s)
    ensures NoDup(Without(s, x)) && SetOf(Without(s, x)) == SetOf(s) - {x}
  {
    if |s| > 0 && s[0] != x {
      WithoutList(s[1..], x);
      assert ([s[0]] + Without(s[1..], x))[1..] == Without(s[1..], x);
    }
  }

  /** LRU_Append. */
  lemma {:induction false} AppendList(s: seq<nat>, x: nat)
    requires NoDup(s) && x !in SetOf(s)
    ensures NoDup(s + [x]) && SetOf(s + [x]) == SetOf(s) + {x}
  {
    if |s| == 0 {
      assert s + [x] == [x];
    } else {
      AppendList(s[1..], x);
      assert (s + [x])[1..] == s[1..] + [x];
    }
  }

  function Total(hs: Handles, s: seq<nat>): nat
    requires SetOf(s) <= hs.Keys
  {
    if |s| == 0 then 0 else hs[s[0]].charge + Total(hs, s[1..])
  }

  lemma {:induction false} TotalWithout(hs: Handles, s: seq<nat>, x: nat)
    requires NoDup(s) && SetOf(s) <= hs.Keys
    ensures SetOf(Without(s, x)) <= hs.Keys
    ensures Total(hs, Without(s, x)) == Total(hs, s) - if x in SetOf(s) then hs[x].charge else 0
  {
    WithoutList(s, x);
    if |s| > 0 && s[0] != x {
      TotalWithout(hs, s[1..], x);
      assert ([s[0]] + Without(s[1..], x))[1..] == Without(s[1..], x);
    }
  }

  lemma {:induction false} TotalAppend(hs: Handles, s: seq<nat>, x: nat)
    requires x in hs && SetOf(s) <= hs.Keys
    ensures SetOf(s + [x]) <= hs.Keys && Total(hs, s + [x]) == Total(hs, s) + hs[x].charge
  {
    if |s| == 0 {
      assert s + [x] == [x];
    } else {
      TotalAppend(hs, s[1..], x);
      assert (s + [x])[1..] == s[1..] + [x];
    }
  }

  lemma {:induction false} TotalSame(hs: Handles, hs': Handles, s: seq<nat>)
    requires SetOf(s) <= hs.Keys && SetOf(s) <= hs'.Keys && forall id :: id in SetOf(s) ==>
             hs[id].charge == hs'[id].charge
    ensures Total(hs, s) == Total(hs', s)
  {
    if |s| > 0 {
      TotalSame(hs, hs', s[1..]);
    }
  }

  // ---- What a shard keeps ----

  ghost function Unused(hs: Handles): set<nat> {
    set id | id in hs && hs[id].inCache && hs[id].refs == 1
  }

  ghost function Used(hs: Handles): set<nat> {
    set id | id in hs && hs[id].inCache && hs[id].refs >= 2
  }

  /** The cached entries are split exactly between the two lists. */
  ghost predicate ListsOk(hs: Handles, lru: seq<nat>, inUse: seq<nat>) {
    NoDup(lru) && NoDup(inUse) && SetOf(lru) == Unused(hs) && SetOf(inUse) == Used(hs)
  }

  /** The hash table holds exactly the cached entries, apart from `but`. */
  ghost predicate TableOk(hs: Handles, m: map<Bytes, nat>, H: Hash, but: Option<nat>) {
    && (forall id :: id in hs ==> hs[id].hash == H(hs[id].key))
    && (forall id :: id in hs && hs[id].inCache && but != Some(id) ==> hs[id].key in m && m[hs[id].key] == id)
    && (forall k :: k in m ==> m[k] in hs && hs[m[k]].inCache && hs[m[k]].key == k && but != Some(m[k]))
  }

  /** A reference is a client's or the cache's. */
  ghost predicate RefsOk(hs: Handles, held: multiset<nat>) {
    && (forall id :: id in hs ==> hs[id].refs > 0 && hs[id].refs == held[id] + if hs[id].inCache then 1 else 0)
    && (forall id :: id in held ==> id in hs)
  }

  ghost predicate UsageOk(hs: Handles, lru: seq<nat>, inUse: seq<nat>, usage: int)
    requires ListsOk(hs, lru, inUse)
  {
    usage == Total(hs, lru) + Total(hs, inUse)
  }

  ghost function Issued(n: nat): set<nat> {
    if n == 0 then {} else Issued(n - 1) + {n - 1}
  }

  lemma {:induction false} IssuedBelow(n: nat, id: nat)
    ensures id in Issued(n) <==> id < n
  {
    if n > 0 {
      IssuedBelow(n - 1, id);
    }
  }

  /** An entry is passed to its deleter once, when it is no longer there. */
  ghost predicate FinalsOk(hs: Handles, finals: seq<nat>, nextId: nat) {
    NoDup(finals) && SetOf(finals) == Issued(nextId) - hs.Keys && hs.Keys <= Issued(nextId)
  }

  // ---- Moves ----

  /** The first client takes hold: from the LRU list to the in-use list. */
  lemma Taken(hs: Handles, lru: seq<nat>, inUse: seq<nat>, e: nat, h: Handle, usage: int)
    requires ListsOk(hs, lru, inUse) && UsageOk(hs, lru, inUse, usage) && e in Unused(hs) && h == hs[e].(refs := 2)
    ensures ListsOk(hs[e := h], Without(lru, e), inUse + [e])
            && UsageOk(hs[e := h], Without(lru, e), inUse + [e], usage)
  {
    var hs' := hs[e := h];
    WithoutList(lru, e);
    AppendList(inUse, e);
    assert Unused(hs') == Unused(hs) - {e} && Used(hs') == Used(hs) + {e};
    TotalWithout(hs, lru, e);
    TotalAppend(hs, inUse, e);
    TotalSame(hs, hs', Without(lru, e));
    TotalSame(hs, hs', inUse + [e]);
  }

  /** The last client lets go: to the newest end of the LRU list. */
  lemma Returned(hs: Handles, lru: seq<nat>, inUse: seq<nat>, e: nat, h: Handle, usage: int)
    requires ListsOk(hs, lru, inUse) && UsageOk(hs, lru, inUse, usage) && e in Used(hs) && h == hs[e].(refs := 1)
    ensures ListsOk(hs[e := h], lru + [e], Without(inUse, e))
            && UsageOk(hs[e := h], lru + [e], Without(inUse, e), usage)
  {
    var hs' := hs[e := h];
    AppendList(lru, e);
    WithoutList(inUse, e);
    assert Unused(hs') == Unused(hs) + {e} && Used(hs') == Used(hs) - {e};
    TotalWithout(hs, inUse, e);
    TotalAppend(hs, lru, e);
    TotalSame(hs, hs', lru + [e]);
    TotalSame(hs, hs', Without(inUse, e));
  }

  /** A change that moves nothing between lists. */
  lemma Stays(hs: Handles, hs': Handles, lru: seq<nat>, inUse: seq<nat>, usage: int)
    requires ListsOk(hs, lru, inUse) && UsageOk(hs, lru, inUse, usage)
    requires Unused(hs') == Unused(hs) && Used(hs') == Used(hs)
    requires forall id :: id in hs && id in hs' ==> hs[id].charge == hs'[id].charge
    ensures ListsOk(hs', lru, inUse) && UsageOk(hs', lru, inUse, usage)
  {
    TotalSame(hs, hs', lru);
    TotalSame(hs, hs', inUse);
  }

  /** The cache lets go of an entry, which may or may not stay for its clients. */
  lemma Uncaching(hs: Handles, hs': Handles, lru: seq<nat>, inUse: seq<nat>, e: nat, usage: int)
    requires ListsOk(hs, lru, inUse) && UsageOk(hs, lru, inUse, usage) && e in hs && hs[e].inCache && hs[e].refs >= 1
    requires Unused(hs') == Unused(hs) - {e} && Used(hs') == Used(hs) - {e}
    requires forall id :: id in hs && id in hs' ==> hs[id].charge == hs'[id].charge
    ensures ListsOk(hs', Without(lru, e), Without(inUse, e))
            && UsageOk(hs', Without(lru, e), Without(inUse, e), usage - hs[e].charge)
  {
    WithoutList(lru, e);
    WithoutList(inUse, e);
    TotalWithout(hs, lru, e);
    TotalWithout(hs, inUse, e);
    TotalSame(hs, hs', Without(lru, e));
    TotalSame(hs, hs', Without(inUse, e));
    assert e in Unused(hs) <==> e !in Used(hs);
  }

  /** A new entry, in use. */
  lemma Entering(hs: Handles, lru: seq<nat>, inUse: seq<nat>, id: nat, h: Handle, usage: int)
    requires ListsOk(hs, lru, inUse) && UsageOk(hs, lru, inUse, usage) && id !in hs && h.inCache && h.refs >= 2
    ensures ListsOk(hs[id := h], lru, inUse + [id]) && UsageOk(hs[id := h], lru, inUse + [id], usage + h.charge)
  {
    var hs' := hs[id := h];
    AppendList(inUse, id);
    assert Unused(hs') == Unused(hs) && Used(hs') == Used(hs) + {id};
    TotalSame(hs, hs', lru);
    TotalSame(hs, hs', inUse);
    TotalAppend(hs', inUse, id);
  }

  // ---- The whole of it ----

  datatype Aspect = Lists | References | Deletions

  ghost predicate Sound(a: Aspect, hs: Handles, lru: seq<nat>, inUse: seq<nat>, usage: int, held: multiset<nat>,
        finals: seq<nat>, nextId: nat)
  {
    match a
    case Lists => ListsOk(hs, lru, inUse) && UsageOk(hs, lru, inUse, usage)
    case References => RefsOk(hs, held)
    case Deletions => FinalsOk(hs, finals, nextId)
  }

  /** Everything but the table. */
  ghost predicate Counted(hs: Handles, lru: seq<nat>, inUse: seq<nat>, usage: int, held: multiset<nat>,
        finals: seq<nat>, nextId: nat)
  {
    forall a: Aspect :: Sound(a, hs, lru, inUse, usage, held, finals, nextId)
  }

  lemma Parts(hs: Handles, lru: seq<nat>, inUse: seq<nat>, usage: int, held: multiset<nat>, finals: seq<nat>,
        nextId: nat)
    requires Counted(hs, lru, inUse, usage, held, finals, nextId)
    ensures ListsOk(hs, lru, inUse) && UsageOk(hs, lru, inUse, usage) && RefsOk(hs, held)
            && FinalsOk(hs, finals, nextId)
  {
    assert Sound(Lists, hs, lru, inUse, usage, held, finals, nextId)
           && Sound(References, hs, lru, inUse, usage, held, finals, nextId)
           && Sound(Deletions, hs, lru, inUse, usage, held, finals, nextId);
  }

  lemma HolderKnown(hs: Handles, lru: seq<nat>, inUse: seq<nat>, usage: int, held: multiset<nat>, finals: seq<nat>,
        nextId: nat, e: nat)
    requires Counted(hs, lru, inUse, usage, held, finals, nextId) && e in hs
    ensures hs[e].refs > 0 && (e in held <==> hs[e].refs > if hs[e].inCache then 1 else 0)
  {
    Parts(hs, lru, inUse, usage, held, finals, nextId);
  }

  lemma EmptyCounted()
    ensures Counted(map[], [], [], 0, multiset{}, [], 0)
  {}

  lemma TakenCounted(hs: Handles, lru: seq<nat>, inUse: seq<nat>, usage: int, held: multiset<nat>, finals: seq<nat>,
        nextId: nat, e: nat, h: Handle)
    requires Counted(hs, lru, inUse, usage, held, finals, nextId) && e in Unused(hs) && h == hs[e].(refs := 2)
    ensures Counted(hs[e := h], Without(lru, e), inUse + [e], usage, held + multiset{e}, finals, nextId)
  {
    Parts(hs, lru, inUse, usage, held, finals, nextId);
    Taken(hs, lru, inUse, e, h, usage);
  }

  lemma ReturnedCounted(hs: Handles, lru: seq<nat>, inUse: seq<nat>, usage: int, held: multiset<nat>, finals: seq<nat>,
        nextId: nat, e: nat, h: Handle)
    requires Counted(hs, lru, inUse, usage, held, finals, nextId) && e in held && e in Used(hs) && hs[e].refs == 2
             && h == hs[e].(refs := 1)
    ensures Counted(hs[e := h], lru + [e], Without(inUse, e), usage, held - multiset{e}, finals, nextId)
  {
    Parts(hs, lru, inUse, usage, held, finals, nextId);
    Returned(hs, lru, inUse, e, h, usage);
  }

  lemma RefCounted(hs: Handles, lru: seq<nat>, inUse: seq<nat>, usage: int, held: multiset<nat>, finals: seq<nat>,
        nextId: nat, e: nat, h: Handle)
    requires Counted(hs, lru, inUse, usage, held, finals, nextId) && e in hs && (hs[e].inCache ==> hs[e].refs >= 2)
    requires h == hs[e].(refs := hs[e].refs + 1)
    ensures Counted(hs[e := h], lru, inUse, usage, held + multiset{e}, finals, nextId)
  {
    Parts(hs, lru, inUse, usage, held, finals, nextId);
    assert Unused(hs[e := h]) == Unused(hs) && Used(hs[e := h]) == Used(hs);
    Stays(hs, hs[e := h], lru, inUse, usage);
  }

  lemma UnrefCounted(hs: Handles, lru: seq<nat>, inUse: seq<nat>, usage: int, held: multiset<nat>, finals: seq<nat>,
        nextId: nat, e: nat, h: Handle)
    requires Counted(hs, lru, inUse, usage, held, finals, nextId) && e in held && e in hs && hs[e].refs >= 2
             && (hs[e].inCache ==> hs[e].refs >= 3)
    requires h == hs[e].(refs := hs[e].refs - 1)
    ensures Counted(hs[e := h], lru, inUse, usage, held - multiset{e}, finals, nextId)
  {
    Parts(hs, lru, inUse, usage, held, finals, nextId);
    assert Unused(hs[e := h]) == Unused(hs) && Used(hs[e := h]) == Used(hs);
    Stays(hs, hs[e := h], lru, inUse, usage);
  }

  /** The last reference goes. */
  lemma LastUnrefCounted(hs: Handles, lru: seq<nat>, inUse: seq<nat>, usage: int, held: multiset<nat>, finals: seq<nat>,
        nextId: nat, e: nat)
    requires Counted(hs, lru, inUse, usage, held, finals, nextId) && e in held && e in hs && hs[e].refs == 1
    ensures !hs[e].inCache && Counted(hs - {e}, lru, inUse, usage, held - multiset{e}, finals + [e], nextId)
  {
    Parts(hs, lru, inUse, usage, held, finals, nextId);
    assert Unused(hs - {e}) == Unused(hs) && Used(hs - {e}) == Used(hs);
    Stays(hs, hs - {e}, lru, inUse, usage);
    FinalsAdd(hs, finals, nextId, e);
    assert held[e] == 1;
  }

  lemma FinalsAdd(hs: Handles, finals: seq<nat>, nextId: nat, e: nat)
    requires FinalsOk(hs, finals, nextId) && e in hs
    ensures FinalsOk(hs - {e}, finals + [e], nextId)
  {
    AppendList(finals, e);
    assert (hs - {e}).Keys == hs.Keys - {e};
  }

  function Uncached(h: Handle): Handle {
    h.(inCache := false, refs := if h.refs > 0 then h.refs - 1 else 0)
  }

  /** The cache's reference goes, and a client still holds the entry. */
  lemma UncacheCounted(hs: Handles, lru: seq<nat>, inUse: seq<nat>, usage: int, held: multiset<nat>, finals: seq<nat>,
        nextId: nat, e: nat)
    requires Counted(hs, lru, inUse, usage, held, finals, nextId) && e in hs && hs[e].inCache && e in held
    ensures Counted(hs[e := Uncached(hs[e])], Without(lru, e), Without(inUse, e), usage - hs[e].charge, held, finals,
            nextId)
  {
    Parts(hs, lru, inUse, usage, held, finals, nextId);
    var hs' := hs[e := Uncached(hs[e])];
    assert Unused(hs') == Unused(hs) - {e} && Used(hs') == Used(hs) - {e};
    Uncaching(hs, hs', lru, inUse, e, usage);
  }

  /** The cache's reference goes, and it was the last. */
  lemma EvictCounted(hs: Handles, lru: seq<nat>, inUse: seq<nat>, usage: int, held: multiset<nat>, finals: seq<nat>,
        nextId: nat, e: nat)
    requires Counted(hs, lru, inUse, usage, held, finals, nextId) && e in hs && hs[e].inCache && e !in held
    ensures Counted(hs - {e}, Without(lru, e), Without(inUse, e), usage - hs[e].charge, held, finals + [e], nextId)
  {
    Parts(hs, lru, inUse, usage, held, finals, nextId);
    var hs' := hs - {e};
    assert Unused(hs') == Unused(hs) - {e} && Used(hs') == Used(hs) - {e};
    Uncaching(hs, hs', lru, inUse, e, usage);
    FinalsAdd(hs, finals, nextId, e);
  }

  lemma AddCounted(hs: Handles, lru: seq<nat>, inUse: seq<nat>, usage: int, held: multiset<nat>, finals: seq<nat>,
        nextId: nat, h: Handle)
    requires Counted(hs, lru, inUse, usage, held, finals, nextId) && h.inCache && h.refs == 2
    ensures nextId !in hs
    ensures Counted(hs[nextId := h], lru, inUse + [nextId], usage + h.charge, held + multiset{nextId}, finals,
            nextId + 1)
  {
    Parts(hs, lru, inUse, usage, held, finals, nextId);
    IssuedBelow(nextId, nextId);
    assert nextId !in hs && nextId !in held;
    Entering(hs, lru, inUse, nextId, h, usage);
  }

  /** A new entry that is not cached: with capacity 0 only the caller has it. */
  lemma AddUncached(hs: Handles, lru: seq<nat>, inUse: seq<nat>, usage: int, held: multiset<nat>, finals: seq<nat>,
        nextId: nat, h: Handle)
    requires Counted(hs, lru, inUse, usage, held, finals, nextId) && !h.inCache && h.refs == 1
    ensures nextId !in hs
    ensures Counted(hs[nextId := h], lru, inUse, usage, held + multiset{nextId}, finals, nextId + 1)
  {
    Parts(hs, lru, inUse, usage, held, finals, nextId);
    IssuedBelow(nextId, nextId);
    assert nextId !in hs && nextId !in held;
    assert Unused(hs[nextId := h]) == Unused(hs) && Used(hs[nextId := h]) == Used(hs);
    Stays(hs, hs[nextId := h], lru, inUse, usage);
  }

  // ---- The table alongside ----

  /** Reference counts do not concern the table. */
  lemma TableUnmoved(hs: Handles, m: map<Bytes, nat>, H: Hash, but: Option<nat>, e: nat, h: Handle)
    requires TableOk(hs, m, H, but) && e in hs && h.key == hs[e].key && h.hash == hs[e].hash
             && h.inCache == hs[e].inCache
    ensures TableOk(hs[e := h], m, H, but)
  {}

  lemma TableDrops(hs: Handles, m: map<Bytes, nat>, H: Hash, e: nat)
    requires e in hs && (TableOk(hs, m, H, Some(e)) || (TableOk(hs, m, H, None) && !hs[e].inCache))
    ensures TableOk(hs - {e}, m, H, None)
  {}

  lemma TableUncaches(hs: Handles, m: map<Bytes, nat>, H: Hash, e: nat)
    requires TableOk(hs, m, H, Some(e)) && e in hs
    ensures TableOk(hs[e := Uncached(hs[e])], m, H, None)
  {}

  /** Taking an entry's key out of the table. */
  lemma TableRemoves(hs: Handles, m: map<Bytes, nat>, H: Hash, k: Bytes)
    requires TableOk(hs, m, H, None) && k in m
    ensures TableOk(hs, m - {k}, H, Some(m[k]))
  {}

  /** Putting a new entry's key in, possibly over another's. */
  lemma TableInserts(hs: Handles, m: map<Bytes, nat>, H: Hash, id: nat, h: Handle)
    requires TableOk(hs, m, H, None) && id !in hs && h.hash == H(h.key) && h.inCache
    ensures TableOk(hs[id := h], m[h.key := id], H, if h.key in m then Some(m[h.key]) else None)
  {}

  lemma TableIgnores(hs: Handles, m: map<Bytes, nat>, H: Hash, id: nat, h: Handle)
    requires TableOk(hs, m, H, None) && id !in hs && h.hash == H(h.key) && !h.inCache
    ensures TableOk(hs[id := h], m, H, None)
  {}

  // ---- The shard ----

  class LRUCache {
    const capacity: nat
    ghost const H: Hash
    const table: HandleTable
    var usage: int
    var lru: seq<nat>
    var inUse: seq<nat>
    var handles: Handles
    var nextId: nat
    var finals: seq<nat>              // entries passed to their deleters, in order
    ghost var held: multiset<nat>     // handles the clients hold

    /** The shard agrees with what the table stands for, apart from `but`. */
    ghost predicate Kept(but: Option<nat>)
      reads this, table`m
    {
      Counted(handles, lru, inUse, usage, held, finals, nextId) && TableOk(handles, table.m, H, but)
    }

    ghost predicate Valid()
      reads this, table
    {
      Kept(None) && table.Valid() && table.H == H
    }

    constructor (capacity: nat, ghost H: Hash)
      ensures Valid() && fresh(table) && this.capacity == capacity && held == multiset{} && handles == map[]
              && this.H == H
    {
      this.capacity, this.H := capacity, H;
      table := new HandleTable(H);
      usage, lru, inUse, handles, nextId, finals, held := 0, [], [], map[], 0, [], multiset{};
      EmptyCounted();
    }

    method Ref(e: nat)
      requires Kept(None) && e in handles
      modifies this`handles, this`lru, this`inUse, this`held
      ensures Kept(None) && held == old(held) + multiset{e}
      ensures lru == if old(handles[e].inCache) && old(handles[e].refs) == 1 then Without(old(lru), e) else old(lru)
    {
      HolderKnown(handles, lru, inUse, usage, held, finals, nextId, e);
      var h := handles[e].(refs := handles[e].refs + 1);
      TableUnmoved(handles, table.m, H, None, e, h);
      if handles[e].refs == 1 && handles[e].inCache {
        TakenCounted(handles, lru, inUse, usage, held, finals, nextId, e, h);
        lru, inUse, handles, held := Without(lru, e), inUse + [e], handles[e := h], held + multiset{e};
      } else {
        RefCounted(handles, lru, inUse, usage, held, finals, nextId, e, h);
        handles, held := handles[e := h], held + multiset{e};
      }
    }

    /** Unref for a client's reference. */
    method Release(e: nat)
      requires Kept(None) && e in held && e in handles
      modifies this
      ensures Kept(None) && held == old(held) - multiset{e} && usage == old(usage) && table.m == old(table.m)
      ensures finals == if old(handles[e].refs) == 1 then old(finals) + [e] else old(finals)
      ensures lru == if old(handles[e].inCache) && old(handles[e].refs) == 2 then old(lru) + [e] else old(lru)
    {
      HolderKnown(handles, lru, inUse, usage, held, finals, nextId, e);
      if handles[e].refs == 1 {
        Delete(e);
      } else {
        Unref(e);
      }
    }

    method Delete(e: nat)
      requires Kept(None) && e in held && e in handles && handles[e].refs == 1
      modifies this`finals, this`handles, this`held
      ensures Kept(None) && held == old(held) - multiset{e} && finals == old(finals) + [e]
    {
      LastUnrefCounted(handles, lru, inUse, usage, held, finals, nextId, e);
      TableDrops(handles, table.m, H, e);
      finals, handles, held := finals + [e], handles - {e}, held - multiset{e};
    }

    method Unref(e: nat)
      requires Kept(None) && e in held && e in handles && handles[e].refs >= 2
      modifies this`lru, this`inUse, this`handles, this`held
      ensures Kept(None) && held == old(held) - multiset{e}
      ensures lru == if old(handles[e].inCache) && old(handles[e].refs) == 2 then old(lru) + [e] else old(lru)
    {
      var h := handles[e].(refs := handles[e].refs - 1);
      TableUnmoved(handles, table.m, H, None, e, h);
      if handles[e].inCache && handles[e].refs == 2 {
        ReturnedCounted(handles, lru, inUse, usage, held, finals, nextId, e, h);
        lru, inUse, handles, held := lru + [e], Without(inUse, e), handles[e := h], held - multiset{e};
      } else {
        UnrefCounted(handles, lru, inUse, usage, held, finals, nextId, e, h);
        handles, held := handles[e := h], held - multiset{e};
      }
    }

    /** FinishErase of an entry that has already left the hash table. */
    method FinishErase(e: nat)
      requires Kept(Some(e)) && e in handles && handles[e].inCache
      modifies this`lru, this`inUse, this`usage, this`finals, this`handles
      ensures Kept(None)
      ensures usage == old(usage) - old(handles[e].charge)
      ensures lru == Without(old(lru), e)
      ensures finals == if e in old(held) then old(finals) else old(finals) + [e]
    {
      HolderKnown(handles, lru, inUse, usage, held, finals, nextId, e);
      if handles[e].refs == 1 {
        EraseLast(e);
      } else {
        EraseHeld(e);
      }
    }

    method EraseLast(e: nat)
      requires Kept(Some(e)) && e in handles && handles[e].inCache && handles[e].refs == 1
      modifies this`lru, this`inUse, this`usage, this`finals, this`handles
      ensures Kept(None) && e !in held
      ensures usage == old(usage) - old(handles[e].charge) && finals == old(finals) + [e]
      ensures lru == Without(old(lru), e)
    {
      HolderKnown(handles, lru, inUse, usage, held, finals, nextId, e);
      EvictCounted(handles, lru, inUse, usage, held, finals, nextId, e);
      TableDrops(handles, table.m, H, e);
      lru, inUse, usage := Without(lru, e), Without(inUse, e), usage - handles[e].charge;
      finals, handles := finals + [e], handles - {e};
    }

    method EraseHeld(e: nat)
      requires Kept(Some(e)) && e in handles && handles[e].inCache && handles[e].refs >= 2
      modifies this`lru, this`inUse, this`usage, this`handles
      ensures Kept(None) && e in held
      ensures usage == old(usage) - old(handles[e].charge)
      ensures lru == Without(old(lru), e)
    {
      HolderKnown(handles, lru, inUse, usage, held, finals, nextId, e);
      UncacheCounted(handles, lru, inUse, usage, held, finals, nextId, e);
      TableUncaches(handles, table.m, H, e);
      lru, inUse, usage := Without(lru, e), Without(inUse, e), usage - handles[e].charge;
      handles := handles[e := Uncached(handles[e])];
    }

    method Lookup(key: Bytes, hash: nat) returns (r: Option<nat>)
      requires Valid() && hash == H(key)
      modifies this`handles, this`lru, this`inUse, this`held
      ensures Valid()
      ensures r == if key in table.m then Some(table.m[key]) else None
      ensures held == if r.Some? then old(held) + multiset{r.value} else old(held)
      ensures r.Some? ==> r.value in old(handles)
                          && lru == if old(handles)[r.value].refs == 1 then Without(old(lru), r.value) else old(lru)
    {
      r := table.Lookup(key, hash);
      if r.Some? {
        Ref(r.value);
      }
    }

    method Erase(key: Bytes, hash: nat)
      requires Valid() && hash == H(key)
      modifies this`lru, this`inUse, this`usage, this`finals, this`handles, table
      ensures Valid() && table.m == old(table.m) - {key}
      ensures key !in old(table.m) ==> lru == old(lru) && inUse == old(inUse) && usage == old(usage)
                                       && finals == old(finals) && handles == old(handles)
      ensures key in old(table.m) ==>
                var e := old(table.m)[key];
                && e in old(handles) && usage == old(usage) - old(handles)[e].charge
                && lru == Without(old(lru), e)
                && finals == if e in old(held) then old(finals) else old(finals) + [e]
    {
      if key in table.m {
        TableRemoves(handles, table.m, H, key);
      }
      var r := table.Remove(key, hash);
      if r.Some? {
        FinishErase(r.value);
      }
    }

    /** One entry off the old end of the LRU list. */
    method EvictOldest()
      requires Valid() && |lru| > 0
      modifies this`lru, this`inUse, this`usage, this`finals, this`handles, table
      ensures Valid() && lru == old(lru)[1..] && finals == old(finals) + [old(lru)[0]]
      ensures old(lru)[0] in old(handles) && usage == old(usage) - old(handles)[old(lru)[0]].charge
      ensures Survives(old(table.m), table.m, held)
    {
      var e := lru[0];
      OldestUnheld(e);
      Erase(handles[e].key, handles[e].hash);
    }

    lemma OldestUnheld(e: nat)
      requires Kept(None) && |lru| > 0 && e == lru[0]
      ensures e in handles && e !in held && handles[e].key in table.m && table.m[handles[e].key] == e
              && handles[e].hash == H(handles[e].key)
    {
      Parts(handles, lru, inUse, usage, held, finals, nextId);
      assert e in SetOf(lru);
    }

    /** Evict from the old end until the shard fits or nothing unheld is left. */
    method Evict() returns (ghost k: nat)
      requires Valid()
      modifies this`lru, this`inUse, this`usage, this`finals, this`handles, table
      ensures Valid() && (usage <= capacity || lru == [])
      ensures k <= |old(lru)| && lru == old(lru)[k..] && finals == old(finals) + old(lru)[..k]
      ensures old(usage) <= capacity ==> k == 0
      ensures Survives(old(table.m), table.m, held)
    {
      k := 0;
      ghost var lru0, finals0 := lru, finals;
      while usage > capacity && |lru| > 0
        invariant Valid() && k <= |lru0| && lru == lru0[k..] && finals == finals0 + lru0[..k]
        invariant (old(usage) <= capacity ==> k == 0 && usage == old(usage)) && Survives(old(table.m), table.m, held)
        decreases |lru|
      {
        EvictOldest();
        TakeOne(lru0, finals0, k);
        k := k + 1;
      }
    }

    method Prune()
      requires Valid()
      modifies this`lru, this`inUse, this`usage, this`finals, this`handles, table
      ensures Valid() && lru == [] && finals == old(finals) + old(lru)
    {
      ghost var k, lru0, finals0 := 0, lru, finals;
      while |lru| > 0
        invariant Valid() && k <= |lru0| && lru == lru0[k..] && finals == finals0 + lru0[..k]
        decreases |lru|
      {
        EvictOldest();
        TakeOne(lru0, finals0, k);
        k := k + 1;
      }
      assert lru0[..k] == lru0;
    }

    /** The new entry on the in-use list, before the table knows of it. */
    method Enter(key: Bytes, hash: nat, charge: nat) returns (e: nat)
      requires Kept(None) && hash == H(key)
      modifies this`inUse, this`usage, this`handles, this`held, this`nextId
      ensures Counted(handles, lru, inUse, usage, held, finals, nextId)
      ensures TableOk(handles, table.m[key := e], H, if key in table.m then Some(table.m[key]) else None)
      ensures held == old(held) + multiset{e} && e == old(nextId) && usage == old(usage) + charge
      ensures e !in old(handles) && handles == old(handles)[e := Handle(key, hash, charge, true, 2)]
      ensures key in table.m ==> table.m[key] in handles && handles[table.m[key]].inCache
    {
      e := nextId;
      var h := Handle(key, hash, charge, true, 2);
      AddCounted(handles, lru, inUse, usage, held, finals, nextId, h);
      TableInserts(handles, table.m, H, e, h);
      inUse, usage, handles, held, nextId := inUse + [e], usage + charge, handles[e := h], held + multiset{e},
          nextId + 1;
    }

    /** With capacity 0 the entry is the caller's alone. */
    method EnterUncached(key: Bytes, hash: nat, charge: nat) returns (e: nat)
      requires Kept(None) && hash == H(key)
      modifies this`handles, this`held, this`nextId
      ensures Kept(None) && held == old(held) + multiset{e} && e == old(nextId)
    {
      e := nextId;
      var h := Handle(key, hash, charge, false, 1);
      AddUncached(handles, lru, inUse, usage, held, finals, nextId, h);
      TableIgnores(handles, table.m, H, e, h);
      handles, held, nextId := handles[e := h], held + multiset{e}, nextId + 1;
    }

    /** The new entry enters, and one with the same key leaves. */
    method AddEntry(key: Bytes, hash: nat, charge: nat) returns (e: nat)
      requires Valid() && hash == H(key)
      modifies this, table
      ensures Valid() && held == old(held) + multiset{e} && e == old(nextId) && table.m == old(table.m)[key := e]
      ensures key !in old(table.m) ==> usage == old(usage) + charge && lru == old(lru) && finals == old(finals)
      ensures key in old(table.m) ==>
                var o := old(table.m)[key];
                && o in old(handles) && usage == old(usage) + charge - old(handles)[o].charge
                   && lru == Without(old(lru), o)
                && finals == if o in old(held) then old(finals) else old(finals) + [o]
    {
      if key in table.m {
        TableRemoves(handles, table.m, H, key);
      }
      e := Enter(key, hash, charge);
      var replaced := table.Insert(Slot(e, key, hash));
      if replaced.Some? {
        FinishErase(replaced.value);
      }
    }

    /** The `k` oldest unheld entries make room for the new one. */
    method Insert(key: Bytes, hash: nat, charge: nat) returns (e: nat, ghost k: nat)
      requires Valid() && hash == H(key)
      modifies this, table
      ensures Valid() && held == old(held) + multiset{e} && e == old(nextId)
      ensures usage <= capacity || lru == []
      ensures capacity > 0 ==> key in table.m && table.m[key] == e
      ensures capacity == 0 || key !in old(table.m) ==> k <= |old(lru)| && lru == old(lru)[k..]
                                                        && finals == old(finals) + old(lru)[..k]
      ensures key !in old(table.m) && old(usage) + charge <= capacity ==> k == 0
      ensures capacity > 0 && key in old(table.m) ==>
                var o := old(table.m)[key];
                var rest := Without(old(lru), o);
                && o in old(handles) && k <= |rest| && lru == rest[k..]
                && finals == (if o in old(held) then old(finals) else old(finals) + [o]) + rest[..k]
                && (old(usage) + charge - old(handles)[o].charge <= capacity ==> k == 0)
    {
      if capacity > 0 {
        e := AddEntry(key, hash, charge);
      } else {
        e := EnterUncached(key, hash, charge);
      }
      k := Evict();
    }
  }

  lemma TakeOne(s: seq<nat>, front: seq<nat>, k: nat)
    requires k < |s|
    ensures s[k..][1..] == s[k + 1..] && front + s[..k] + [s[k..][0]] == front + s[..k + 1]
  {}

  /** Keys whose entries clients hold keep them. */
  ghost predicate Survives(m: map<Bytes, nat>, m': map<Bytes, nat>, held: multiset<nat>) {
    forall k :: k in m && m[k] in held ==> k in m' && m'[k] == m[k]
  }
}
