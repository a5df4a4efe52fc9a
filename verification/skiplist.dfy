/** SkipList: one writer links nodes in with single stores while any number of
    readers search without locks. */
module SkipLists {
  import opened Mvcc

  const MAX_HEIGHT: nat := 12

  /** Nodes are named by their keys; keys are ranks in the comparator's order. */
  datatype Node = Head | At(key: real)

  /** Whether key k comes after node x. */
  predicate After(x: Node, k: real) {
    x.Head? || x.key < k
  }

  predicate Linked(S: set<real>, x: Node) {
    x.Head? || x.key in S
  }

  /** o is what follows x in the sorted list of S; None stands for NULL. */
  ghost predicate IsNext(S: set<real>, x: Node, o: Option<real>) {
    match o
    case None => forall k :: k in S ==> !After(x, k)
    case Some(n) => n in S && After(x, n) && forall k :: k in S && After(x, k) ==> n <= k
  }

  /** x is the last node of S before k. */
  ghost predicate IsPrev(S: set<real>, k: real, x: Node) {
    Linked(S, x) && After(x, k) && forall j :: j in S && j < k ==> !After(x, j)
  }

  /** The next-pointers of one level. */
  type Links = map<Node, Option<real>>

  /** One level is the sorted list of S. */
  ghost predicate Chain(m: Links, S: set<real>) {
    forall x: Node :: Linked(S, x) ==> x in m && IsNext(S, x, m[x])
  }

  // ---- Sequential code: the search and the insertion ----

  /** KeyIsAfterNode: NULL counts as infinite. */
  predicate KeyIsAfterNode(key: real, n: Option<real>) {
    n.Some? && n.value < key
  }

  /** Levels are sorted lists, each a sublist of the one below, and those from
      maxHeight up are empty. */
  ghost predicate ListOk(links: seq<Links>, levels: seq<set<real>>, maxHeight: nat) {
    && |links| == |levels| == MAX_HEIGHT && 1 <= maxHeight <= MAX_HEIGHT
    && (forall l :: 0 <= l < MAX_HEIGHT ==> Chain(links[l], levels[l]))
    && (forall l, m :: 0 <= l <= m < MAX_HEIGHT ==> levels[m] <= levels[l])
    && (forall l :: maxHeight <= l < MAX_HEIGHT ==> levels[l] == {})
  }

  ghost function Ahead(S: set<real>, x: Node): set<real> {
    set k | k in S && After(x, k)
  }

  /** FindGreaterOrEqual on a list nobody is changing, with the prev array. */
  method FindGreaterOrEqual(links: seq<Links>, maxHeight: nat, key: real, ghost levels: seq<set<real>>)
      returns (next: Option<real>, prev: seq<Node>)
    requires ListOk(links, levels, maxHeight)
    ensures |prev| == MAX_HEIGHT && forall l :: 0 <= l < MAX_HEIGHT ==> IsPrev(levels[l], key, prev[l])
    ensures IsNext(levels[0], prev[0], next)
    ensures if next.None? then forall k :: k in levels[0] ==> k < key
            else next.value in levels[0] && next.value >= key && forall k :: k in levels[0] && k >= key ==>
                next.value <= k
  {
    prev := seq(MAX_HEIGHT, _ => Head);
    var x, level := Head, maxHeight - 1;
    while true
      invariant 0 <= level < maxHeight && |prev| == MAX_HEIGHT && Linked(levels[level], x) && After(x, key)
      invariant forall l :: level < l < MAX_HEIGHT ==> IsPrev(levels[l], key, prev[l])
      decreases level, Ahead(levels[level], x)
    {
      next := links[level][x];
      assert IsNext(levels[level], x, next);
      if KeyIsAfterNode(key, next) {
        assert next.value in Ahead(levels[level], x);
        x := At(next.value);
        assert next.value !in Ahead(levels[level], x);
      } else {
        prev := prev[level := x];
        assert IsPrev(levels[level], key, x);
        if level == 0 {
          return;
        }
        level := level - 1;
        assert levels[level + 1] <= levels[level];
      }
    }
  }

  /** Insert with nobody else about: the search, the height, then two stores a
      level from the bottom up. */
  method Insert(links: seq<Links>, maxHeight: nat, key: real, height: nat, ghost levels: seq<set<real>>)
      returns (links': seq<Links>, maxHeight': nat, ghost levels': seq<set<real>>)
    requires ListOk(links, levels, maxHeight) && key !in levels[0] && 1 <= height <= MAX_HEIGHT
    ensures ListOk(links', levels', maxHeight')
    ensures forall l :: 0 <= l < MAX_HEIGHT ==> levels'[l] == if l < height then levels[l] + {key} else levels[l]
  {
    var next, prev := FindGreaterOrEqual(links, maxHeight, key, levels);
    links', maxHeight', levels' := links, maxHeight, levels;
    if height > maxHeight {
      maxHeight' := height;
    }
    for i := 0 to height
      invariant ListOk(links', levels', maxHeight')
      invariant forall l :: 0 <= l < MAX_HEIGHT ==> levels'[l] == if l < i then levels[l] + {key} else levels[l]
    {
      assert levels[i] <= levels[0];
      assert Chain(links'[i], levels'[i]);
      var m := links'[i];
      OwnNextInvisible(m, levels'[i], key, m[prev[i]]);
      m := m[At(key) := m[prev[i]]];
      PublishChain(m, levels'[i], key, prev[i]);
      m := m[prev[i] := Some(key)];
      ghost var before := levels';
      links', levels' := links'[i := m], levels'[i := levels'[i] + {key}];
      StillNested(before, levels', i, key);
    }
  }

  lemma StillNested(levels: seq<set<real>>, levels': seq<set<real>>, i: nat, key: real)
    requires |levels| == |levels'| == MAX_HEIGHT && i < MAX_HEIGHT && levels' == levels[i := levels[i] + {key}]
    requires forall l, m :: 0 <= l <= m < MAX_HEIGHT ==> levels[m] <= levels[l]
    requires forall l :: 0 <= l < i ==> key in levels[l]
    ensures forall l, m :: 0 <= l <= m < MAX_HEIGHT ==> levels'[m] <= levels'[l]
  {
    forall l, m | 0 <= l <= m < MAX_HEIGHT ensures levels'[m] <= levels'[l] {
      assert levels[m] <= levels[l];
    }
  }

  /** Storing the new node's own pointer is invisible. */
  lemma OwnNextInvisible(m: Links, S: set<real>, key: real, o: Option<real>)
    requires Chain(m, S) && key !in S
    ensures Chain(m[At(key) := o], S)
  {}

  /** The publishing store keeps the level a sorted list, with the key in it. */
  lemma PublishChain(m: Links, S: set<real>, key: real, prev: Node)
    requires Chain(m, S) && key !in S && IsPrev(S, key, prev)
    requires At(key) in m && m[At(key)] == m[prev]
    ensures Chain(m[prev := Some(key)], S + {key})
  {
    var m', S' := m[prev := Some(key)], S + {key};
    forall x: Node | Linked(S', x) ensures x in m' && IsNext(S', x, m'[x]) {
      assert IsNext(S, prev, m[prev]);
      if x == prev {
      } else if x == At(key) {
      } else {
        assert IsNext(S, x, m[x]);
      }
    }
  }

  // ---- Concurrent readers ----

  /** Linking proceeds bottom up; `ready` says the node's own pointer at `level`
      has been stored. */
  datatype Writer = Idle | Inserting(key: real, height: nat, prev: seq<Node>, level: nat, ready: bool)

  /** FindGreaterOrEqual, FindLessThan, FindLast, and an iterator's Next. */
  datatype Search = AtLeast(target: real) | LessThan(target: real) | Last | Following

  /** `seen` is level 0 at the moment of the final load. */
  datatype Reader = Reading(what: Search, x: Node, level: nat) | Done(what: Search, from: Node, found: Node,
      seen: set<real>)

  datatype State = State(links: seq<Links>, levels: seq<set<real>>, maxHeight: nat, writer: Writer, readers: map<nat,
      Reader>)

  predicate GoesRight(what: Search, next: Option<real>) {
    match what
    case AtLeast(t) => KeyIsAfterNode(t, next)
    case LessThan(t) => KeyIsAfterNode(t, next)
    case Last => next.Some?
    case Following => false
  }

  /** Head stands for "none". */
  function Outcome(what: Search, x: Node, next: Option<real>): Node {
    if what.LessThan? || what.Last? then x else if next.Some? then At(next.value) else Head
  }

  /** What each search promises about the keys of level 0. */
  ghost predicate Answers(what: Search, from: Node, S: set<real>, found: Node) {
    match what
    case AtLeast(t) =>
      if found.Head? then forall k :: k in S ==> k < t
      else found.key in S && found.key >= t && forall k :: k in S && k >= t ==> found.key <= k
    case LessThan(t) => IsPrev(S, t, found)
    case Last => Linked(S, found) && forall k :: k in S ==> !After(found, k)
    case Following =>
      if found.Head? then forall k :: k in S ==> !After(from, k)
      else found.key in S && After(from, found.key) && forall k :: k in S && After(from, k) ==> found.key <= k
  }

  // ---- Steps ----

  /** Insert up to its first link store: the search, the height, the store to
      max_height_. */
  ghost predicate BeginInsert(s: State, s': State, key: real, height: nat, prev: seq<Node>) {
    && s.writer.Idle? && |s.levels| == MAX_HEIGHT && key !in s.levels[0] && 1 <= height <= MAX_HEIGHT
       && |prev| == height
    && (forall l :: 0 <= l < height ==> IsPrev(s.levels[l], key, prev[l]))
    && s' == s.(maxHeight := if height > s.maxHeight then height
       else s.maxHeight, writer := Inserting(key, height, prev, 0, false))
  }

  /** x->NoBarrier_SetNext(i, prev[i]->NoBarrier_Next(i)). */
  ghost predicate SetOwnNext(s: State, s': State) {
    && s.writer.Inserting? && !s.writer.ready
    && var w := s.writer;
       && w.level < |w.prev| && w.level < |s.links| && w.prev[w.level] in s.links[w.level]
       && var m := s.links[w.level];
          s' == s.(links := s.links[w.level := m[At(w.key) := m[w.prev[w.level]]]], writer := w.(ready := true))
  }

  /** prev[i]->SetNext(i, x): the store that makes the node visible at level i. */
  ghost predicate Publish(s: State, s': State) {
    && s.writer.Inserting? && s.writer.ready
    && var w := s.writer;
       && w.level < |w.prev| && w.level < |s.links| && w.level < |s.levels|
       && var m := s.links[w.level];
          s' == s.(links := s.links[w.level := m[w.prev[w.level] := Some(w.key)]],
                   levels := s.levels[w.level := s.levels[w.level] + {w.key}],
                   writer := if w.level + 1 == w.height then Idle
                       else Inserting(w.key, w.height, w.prev, w.level + 1, false))
  }

  /** A reader starts; the height it sees may be stale. */
  ghost predicate StartRead(s: State, s': State, id: nat, what: Search, height: nat) {
    && id !in s.readers && !what.Following? && 1 <= height <= s.maxHeight
    && s' == s.(readers := s.readers[id := Reading(what, Head, height - 1)])
  }

  /** An iterator at node x asks for the next one. */
  ghost predicate StartNext(s: State, s': State, id: nat, x: Node) {
    && id !in s.readers && |s.levels| == MAX_HEIGHT && Linked(s.levels[0], x)
    && s' == s.(readers := s.readers[id := Reading(Following, x, 0)])
  }

  /** One load of a next-pointer: move right, move down, or finish. */
  ghost predicate Load(s: State, s': State, id: nat) {
    && id in s.readers && s.readers[id].Reading?
    && var r := s.readers[id];
       && r.level < |s.links| && |s.levels| == MAX_HEIGHT && r.x in s.links[r.level]
       && var next := s.links[r.level][r.x];
          s' == s.(readers := s.readers[id :=
            if GoesRight(r.what, next) then Reading(r.what, At(next.value), r.level)
            else if r.level > 0 then Reading(r.what, r.x, r.level - 1)
            else Done(r.what, r.x, Outcome(r.what, r.x, next), s.levels[0])])
  }

  ghost predicate Next(s: State, s': State) {
    || (exists key, height, prev :: BeginInsert(s, s', key, height, prev)) || SetOwnNext(s, s') || Publish(s, s')
    || (exists id, what, height :: StartRead(s, s', id, what, height)) || (exists id, x :: StartNext(s, s', id, x))
    || (exists id :: Load(s, s', id))
  }

  // ---- Invariant ----

  ghost predicate WriterOk(s: State)
    requires |s.links| == |s.levels| == MAX_HEIGHT
  {
    s.writer.Inserting? ==>
      var w := s.writer;
      && |w.prev| == w.height <= s.maxHeight && w.level < w.height && w.height <= MAX_HEIGHT
      && (forall l :: w.level <= l < MAX_HEIGHT ==> w.key !in s.levels[l])
      && (forall l :: 0 <= l < w.level ==> w.key in s.levels[l])
      && (forall l :: w.level <= l < w.height ==> IsPrev(s.levels[l], w.key, w.prev[l]))
      && (w.ready ==> At(w.key) in s.links[w.level] && w.prev[w.level] in s.links[w.level]
                      && s.links[w.level][At(w.key)] == s.links[w.level][w.prev[w.level]])
  }

  ghost predicate ReaderOk(levels: seq<set<real>>, r: Reader)
    requires |levels| == MAX_HEIGHT
  {
    match r
    case Reading(what, x, level) =>
      && level < MAX_HEIGHT && Linked(levels[level], x) && (what.Following? ==> level == 0)
      && (what.AtLeast? ==> After(x, what.target)) && (what.LessThan? ==> After(x, what.target))
    case Done(what, from, found, seen) => Answers(what, from, seen, found) && seen <= levels[0]
  }

  ghost predicate Inv(s: State) {
    && ListOk(s.links, s.levels, s.maxHeight) && WriterOk(s)
    && forall id :: id in s.readers ==> ReaderOk(s.levels, s.readers[id])
  }

  // ---- Preservation ----

  lemma BeginInv(s: State, s': State, key: real, height: nat, prev: seq<Node>)
    requires Inv(s) && BeginInsert(s, s', key, height, prev)
    ensures Inv(s')
  {
    forall l | 0 <= l < MAX_HEIGHT ensures key !in s.levels[l] {
      assert s.levels[l] <= s.levels[0];
    }
  }

  lemma SetOwnNextInv(s: State, s': State)
    requires Inv(s) && SetOwnNext(s, s')
    ensures Inv(s')
  {
    var w := s.writer;
    OwnNextInvisible(s.links[w.level], s.levels[w.level], w.key, s.links[w.level][w.prev[w.level]]);
  }

  lemma PublishList(s: State, s': State)
    requires ListOk(s.links, s.levels, s.maxHeight) && WriterOk(s) && Publish(s, s')
    ensures ListOk(s'.links, s'.levels, s'.maxHeight)
  {
    var w := s.writer;
    PublishChain(s.links[w.level], s.levels[w.level], w.key, w.prev[w.level]);
    StillNested(s.levels, s'.levels, w.level, w.key);
  }

  /** A longer level leaves readers where they are. */
  lemma ReaderKept(levels: seq<set<real>>, levels': seq<set<real>>, r: Reader)
    requires |levels| == |levels'| == MAX_HEIGHT && ReaderOk(levels, r)
    requires forall l :: 0 <= l < MAX_HEIGHT ==> levels[l] <= levels'[l]
    ensures ReaderOk(levels', r)
  {}

  lemma PublishInv(s: State, s': State)
    requires Inv(s) && Publish(s, s')
    ensures Inv(s')
  {
    PublishList(s, s');
    forall id | id in s'.readers ensures ReaderOk(s'.levels, s'.readers[id]) {
      ReaderKept(s.levels, s'.levels, s.readers[id]);
    }
  }

  /** The final load answers for the very moment it happens. */
  lemma FinalLoad(S: set<real>, what: Search, x: Node, next: Option<real>)
    requires Linked(S, x) && IsNext(S, x, next) && !GoesRight(what, next)
    requires (what.AtLeast? ==> After(x, what.target)) && (what.LessThan? ==> After(x, what.target))
    ensures Answers(what, x, S, Outcome(what, x, next))
  {}

  lemma LoadReader(s: State, s': State, id: nat)
    requires Inv(s) && Load(s, s', id)
    ensures ReaderOk(s'.levels, s'.readers[id])
  {
    var r := s.readers[id];
    assert ReaderOk(s.levels, r);
    assert Chain(s.links[r.level], s.levels[r.level]);
    var next := s.links[r.level][r.x];
    assert IsNext(s.levels[r.level], r.x, next);
    if GoesRight(r.what, next) {
    } else if r.level > 0 {
      assert s.levels[r.level] <= s.levels[r.level - 1];
    } else {
      FinalLoad(s.levels[0], r.what, r.x, next);
    }
  }

  lemma NextInv(s: State, s': State)
    requires Inv(s) && Next(s, s')
    ensures Inv(s')
  {
    if key, height, prev :| BeginInsert(s, s', key, height, prev) {
      BeginInv(s, s', key, height, prev);
    } else if SetOwnNext(s, s') {
      SetOwnNextInv(s, s');
    } else if Publish(s, s') {
      PublishInv(s, s');
    } else if id :| Load(s, s', id) {
      LoadReader(s, s', id);
    }
  }

  // ---- Whole runs ----

  ghost predicate Init(s: State) {
    && |s.links| == |s.levels| == MAX_HEIGHT && s.maxHeight == 1 && s.writer.Idle? && s.readers == map[]
    && (forall l :: 0 <= l < MAX_HEIGHT ==> s.levels[l] == {})
    && (forall l :: 0 <= l < MAX_HEIGHT ==> Head in s.links[l] && s.links[l][Head] == None)
  }

  ghost predicate Run(trace: seq<State>) {
    && |trace| > 0 && Init(trace[0])
    && forall i :: 0 <= i < |trace| - 1 ==> Next(trace[i], trace[i + 1])
  }

  lemma {:induction false} RunInv(trace: seq<State>, n: nat)
    requires Run(trace) && n < |trace|
    ensures Inv(trace[n])
  {
    if n == 0 {
      forall l | 0 <= l < MAX_HEIGHT ensures Chain(trace[0].links[l], trace[0].levels[l]) {
        assert trace[0].levels[l] == {};
      }
    } else {
      RunInv(trace, n - 1);
      NextInv(trace[n - 1], trace[n]);
    }
  }

  /** Every level stays a sorted sublist of the level below. */
  lemma LevelsStaySorted(trace: seq<State>, n: nat)
    requires Run(trace) && n < |trace|
    ensures ListOk(trace[n].links, trace[n].levels, trace[n].maxHeight)
  {
    RunInv(trace, n);
  }

  /** Linearizability.  Whatever stores fell between a reader's loads, the load
      at which it finishes gives the right answer for level 0 as it is at that
      load. */
  lemma SearchIsLinearizable(trace: seq<State>, n: nat, id: nat)
    requires Run(trace) && n + 1 < |trace| && Load(trace[n], trace[n + 1], id) && trace[n + 1].readers[id].Done?
    ensures var r := trace[n + 1].readers[id];
            r.seen == trace[n].levels[0] && Answers(r.what, r.from, trace[n].levels[0], r.found)
  {
    RunInv(trace, n);
    LoadReader(trace[n], trace[n + 1], id);
  }

  /** A key once published stays, so a search that finishes later sees it. */
  lemma {:induction false} KeysStay(trace: seq<State>, m: nat, n: nat, l: nat)
    requires Run(trace) && m <= n < |trace| && l < MAX_HEIGHT
    ensures |trace[m].levels| == |trace[n].levels| == MAX_HEIGHT && trace[m].levels[l] <= trace[n].levels[l]
  {
    RunInv(trace, m);
    if m < n {
      KeysStay(trace, m, n - 1, l);
      RunInv(trace, n - 1);
      assert Next(trace[n - 1], trace[n]);
    }
  }

  /** What the sequential search hands to Insert is what the first step of an
      insertion asks for. */
  lemma SearchMeetsInsert(s: State, key: real, height: nat, prev: seq<Node>)
    requires Inv(s) && s.writer.Idle? && key !in s.levels[0] && 1 <= height <= MAX_HEIGHT && |prev| == MAX_HEIGHT
    requires forall l :: 0 <= l < MAX_HEIGHT ==> IsPrev(s.levels[l], key, prev[l])
    ensures exists s' :: BeginInsert(s, s', key, height, prev[..height])
  {
    var s' := s.(maxHeight := if height > s.maxHeight then height
        else s.maxHeight, writer := Inserting(key, height, prev[..height], 0, false));
    assert BeginInsert(s, s', key, height, prev[..height]);
  }
}
