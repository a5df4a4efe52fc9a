/** The engine as a state machine: writes that publish a batch after inserting
    it, memtable switches, flushes, compactions that run while the database is
    unlocked, snapshots, and reads that pin what they started from. */
module Lsm {
  import opened Keys
  import opened Mvcc
  import opened Levels
  import opened VersionGet
  import opened Inputs
  import opened Compactions
  import opened Install

  // ---- What a read looks at ----

  /** The memtable, the immutable memtable and the version of one read. */
  datatype View = View(mem: set<Entry>, imm: set<Entry>, L: seq<set<File>>)

  ghost function Entries(v: View): set<Entry> {
    v.mem + (v.imm + All(v.L))
  }

  /** Shallower layers hold only newer entries, all the way down. */
  ghost predicate ViewOk(v: View) {
    && Layout(v.L)
    && Newer(v.imm, All(v.L))
    && Newer(v.mem, v.imm + All(v.L))
    && DistinctSeqs(Entries(v))
  }

  /** DBImpl::Get: the memtable, then the immutable one, then the version. */
  method Get(mem: seq<Entry>, imm: Option<seq<Entry>>, levels: seq<seq<File>>, k: UserKey, s: nat) returns (r: Answer)
    requires SortedEntries(mem) && (imm.Some? ==> SortedEntries(imm.value))
    requires VersionOk(levels) && DistinctNumbers(levels[0])
    requires ViewOk(View(Elems(mem), if imm.Some? then Elems(imm.value) else {}, LevelSets(levels)))
    ensures r == Read(Entries(View(Elems(mem), if imm.Some? then Elems(imm.value) else {}, LevelSets(levels))), k, s)
  {
    ghost var M, I := Elems(mem), if imm.Some? then Elems(imm.value) else {};
    ghost var A := All(LevelSets(levels));
    ReadLayers(M, I + A, k, s);
    ReadLayers(I, A, k, s);
    var hit := MemGet(mem, k, s);
    if hit.Some? {
      VisibleIs(M, k, s, hit.value);
      return AnswerOf(hit);
    }
    if imm.Some? {
      hit := MemGet(imm.value, k, s);
      if hit.Some? {
        VisibleIs(I, k, s, hit.value);
        return AnswerOf(hit);
      }
    }
    r := VersionGet.Get(levels, k, s);
  }

  /** MemTable::Get: seek the sorted entries, then compare the user key. */
  function MemGet(es: seq<Entry>, k: UserKey, s: nat): (r: Option<Entry>)
    requires SortedEntries(es)
    ensures r.Some? ==> IsVisible(Elems(es), k, s, r.value)
    ensures r.None? ==> !HasCandidate(Elems(es), k, s)
  {
    SeekIsRead(es, k, s);
    var i := LowerBound(es, LookupKey(k, s));
    if i < |es| && es[i].user == k then Some(es[i]) else None
  }

  // ---- States ----

  /** A read in flight: its snapshot, the memtable it pinned (by position in
      the list of all memtables), whether it pinned an immutable one, and its
      version. */
  datatype Reader = Reader(snap: nat, mem: nat, hasImm: bool, L: seq<set<File>>)

  datatype Background = Idle | Running(level: nat, in0: set<File>, in1: set<File>, smallest: nat)

  /** The leader's batch; the first `done` entries are in the memtable. */
  datatype Write = NoWrite | Writing(batch: seq<Entry>, done: nat)

  /** `hist` is every entry ever inserted; `floor` is the largest smallest
      snapshot any installed compaction has used. */
  datatype State = State(
    hist: set<Entry>, floor: nat,
    tables: seq<set<Entry>>, hasImm: bool, L: seq<set<File>>,
    lastSeq: nat, write: Write, snapshots: multiset<nat>,
    background: Background, readers: map<nat, Reader>, nextFile: nat)

  ghost function ViewOf(tables: seq<set<Entry>>, r: Reader): View
    requires r.mem < |tables| && (r.hasImm ==> r.mem > 0)
  {
    View(tables[r.mem], if r.hasImm then tables[r.mem - 1] else {}, r.L)
  }

  /** A read that starts now with the given snapshot. */
  ghost function ReaderNow(s: State, snap: nat): Reader
    requires |s.tables| > 0
  {
    Reader(snap, |s.tables| - 1, s.hasImm, s.L)
  }

  ghost predicate ReaderIds(s: State, r: Reader) {
    r.mem < |s.tables| && (r.hasImm ==> r.mem > 0)
  }

  ghost predicate TablesOk(s: State) {
    |s.tables| > 0 && (s.hasImm ==> |s.tables| > 1)
  }

  ghost function Now(s: State): View
    requires TablesOk(s)
  {
    ViewOf(s.tables, ReaderNow(s, 0))
  }

  lemma NowNewLevels(s: State, s': State)
    requires TablesOk(s) && s'.tables == s.tables && s'.hasImm == s.hasImm
    ensures Now(s') == Now(s).(L := s'.L)
  {}

  /** The newest sequence number in any memtable. */
  function Top(s: State): nat {
    s.lastSeq + if s.write.Writing? then s.write.done else 0
  }

  /** What the read will answer, for every key, is what its snapshot saw. */
  ghost predicate ReaderOk(s: State, r: Reader) {
    && ReaderIds(s, r) && r.snap <= s.lastSeq
    && ViewOk(ViewOf(s.tables, r))
    && Entries(ViewOf(s.tables, r)) <= s.hist
    && forall k: UserKey :: Read(Entries(ViewOf(s.tables, r)), k, r.snap) == Read(s.hist, k, r.snap)
  }

  ghost predicate HistOk(s: State) {
    DistinctSeqs(s.hist) && forall e :: e in s.hist ==> e.sn <= Top(s)
  }

  ghost predicate WriteOk(s: State) {
    && s.lastSeq < MAX_SEQUENCE
    && (s.write.Writing? ==>
          && s.write.done <= |s.write.batch| && s.lastSeq + |s.write.batch| < MAX_SEQUENCE
          && forall i :: 0 <= i < |s.write.batch| ==> s.write.batch[i].sn == s.lastSeq + 1 + i)
  }

  /** No live snapshot is below the floor, nor below a running compaction. */
  ghost predicate SnapshotsOk(s: State) {
    && s.floor <= s.lastSeq
    && (forall x :: x in s.snapshots ==> s.floor <= x <= s.lastSeq)
    && (s.background.Running? ==>
          && s.background.smallest <= s.lastSeq
          && forall x :: x in s.snapshots ==> s.background.smallest <= x)
  }

  ghost predicate CompactionOk(L: seq<set<File>>, b: Background) {
    b.Running? ==>
      && b.level + 1 < NUM_LEVELS && |L| == NUM_LEVELS
      && Picked(L, b.level, b.in0, b.in1)
      && KeyClosed(L[b.level], b.in0) && KeyClosed(L[b.level + 1], b.in1)
  }

  ghost predicate ReadersOk(s: State) {
    forall id :: id in s.readers ==> ReaderOk(s, s.readers[id])
  }

  ghost predicate Inv(s: State) {
    && TablesOk(s)
    && ViewOk(Now(s)) && Entries(Now(s)) <= s.hist
    && HistOk(s) && WriteOk(s) && SnapshotsOk(s) && CompactionOk(s.L, s.background)
    && SameAnswers(Entries(Now(s)), s.hist, s.floor)
    && Numbers(s.L, s.nextFile)
    && ReadersOk(s)
  }

  /** Reads in flight do not notice a step that leaves the history and their
      memtables alone. */
  lemma ReadersUndisturbed(s: State, s': State)
    requires ReadersOk(s) && s'.hist == s.hist && s.lastSeq <= s'.lastSeq
    requires |s.tables| <= |s'.tables| && s'.tables[..|s.tables|] == s.tables
    requires forall id :: id in s'.readers ==> id in s.readers && s'.readers[id] == s.readers[id]
    ensures ReadersOk(s')
  {
    forall id | id in s'.readers ensures ReaderOk(s', s'.readers[id]) {
      var r := s.readers[id];
      assert ReaderOk(s, r);
      assert s'.tables[r.mem] == s'.tables[..|s.tables|][r.mem];
      assert r.hasImm ==> s'.tables[r.mem - 1] == s'.tables[..|s.tables|][r.mem - 1];
      assert ViewOf(s'.tables, r) == ViewOf(s.tables, r);
    }
  }

  ghost predicate Init(s: State) {
    s == State({}, 0, [{}], false, seq(NUM_LEVELS, _ => {}), 0, NoWrite, multiset{}, Idle, map[], 1)
  }

  lemma InitInv(s: State)
    requires Init(s)
    ensures Inv(s)
  {
    assert All(s.L) == {};
    assert Entries(Now(s)) == {};
  }

  // ---- Writes ----

  /** The leader numbers its batch from LastSequence + 1. */
  ghost predicate BeginWrite(s: State, s': State, batch: seq<Entry>) {
    && s.write.NoWrite? && s.lastSeq + |batch| < MAX_SEQUENCE
    && (forall i :: 0 <= i < |batch| ==> batch[i].sn == s.lastSeq + 1 + i)
    && s' == s.(write := Writing(batch, 0))
  }

  /** One MemTable::Add, with the database unlocked. */
  ghost predicate Insert(s: State, s': State) {
    && s.write.Writing? && s.write.done < |s.write.batch| && |s.tables| > 0
    && var e := s.write.batch[s.write.done];
       var last := |s.tables| - 1;
       s' == s.(hist := {e} + s.hist, tables := s.tables[last := {e} + s.tables[last]],
                write := s.write.(done := s.write.done + 1))
  }

  /** SetLastSequence: the whole batch becomes visible at once. */
  ghost predicate Publish(s: State, s': State) {
    && s.write.Writing? && s.write.done == |s.write.batch|
    && s' == s.(lastSeq := s.lastSeq + |s.write.batch|, write := NoWrite)
  }

  lemma InsertView(v: View, e: Entry)
    requires ViewOk(v) && AllBelow(Entries(v), e.sn)
    ensures ViewOk(v.(mem := {e} + v.mem))
    ensures Entries(v.(mem := {e} + v.mem)) == {e} + Entries(v)
  {
    assert forall d :: d in v.imm + All(v.L) ==> d in Entries(v);
  }

  lemma InsertReader(s: State, s': State, r: Reader)
    requires Insert(s, s') && WriteOk(s) && HistOk(s) && ReaderOk(s, r)
    ensures ReaderOk(s', r)
  {
    var e := s.write.batch[s.write.done];
    var v, v' := ViewOf(s.tables, r), ViewOf(s'.tables, r);
    assert AllBelow(Entries(v), e.sn) && AllBelow(s.hist, e.sn);
    InsertView(v, e);
    assert v' == v || v' == v.(mem := {e} + v.mem);
    forall k: UserKey ensures Read(Entries(v'), k, r.snap) == Read(s'.hist, k, r.snap) {
      assert Read(Entries(v), k, r.snap) == Read(s.hist, k, r.snap);
      ReadInsert(Entries(v), e, k, r.snap);
      ReadInsert(s.hist, e, k, r.snap);
    }
  }

  lemma NowInsert(s: State, s': State)
    requires TablesOk(s) && Insert(s, s')
    ensures TablesOk(s') && Now(s') == Now(s).(mem := {s.write.batch[s.write.done]} + Now(s).mem)
  {}

  lemma InsertNow(s: State, s': State)
    requires TablesOk(s) && ViewOk(Now(s)) && Insert(s, s') && Entries(Now(s)) <= s.hist && HistOk(s) && WriteOk(s)
    requires SameAnswers(Entries(Now(s)), s.hist, s.floor)
    ensures TablesOk(s') && ViewOk(Now(s')) && Entries(Now(s')) <= s'.hist
    ensures SameAnswers(Entries(Now(s')), s'.hist, s.floor)
  {
    var e := s.write.batch[s.write.done];
    assert AllBelow(Entries(Now(s)), e.sn) && AllBelow(s.hist, e.sn);
    NowInsert(s, s');
    InsertView(Now(s), e);
    SameAnswersInsert(Entries(Now(s)), s.hist, e, s.floor);
  }

  lemma InsertReaders(s: State, s': State)
    requires Insert(s, s') && WriteOk(s) && HistOk(s) && ReadersOk(s)
    ensures ReadersOk(s')
  {
    forall id | id in s'.readers ensures ReaderOk(s', s'.readers[id]) {
      InsertReader(s, s', s.readers[id]);
    }
  }

  lemma InsertKeepsInv(s: State, s': State)
    requires Inv(s) && Insert(s, s')
    ensures Inv(s')
  {
    InsertNow(s, s');
    InsertReaders(s, s');
    assert HistOk(s');
  }

  // ---- Memtable switch and flush ----

  /** MakeRoomForWrite: the full memtable becomes immutable. */
  ghost predicate Switch(s: State, s': State) {
    && !s.hasImm && s.write.NoWrite? && |s.tables| > 0
    && s' == s.(tables := s.tables + [{}], hasImm := true)
  }

  lemma SwitchKeepsInv(s: State, s': State)
    requires Inv(s) && Switch(s, s')
    ensures Inv(s')
  {
    var v, v' := Now(s), Now(s');
    assert v'.mem == {} && v'.imm == v.mem && v.imm == {};
    assert v.imm + All(v.L) == All(v.L);
    assert Entries(v') == Entries(v);
    ReadersUndisturbed(s, s');
  }

  /** CompactMemTable: the immutable memtable becomes a table file; an empty one
      leaves no file.  Not while a compaction runs. */
  ghost predicate Flush(s: State, s': State, level: nat, f: File) {
    && s.hasImm && |s.tables| > 1 && s.background.Idle?
    && var I := s.tables[|s.tables| - 2];
       if I == {} then s' == s.(hasImm := false)
       else
         && FileOk(f) && Contents(f) == I && f.number == s.nextFile
         && level < |s.L| && FlushTarget(s.L, level, f)
         && s' == s.(hasImm := false, L := AddFile(s.L, level, f), nextFile := s.nextFile + 1)
  }

  lemma FlushView(v: View, level: nat, f: File)
    requires ViewOk(v) && FileOk(f) && Contents(f) == v.imm && FlushTarget(v.L, level, f) && Numbers(v.L, f.number)
    ensures ViewOk(View(v.mem, {}, AddFile(v.L, level, f)))
    ensures Entries(View(v.mem, {}, AddFile(v.L, level, f))) == Entries(v)
  {
    assert DistinctSeqs(All(v.L) + Contents(f)) by {
      assert forall e :: e in All(v.L) + Contents(f) ==> e in Entries(v);
    }
    FlushKeepsLayout(v.L, level, f);
    AddFileEntries(v.L, level, f);
    assert {} + All(AddFile(v.L, level, f)) == v.imm + All(v.L);
  }

  lemma FlushNumbers(L: seq<set<File>>, level: nat, f: File)
    requires level < |L| && Numbers(L, f.number)
    ensures Numbers(AddFile(L, level, f), f.number + 1)
  {}

  lemma FlushNow(s: State, s': State, level: nat, f: File)
    requires TablesOk(s) && ViewOk(Now(s)) && Flush(s, s', level, f) && Numbers(s.L, s.nextFile)
    ensures TablesOk(s') && ViewOk(Now(s')) && Entries(Now(s')) == Entries(Now(s))
    ensures Numbers(s'.L, s'.nextFile)
  {
    if Now(s).imm == {} {
      assert Now(s') == Now(s);
    } else {
      FlushView(Now(s), level, f);
      FlushNumbers(s.L, level, f);
      assert Now(s') == View(Now(s).mem, {}, AddFile(s.L, level, f));
    }
  }

  lemma FlushKeepsInv(s: State, s': State, level: nat, f: File)
    requires Inv(s) && Flush(s, s', level, f)
    ensures Inv(s')
  {
    FlushNow(s, s', level, f);
    ReadersUndisturbed(s, s');
  }

  // ---- Compaction ----

  /** The oldest live snapshot, or LastSequence when there is none. */
  ghost predicate IsSmallestSnapshot(s: State, x: nat) {
    if s.snapshots == multiset{} then x == s.lastSeq
    else x in s.snapshots && forall y :: y in s.snapshots ==> x <= y
  }

  /** A compaction starts: inputs picked, smallest snapshot fixed, database
      unlocked.  Closure on user keys is a hypothesis above level 0. */
  ghost predicate BeginCompaction(s: State, s': State, level: nat, in0: set<File>, in1: set<File>, smallest: nat) {
    && s.background.Idle? && level + 1 < NUM_LEVELS && |s.L| == NUM_LEVELS
    && Picked(s.L, level, in0, in1)
    && (level > 0 ==> KeyClosed(s.L[level], in0)) && KeyClosed(s.L[level + 1], in1)
    && IsSmallestSnapshot(s, smallest)
    && s' == s.(background := Running(level, in0, in1, smallest))
  }

  lemma BeginCompactionKeepsInv(s: State, s': State, level: nat, in0: set<File>, in1: set<File>, smallest: nat)
    requires Inv(s) && BeginCompaction(s, s', level, in0, in1, smallest)
    ensures Inv(s')
  {
    if level == 0 {
      LevelZeroClosed(s.L, in0, in1);
    }
    assert Now(s') == Now(s);
    ReadersUndisturbed(s, s');
  }

  /** The compaction's outputs replace its inputs. */
  ghost predicate InstallCompaction(s: State, s': State, outs: set<File>, nextFile: nat) {
    && s.background.Running?
    && var Running(level, in0, in1, smallest) := s.background;
       && level + 1 < |s.L|
       && (forall f :: f in outs ==> FileOk(f) && f.number < nextFile) && DisjointFiles(outs)
       && EntriesIn(outs) == Survivors(EntriesIn(in0 + in1), s.L, level, smallest)
       && s.nextFile <= nextFile
       && s' == s.(L := Installed(s.L, level, in0, in1, outs), background := Idle, nextFile := nextFile,
                   floor := if s.floor < smallest then smallest else s.floor)
  }

  lemma InstallView(v: View, level: nat, in0: set<File>, in1: set<File>, outs: set<File>, smallest: nat)
    requires ViewOk(v) && Compacts(v.L, level, in0, in1, outs)
    requires EntriesIn(outs) == Survivors(EntriesIn(in0 + in1), v.L, level, smallest)
    ensures ViewOk(v.(L := Installed(v.L, level, in0, in1, outs)))
    ensures Entries(v.(L := Installed(v.L, level, in0, in1, outs))) <= Entries(v)
    ensures SameAnswers(Entries(v), Entries(v.(L := Installed(v.L, level, in0, in1, outs))), smallest)
  {
    var L' := Installed(v.L, level, in0, in1, outs);
    InstallKeepsLayout(v.L, level, in0, in1, outs);
    InstalledEntries(v.L, level, in0, in1, outs);
    assert All(L') <= All(v.L);
    var M := v.mem + v.imm;
    assert Newer(M, All(v.L));
    assert Entries(v) == M + All(v.L);
    assert Entries(v.(L := L')) == M + All(L');
    CompactionKeepsReads(M, v.L, level, in0, in1, outs, smallest);
  }

  lemma InstallNumbers(L: seq<set<File>>, level: nat, in0: set<File>, in1: set<File>, outs: set<File>, n: nat, n': nat)
    requires level + 1 < |L| && Numbers(L, n) && n <= n' && forall f :: f in outs ==> f.number < n'
    ensures Numbers(Installed(L, level, in0, in1, outs), n')
  {
    var L' := Installed(L, level, in0, in1, outs);
    forall l: int, f: File | 0 <= l < |L'| && f in L'[l] ensures f.number < n' {
      assert f in L[l] || f in outs;
    }
  }

  lemma InstallCompacts(s: State, s': State, outs: set<File>, nextFile: nat)
    requires Layout(s.L) && InstallCompaction(s, s', outs, nextFile) && CompactionOk(s.L, s.background)
    ensures Compacts(s.L, s.background.level, s.background.in0, s.background.in1, outs)
  {
    assert EntriesIn(outs) <= EntriesIn(s.background.in0 + s.background.in1);
  }

  lemma InstallNow(s: State, s': State, outs: set<File>, nextFile: nat)
    requires TablesOk(s) && ViewOk(Now(s)) && InstallCompaction(s, s', outs, nextFile)
    requires CompactionOk(s.L, s.background)
    ensures TablesOk(s') && ViewOk(Now(s')) && Entries(Now(s')) <= Entries(Now(s))
    ensures SameAnswers(Entries(Now(s)), Entries(Now(s')), s.background.smallest)
  {
    InstallCompacts(s, s', outs, nextFile);
    InstallView(Now(s), s.background.level, s.background.in0, s.background.in1, outs, s.background.smallest);
    NowNewLevels(s, s');
  }

  lemma InstallCounters(s: State, s': State, outs: set<File>, nextFile: nat)
    requires InstallCompaction(s, s', outs, nextFile) && Numbers(s.L, s.nextFile)
    ensures Numbers(s'.L, s'.nextFile)
  {
    var Running(level, in0, in1, smallest) := s.background;
    InstallNumbers(s.L, level, in0, in1, outs, s.nextFile, nextFile);
  }

  lemma InstallKeepsInv(s: State, s': State, outs: set<File>, nextFile: nat)
    requires Inv(s) && InstallCompaction(s, s', outs, nextFile)
    ensures Inv(s')
  {
    InstallNow(s, s', outs, nextFile);
    SameAnswersTrans(Entries(Now(s)), Entries(Now(s')), s.hist, s.floor, s.background.smallest);
    InstallCounters(s, s', outs, nextFile);
    ReadersUndisturbed(s, s');
  }

  /** IsTrivialMove: one file and nothing of the next level; it just moves. */
  ghost predicate TrivialMove(s: State, s': State, level: nat, f: File) {
    && s.background.Idle? && level + 1 < NUM_LEVELS && |s.L| == NUM_LEVELS
    && Picked(s.L, level, {f}, {})
    && (level > 0 ==> KeyClosed(s.L[level], {f}))
    && s' == s.(L := Installed(s.L, level, {f}, {}, {f}))
  }

  /** Installing outputs with the inputs' entries leaves the entries alone. */
  lemma MoveView(v: View, level: nat, in0: set<File>, in1: set<File>, outs: set<File>)
    requires ViewOk(v) && Compacts(v.L, level, in0, in1, outs) && EntriesIn(outs) == EntriesIn(in0 + in1)
    ensures ViewOk(v.(L := Installed(v.L, level, in0, in1, outs)))
    ensures Entries(v.(L := Installed(v.L, level, in0, in1, outs))) == Entries(v)
  {
    InstallKeepsLayout(v.L, level, in0, in1, outs);
    InstalledEntries(v.L, level, in0, in1, outs);
  }

  lemma MoveCompacts(L: seq<set<File>>, level: nat, f: File)
    requires level + 1 < NUM_LEVELS && Layout(L) && Picked(L, level, {f}, {})
    requires level > 0 ==> KeyClosed(L[level], {f})
    ensures Compacts(L, level, {f}, {}, {f}) && EntriesIn({f}) == EntriesIn({f} + {})
  {
    if level == 0 {
      LevelZeroClosed(L, {f}, {});
    }
    assert {f} + {} == {f};
    assert f in {f} && f in L[level];
  }

  lemma MoveNow(s: State, s': State, level: nat, f: File)
    requires TablesOk(s) && ViewOk(Now(s)) && TrivialMove(s, s', level, f)
    ensures TablesOk(s') && ViewOk(Now(s')) && Entries(Now(s')) == Entries(Now(s))
  {
    MoveCompacts(s.L, level, f);
    MoveView(Now(s), level, {f}, {}, {f});
    NowNewLevels(s, s');
  }

  lemma MoveCounters(s: State, s': State, level: nat, f: File)
    requires TrivialMove(s, s', level, f) && Numbers(s.L, s.nextFile)
    ensures Numbers(s'.L, s'.nextFile)
  {
    assert f in {f} && f in s.L[level];
    InstallNumbers(s.L, level, {f}, {}, {f}, s.nextFile, s.nextFile);
  }

  lemma MoveKeepsInv(s: State, s': State, level: nat, f: File)
    requires Inv(s) && TrivialMove(s, s', level, f)
    ensures Inv(s')
  {
    MoveNow(s, s', level, f);
    MoveCounters(s, s', level, f);
    ReadersUndisturbed(s, s');
  }

  // ---- Snapshots and reads ----

  ghost predicate TakeSnapshot(s: State, s': State) {
    s' == s.(snapshots := s.snapshots + multiset{s.lastSeq})
  }

  ghost predicate ReleaseSnapshot(s: State, s': State, x: nat) {
    x in s.snapshots && s' == s.(snapshots := s.snapshots - multiset{x})
  }

  /** A read at a live snapshot, or at LastSequence when none is given. */
  ghost predicate BeginRead(s: State, s': State, id: nat, snap: nat) {
    && id !in s.readers && |s.tables| > 0
    && (snap == s.lastSeq || snap in s.snapshots)
    && s' == s.(readers := s.readers[id := ReaderNow(s, snap)])
  }

  ghost predicate EndRead(s: State, s': State, id: nat) {
    id in s.readers && s' == s.(readers := s.readers - {id})
  }

  lemma BeginReadKeepsInv(s: State, s': State, id: nat, snap: nat)
    requires Inv(s) && BeginRead(s, s', id, snap)
    ensures Inv(s')
  {
    var r := ReaderNow(s, snap);
    assert ViewOf(s.tables, r) == Now(s);
    assert Now(s') == Now(s);
    assert snap >= s.floor;
    forall k: UserKey ensures Read(Entries(Now(s)), k, snap) == Read(s.hist, k, snap) {}
    assert ReaderOk(s, r);
    forall i | i in s'.readers ensures ReaderOk(s', s'.readers[i]) {
      assert s'.readers[i] == r || ReaderOk(s, s.readers[i]);
    }
  }

  /** The steps that change nothing a read depends on. */
  ghost predicate Bookkeeping(s: State, s': State) {
    || (exists batch :: BeginWrite(s, s', batch))
    || Publish(s, s')
    || TakeSnapshot(s, s')
    || (exists x :: ReleaseSnapshot(s, s', x))
    || (exists id :: EndRead(s, s', id))
  }

  lemma BookkeepingKeepsInv(s: State, s': State)
    requires Inv(s) && Bookkeeping(s, s')
    ensures Inv(s')
  {
    BookkeepingSame(s, s');
    assert Now(s') == Now(s);
    BookkeepingBounds(s, s');
    ReadersUndisturbed(s, s');
  }

  lemma BookkeepingSame(s: State, s': State)
    requires Bookkeeping(s, s')
    ensures s'.tables == s.tables && s'.hasImm == s.hasImm && s'.L == s.L && s'.hist == s.hist
    ensures s'.floor == s.floor && s'.background == s.background && s'.nextFile == s.nextFile
    ensures s'.lastSeq >= s.lastSeq && Top(s') == Top(s)
    ensures forall id :: id in s'.readers ==> id in s.readers && s'.readers[id] == s.readers[id]
  {
    if Publish(s, s') {
      assert Top(s') == Top(s);
    } else if batch :| BeginWrite(s, s', batch) {
      assert Top(s') == Top(s);
    }
  }

  lemma BookkeepingBounds(s: State, s': State)
    requires WriteOk(s) && SnapshotsOk(s) && Bookkeeping(s, s')
    ensures WriteOk(s') && SnapshotsOk(s')
  {
    assert s'.lastSeq >= s.lastSeq;
    forall x | x in s'.snapshots ensures x in s.snapshots || x == s.lastSeq {}
  }

  // ---- Whole runs ----

  ghost predicate Next(s: State, s': State) {
    || Bookkeeping(s, s')
    || Insert(s, s')
    || Switch(s, s')
    || (exists level, f :: Flush(s, s', level, f))
    || (exists level, in0, in1, smallest :: BeginCompaction(s, s', level, in0, in1, smallest))
    || (exists outs, nextFile :: InstallCompaction(s, s', outs, nextFile))
    || (exists level, f :: TrivialMove(s, s', level, f))
    || (exists id, snap :: BeginRead(s, s', id, snap))
  }

  lemma NextKeepsInv(s: State, s': State)
    requires Inv(s) && Next(s, s')
    ensures Inv(s')
  {
    if Bookkeeping(s, s') {
      BookkeepingKeepsInv(s, s');
    } else if Insert(s, s') {
      InsertKeepsInv(s, s');
    } else if Switch(s, s') {
      SwitchKeepsInv(s, s');
    } else if level, f :| Flush(s, s', level, f) {
      FlushKeepsInv(s, s', level, f);
    } else if level, in0, in1, smallest :| BeginCompaction(s, s', level, in0, in1, smallest) {
      BeginCompactionKeepsInv(s, s', level, in0, in1, smallest);
    } else if outs, nextFile :| InstallCompaction(s, s', outs, nextFile) {
      InstallKeepsInv(s, s', outs, nextFile);
    } else if level, f :| TrivialMove(s, s', level, f) {
      MoveKeepsInv(s, s', level, f);
    } else {
      var id, snap :| BeginRead(s, s', id, snap);
      BeginReadKeepsInv(s, s', id, snap);
    }
  }

  ghost predicate Run(trace: seq<State>) {
    && |trace| > 0 && Init(trace[0])
    && forall i :: 0 <= i < |trace| - 1 ==> Next(trace[i], trace[i + 1])
  }

  lemma {:induction false} RunInv(trace: seq<State>, n: nat)
    requires Run(trace) && n < |trace|
    ensures Inv(trace[n])
  {
    if n == 0 {
      InitInv(trace[0]);
    } else {
      RunInv(trace, n - 1);
      NextKeepsInv(trace[n - 1], trace[n]);
    }
  }

  /** The main theorem.  In every run, at every moment, every read in flight
      answers for every key with the newest entry ever written at or below its
      snapshot, whatever switches, flushes and compactions happened meanwhile
      and whether or not its snapshot has been released. */
  lemma ReadsSeeTheirSnapshot(trace: seq<State>, n: nat, id: nat, k: UserKey)
    requires Run(trace) && n < |trace| && id in trace[n].readers
    ensures var r := trace[n].readers[id];
            && ReaderIds(trace[n], r)
            && ViewOk(ViewOf(trace[n].tables, r))
            && Read(Entries(ViewOf(trace[n].tables, r)), k, r.snap) == Read(trace[n].hist, k, r.snap)
  {
    RunInv(trace, n);
    assert ReaderOk(trace[n], trace[n].readers[id]);
  }

  /** Snapshot safety: no live snapshot and no possible new read is below the
      smallest snapshot of a compaction that is running or was installed. */
  lemma SnapshotSafety(trace: seq<State>, n: nat, snap: nat)
    requires Run(trace) && n < |trace|
    requires snap == trace[n].lastSeq || snap in trace[n].snapshots
    ensures snap >= trace[n].floor
    ensures trace[n].background.Running? ==> snap >= trace[n].background.smallest
    ensures TablesOk(trace[n])
    ensures forall k: UserKey :: Read(Entries(Now(trace[n])), k, snap) == Read(trace[n].hist, k, snap)
  {
    RunInv(trace, n);
    forall k: UserKey ensures Read(Entries(Now(trace[n])), k, snap) == Read(trace[n].hist, k, snap) {}
  }
}
