/** DoCompactionWork: the merge loop with its two drop rules, the stateful
    base-level test, and the proof that dropping changes no answer. */
module Compactions {
  import opened Keys
  import opened Mvcc
  import opened Levels

  // ---- What may be dropped ----

  /** Rule (A): a newer entry of the same key is already visible to everyone. */
  ghost predicate Hidden(S: set<Entry>, smallest: nat, e: Entry) {
    exists d :: d in S && d.user == e.user && d.sn > e.sn && d.sn <= smallest
  }

  /** No file two or more levels down covers the key. */
  ghost predicate BaseLevel(L: seq<set<File>>, level: nat, k: UserKey) {
    forall l, f :: level + 2 <= l < |L| && f in L[l] ==> !Covers(f, k)
  }

  /** The deletion marker has nothing left to hide. */
  ghost predicate Obsolete(L: seq<set<File>>, level: nat, smallest: nat, e: Entry) {
    e.kind.Deletion? && e.sn <= smallest && BaseLevel(L, level, e.user)
  }

  ghost predicate Dropped(S: set<Entry>, L: seq<set<File>>, level: nat, smallest: nat, e: Entry) {
    Hidden(S, smallest, e) || Obsolete(L, level, smallest, e)
  }

  ghost function Survivors(S: set<Entry>, L: seq<set<File>>, level: nat, smallest: nat): set<Entry> {
    set e | e in S && !Dropped(S, L, level, smallest, e)
  }

  /** The survivors of the first n entries, in order. */
  ghost function Kept(input: seq<Entry>, n: nat, L: seq<set<File>>, level: nat, smallest: nat): seq<Entry>
    requires n <= |input|
  {
    if n == 0 then []
    else
      var rest := Kept(input, n - 1, L, level, smallest);
      if Dropped(Elems(input), L, level, smallest, input[n - 1]) then rest else rest + [input[n - 1]]
  }

  lemma {:induction false} KeptElems(input: seq<Entry>, n: nat, L: seq<set<File>>, level: nat, smallest: nat)
    requires n <= |input|
    ensures forall e :: e in Kept(input, n, L, level, smallest)
              <==> e in input[..n] && !Dropped(Elems(input), L, level, smallest, e)
  {
    if n > 0 {
      KeptElems(input, n - 1, L, level, smallest);
      var last := input[n - 1];
      assert forall e :: e in input[..n] <==> e in input[..n - 1] || e == last by {
        assert input[..n] == input[..n - 1] + [last];
      }
    }
  }

  lemma {:induction false} KeptSorted(input: seq<Entry>, n: nat, L: seq<set<File>>, level: nat, smallest: nat)
    requires n <= |input| && SortedEntries(input)
    ensures SortedEntries(Kept(input, n, L, level, smallest))
  {
    if n > 0 {
      KeptSorted(input, n - 1, L, level, smallest);
      KeptElems(input, n - 1, L, level, smallest);
      var r := Kept(input, n - 1, L, level, smallest);
      forall i | 0 <= i < |r| ensures Before(KeyOf(r[i]), KeyOf(input[n - 1])) {
        assert r[i] in input[..n - 1];
      }
    }
  }

  /** Out is what is left of S after dropping; T is everything else. */
  ghost predicate SoundDrop(T: set<Entry>, S: set<Entry>, Out: set<Entry>, smallest: nat) {
    && DistinctSeqs(T + S) && Out <= S
    && (forall e :: e in Out ==> !Hidden(S, smallest, e))
    && (forall e :: e in S && e !in Out ==> Hidden(S, smallest, e) || HidesNothing(T, smallest, e))
  }

  ghost predicate HidesNothing(T: set<Entry>, smallest: nat, e: Entry) {
    e.kind.Deletion? && e.sn <= smallest && forall d :: d in T && d.user == e.user ==> d.sn > e.sn
  }

  /** Dropping preserves meaning.  T is everything the compaction does not
      touch; a dropped marker must have nothing older there. */
  lemma DropKeepsReads(T: set<Entry>, S: set<Entry>, Out: set<Entry>, smallest: nat)
    requires SoundDrop(T, S, Out, smallest)
    ensures SameAnswers(T + S, T + Out, smallest)
  {
    forall k: UserKey, s: nat | s >= smallest
      ensures Read(T + S, k, s) == Read(T + Out, k, s)
    {
      DropKeepsRead(T, S, Out, smallest, k, s);
    }
  }

  lemma DropKeepsRead(T: set<Entry>, S: set<Entry>, Out: set<Entry>, smallest: nat, k: UserKey, s: nat)
    requires SoundDrop(T, S, Out, smallest)
    requires s >= smallest
    ensures Read(T + S, k, s) == Read(T + Out, k, s)
  {
    VisibleNone(T + S, k, s);
    VisibleNone(T + Out, k, s);
    if HasCandidate(T + S, k, s) {
      var n := Visible(T + S, k, s).value;
      assert IsVisible(T + S, k, s, n);
      if n in T + Out {
        assert IsVisible(T + Out, k, s, n);
        VisibleIs(T + Out, k, s, n);
      } else {
        NewestNotHidden(T, S, smallest, k, s, n);
        forall d | d in T + Out && d.user == k ensures d.sn > s {
          assert d in T + S && d != n;
          assert d.sn > n.sn;
        }
      }
    } else {
      assert !HasCandidate(T + Out, k, s);
    }
  }

  lemma NewestNotHidden(T: set<Entry>, S: set<Entry>, smallest: nat, k: UserKey, s: nat, n: Entry)
    requires IsVisible(T + S, k, s, n) && s >= smallest
    ensures !Hidden(S, smallest, n)
  {
    forall d | d in S && d.user == n.user && d.sn > n.sn ensures d.sn > smallest {
      assert d in T + S;
    }
  }

  // ---- Rule (A) as the loop computes it ----

  /** In a sorted merge the entry just before tells whether rule (A) applies. */
  lemma PreviousDecides(input: seq<Entry>, i: nat, smallest: nat)
    requires i < |input| && SortedEntries(input) && DistinctSeqs(Elems(input))
    ensures Hidden(Elems(input), smallest, input[i])
       <==> i > 0 && input[i - 1].user == input[i].user && input[i - 1].sn <= smallest
  {
    var e := input[i];
    if Hidden(Elems(input), smallest, e) {
      var d :| d in Elems(input) && d.user == e.user && d.sn > e.sn && d.sn <= smallest;
      var j :| 0 <= j < |input| && input[j] == d;
      assert j < i;
      assert j == i - 1 || Before(KeyOf(input[j]), KeyOf(input[i - 1]));
      assert Before(KeyOf(input[i - 1]), KeyOf(e));
    }
    if i > 0 && input[i - 1].user == e.user && input[i - 1].sn <= smallest {
      var d := input[i - 1];
      assert Before(KeyOf(d), KeyOf(e));
      assert d in Elems(input) && e in Elems(input);
      assert d.sn > e.sn;
    }
  }

  // ---- The compaction object ----

  /** The bytes of files lo up to hi. */
  function SizeOf(files: seq<File>, lo: nat, hi: nat): nat
    requires lo <= hi <= |files|
  {
    if lo == hi then 0 else SizeOf(files, lo, hi - 1) + files[hi - 1].size
  }

  lemma {:induction false} SizeOfSplit(files: seq<File>, lo: nat, mid: nat, hi: nat)
    requires lo <= mid <= hi <= |files|
    ensures SizeOf(files, lo, hi) == SizeOf(files, lo, mid) + SizeOf(files, mid, hi)
  {
    if mid < hi {
      SizeOfSplit(files, lo, mid, hi - 1);
    }
  }

  /** The first file from i on that does not end before the key. */
  function PassedFrom(files: seq<File>, i: nat, key: InternalKey): (r: nat)
    requires i <= |files|
    ensures i <= r <= |files| && (r < |files| ==> !Before(files[r].largest, key))
    ensures forall j :: i <= j < r ==> Before(files[j].largest, key)
    decreases |files| - i
  {
    if i < |files| && Before(files[i].largest, key) then PassedFrom(files, i + 1, key) else i
  }

  /** How many leading files end before the key. */
  function Passed(files: seq<File>, key: InternalKey): (r: nat)
    ensures r <= |files|
  {
    PassedFrom(files, 0, key)
  }

  /** Going on from where a smaller key left off. */
  lemma PassedOn(files: seq<File>, key: InternalKey, key': InternalKey)
    requires !Before(key', key)
    ensures PassedFrom(files, Passed(files, key), key') == Passed(files, key')
  {
    forall j | 0 <= j < Passed(files, key) ensures Before(files[j].largest, key') {
      assert Before(files[j].largest, key);
    }
  }

  class Compaction {
    const level: nat
    const files: seq<seq<File>>          // input_version_->files_
    const grandparents: seq<File>
    const maxFileSize: nat
    const levelPtrs: array<nat>
    var grandparentIndex: nat
    var seenKey: bool
    var overlappedBytes: nat

    constructor (level: nat, files: seq<seq<File>>, grandparents: seq<File>, maxFileSize: nat)
      requires LevelsSorted(files) && level + 1 < NUM_LEVELS
      ensures Valid() && fresh(levelPtrs)
      ensures this.level == level && this.files == files && this.maxFileSize == maxFileSize
              && this.grandparents == grandparents
      ensures AtStart()
    {
      this.level := level;
      this.files := files;
      this.grandparents := grandparents;
      this.maxFileSize := maxFileSize;
      this.levelPtrs := new nat[NUM_LEVELS](_ => 0);
      this.grandparentIndex, this.seenKey, this.overlappedBytes := 0, false, 0;
    }

    ghost predicate Valid()
      reads this, levelPtrs
    {
      && LevelsSorted(files) && level + 1 < NUM_LEVELS
      && levelPtrs.Length == NUM_LEVELS
      && (forall l :: 0 <= l < NUM_LEVELS ==> levelPtrs[l] <= |files[l]|)
      && grandparentIndex <= |grandparents|
    }

    ghost predicate AtStart()
      reads this, levelPtrs
    {
      && grandparentIndex == 0 && !seenKey && overlappedBytes == 0
      && forall l :: 0 <= l < levelPtrs.Length ==> levelPtrs[l] == 0
    }

    /** The cursors have only passed files that end before k. */
    ghost predicate Behind(k: UserKey)
      reads this, levelPtrs
    {
      levelPtrs.Length <= |files| &&
      forall l, i :: 0 <= l < levelPtrs.Length && 0 <= i < levelPtrs[l] && i < |files[l]| ==>
        files[l][i].largest.user < k
    }

    /** Asked for non-decreasing keys, the cursors answer as a full scan would. */
    method IsBaseLevelForKey(k: UserKey) returns (b: bool)
      requires Valid() && Behind(k)
      modifies levelPtrs
      ensures Valid() && Behind(k)
      ensures b <==> BaseLevel(LevelSets(files), level, k)
    {
      var l := level + 2;
      while l < NUM_LEVELS
        invariant level + 2 <= l <= NUM_LEVELS || l == level + 2
        invariant Valid() && Behind(k)
        invariant forall m, f :: level + 2 <= m < l && m < NUM_LEVELS && f in files[m] ==> !Covers(f, k)
      {
        var stop := AdvancePointer(l, k);
        if stop {
          assert files[l][levelPtrs[l]] in LevelSets(files)[l];
          return false;
        }
        l := l + 1;
      }
      forall m, f | level + 2 <= m < |files| && f in LevelSets(files)[m] ensures !Covers(f, k) {
        assert f in files[m];
      }
      return true;
    }

    /** The inner loop: skip files that end before k, then look at the next. */
    method AdvancePointer(l: nat, k: UserKey) returns (covered: bool)
      requires Valid() && Behind(k) && 1 <= l < NUM_LEVELS
      modifies levelPtrs
      ensures Valid() && Behind(k)
      ensures covered ==> levelPtrs[l] < |files[l]| && Covers(files[l][levelPtrs[l]], k)
      ensures !covered ==> forall f :: f in files[l] ==> !Covers(f, k)
    {
      while levelPtrs[l] < |files[l]|
        invariant Valid() && Behind(k)
        decreases |files[l]| - levelPtrs[l]
      {
        var f := files[l][levelPtrs[l]];
        if k <= f.largest.user {
          if k >= f.smallest.user {
            return true;
          }
          LaterFilesAfter(files, l, levelPtrs[l], k);
          return false;
        }
        levelPtrs[l] := levelPtrs[l] + 1;
      }
      return false;
    }

    /** ShouldStopBefore: skip the grandparents that end before the key and ask
        whether the current output overlaps too many of their bytes. */
    method ShouldStopBefore(key: InternalKey) returns (stop: bool)
      requires Valid()
      modifies this`grandparentIndex, this`seenKey, this`overlappedBytes
      ensures Valid() && seenKey
      ensures grandparentIndex == PassedFrom(grandparents, old(grandparentIndex), key)
      ensures var overlapped := old(overlappedBytes) + if old(seenKey) then SizeOf(grandparents, old(grandparentIndex),
              grandparentIndex) else 0;
              stop == (overlapped > 10 * maxFileSize) && overlappedBytes == if stop then 0 else overlapped
    {
      while grandparentIndex < |grandparents| && Before(grandparents[grandparentIndex].largest, key)
        invariant Valid() && grandparentIndex >= old(grandparentIndex) && seenKey == old(seenKey)
        invariant PassedFrom(grandparents, grandparentIndex, key) == PassedFrom(grandparents, old(grandparentIndex),
                  key)
        invariant overlappedBytes == old(overlappedBytes) + if seenKey then SizeOf(grandparents, old(grandparentIndex),
                  grandparentIndex) else 0
        decreases |grandparents| - grandparentIndex
      {
        if seenKey {
          overlappedBytes := overlappedBytes + grandparents[grandparentIndex].size;
        }
        grandparentIndex := grandparentIndex + 1;
      }
      seenKey := true;
      if overlappedBytes > 10 * maxFileSize {
        overlappedBytes := 0;
        return true;
      } else {
        return false;
      }
    }
  }

  lemma LaterFilesAfter(files: seq<seq<File>>, l: nat, p: nat, k: UserKey)
    requires LevelsSorted(files) && 1 <= l < NUM_LEVELS && p < |files[l]|
    requires forall i :: 0 <= i < p ==> files[l][i].largest.user < k
    requires k < files[l][p].smallest.user
    ensures forall f :: f in files[l] ==> !Covers(f, k)
  {
    forall f | f in files[l] ensures !Covers(f, k) {
      var i :| 0 <= i < |files[l]| && files[l][i] == f;
      if i > p {
        assert FileOk(files[l][p]);
        assert Before(files[l][p].largest, files[l][i].smallest);
        FileCovers(files[l][p], files[l][p].entries[0]);
      }
    }
  }

  // ---- The merge loop ----

  ghost function Flatten(fs: seq<File>): seq<Entry> {
    if |fs| == 0 then [] else Flatten(fs[..|fs| - 1]) + fs[|fs| - 1].entries
  }

  lemma {:induction false} FlattenMember(fs: seq<File>, f: File, e: Entry)
    requires f in fs && e in f.entries
    ensures e in Flatten(fs)
  {
    if f != fs[|fs| - 1] {
      assert fs == fs[..|fs| - 1] + [fs[|fs| - 1]];
      FlattenMember(fs[..|fs| - 1], f, e);
    }
  }

  lemma {:induction false} FlattenElems(fs: seq<File>)
    ensures forall e :: e in Flatten(fs) <==> e in EntriesIn(FileSet(fs))
  {
    if |fs| > 0 {
      var init, last := fs[..|fs| - 1], fs[|fs| - 1];
      assert fs == init + [last];
      FlattenElems(init);
      assert FileSet(fs) == FileSet(init) + {last};
    }
  }

  predicate EndsOk(f: File) {
    && |f.entries| > 0
    && f.smallest == KeyOf(f.entries[0]) && f.largest == KeyOf(f.entries[|f.entries| - 1])
    && (forall e :: e in f.entries ==> e.sn <= MAX_SEQUENCE)
  }

  lemma SplitSorted(a: seq<Entry>, b: seq<Entry>)
    requires SortedEntries(a + b)
    ensures SortedEntries(a) && SortedEntries(b)
    ensures |b| > 0 ==> forall x :: x in a ==> Before(KeyOf(x), KeyOf(b[0]))
  {
    var all := a + b;
    forall i, j | 0 <= i < j < |a| ensures Before(KeyOf(a[i]), KeyOf(a[j])) {
      assert a[i] == all[i] && a[j] == all[j];
    }
    forall i, j | 0 <= i < j < |b| ensures Before(KeyOf(b[i]), KeyOf(b[j])) {
      assert b[i] == all[|a| + i] && b[j] == all[|a| + j];
    }
    if |b| > 0 {
      forall x | x in a ensures Before(KeyOf(x), KeyOf(b[0])) {
        var i :| 0 <= i < |a| && a[i] == x;
        assert all[i] == x && all[|a|] == b[0];
      }
    }
  }

  /** Cutting a sorted run into files gives a sorted level. */
  lemma {:induction false} CutIsSortedLevel(fs: seq<File>)
    requires SortedEntries(Flatten(fs)) && forall f :: f in fs ==> EndsOk(f)
    ensures SortedLevel(fs) && forall f :: f in fs ==> FileOk(f)
  {
    if |fs| > 0 {
      var init, last := fs[..|fs| - 1], fs[|fs| - 1];
      assert fs == init + [last] && last in fs;
      SplitSorted(Flatten(init), last.entries);
      CutIsSortedLevel(init);
      forall i | 0 <= i < |init| ensures Before(init[i].largest, last.smallest) {
        assert init[i] in init && init[i] in fs;
        var e := init[i].entries[|init[i].entries| - 1];
        FlattenMember(init, init[i], e);
      }
    }
  }

  /** An output file under construction (CompactionState::Output and builder). */
  datatype Builder = Closed | Open(number: nat, smallest: InternalKey, largest: InternalKey, entries: seq<Entry>)

  ghost function Pending(b: Builder): seq<Entry> {
    if b.Open? then b.entries else []
  }

  ghost predicate BuilderOk(b: Builder) {
    b.Open? ==> EndsOk(File(b.number, 0, b.smallest, b.largest, b.entries))
  }

  /** CompactionState: the finished outputs and the one being built. */
  datatype Work = Work(outputs: seq<File>, builder: Builder)

  ghost predicate WorkOk(w: Work, nextFile: nat) {
    && BuilderOk(w.builder)
    && (forall f :: f in w.outputs ==> EndsOk(f))
    && (forall i :: 0 <= i < |w.outputs| ==> w.outputs[i].number == nextFile + i)
    && (w.builder.Open? ==> w.builder.number == nextFile + |w.outputs|)
  }

  ghost function Written(w: Work): seq<Entry> {
    Flatten(w.outputs) + Pending(w.builder)
  }

  /** FinishCompactionOutputFile, when a file is open. */
  function Finish(w: Work, tableSize: seq<Entry> -> nat, ghost nextFile: nat): (r: Work)
    requires WorkOk(w, nextFile)
    ensures WorkOk(r, nextFile) && r.builder.Closed?
    ensures Written(r) == Written(w)
  {
    match w.builder
    case Closed => w
    case Open(n, small, large, es) =>
      var outputs := w.outputs + [File(n, tableSize(es), small, large, es)];
      assert outputs[..|outputs| - 1] == w.outputs;
      Work(outputs, Closed)
  }

  /** The builder with one more entry, opened first when there is none. */
  function Added(w: Work, e: Entry, nextFile: nat): Work {
    Work(w.outputs,
         match w.builder
         case Closed => Open(nextFile + |w.outputs|, KeyOf(e), KeyOf(e), [e])
         case Open(n, small, large, es) => Open(n, small, KeyOf(e), es + [e]))
  }

  /** builder->Add, opening a file first when there is none, and closing it
      when it is big enough. */
  function Emit(w: Work, e: Entry, tableSize: seq<Entry> -> nat, maxSize: nat, nextFile: nat): (r: Work)
    requires WorkOk(w, nextFile) && e.sn <= MAX_SEQUENCE
    ensures WorkOk(r, nextFile)
    ensures Written(r) == Written(w) + [e]
  {
    var w' := Added(w, e, nextFile);
    assert Written(w') == Written(w) + [e];
    if tableSize(w'.builder.entries) >= maxSize then Finish(w', tableSize, nextFile) else w'
  }

  // ---- Where output files are cut ----

  /** What decides the cuts: the grandparents, the size limit, the builder's size
      estimate. */
  datatype Cutting = Cutting(grandparents: seq<File>, maxSize: nat, tableSize: seq<Entry> -> nat)

  /** The grandparent bytes passed on the way from one key to another. */
  ghost function Overlap(c: Cutting, from: InternalKey, to: InternalKey): nat
    requires Passed(c.grandparents, from) <= Passed(c.grandparents, to)
  {
    SizeOf(c.grandparents, Passed(c.grandparents, from), Passed(c.grandparents, to))
  }

  ghost predicate SmallPrefixes(c: Cutting, es: seq<Entry>, n: nat) {
    forall m :: 0 < m < n <= |es| ==> c.tableSize(es[..m]) < c.maxSize
  }

  /** A file is full at its last entry at the earliest, and passes no more than ten
      times the limit in grandparent bytes. */
  ghost predicate CutOk(c: Cutting, smallest: InternalKey, largest: InternalKey, es: seq<Entry>) {
    && SmallPrefixes(c, es, |es|)
    && Passed(c.grandparents, smallest) <= Passed(c.grandparents, largest)
    && Overlap(c, smallest, largest) <= 10 * c.maxSize
  }

  /** Why a file ended before `next` grandparents had been passed: it was full, or
      more than ten times the limit had been passed since some point before it. */
  ghost predicate Ended(c: Cutting, f: File, next: nat) {
    || c.tableSize(f.entries) >= c.maxSize
    || (exists m :: 0 <= m <= Passed(c.grandparents, f.smallest) && m <= next <= |c.grandparents|
                    && SizeOf(c.grandparents, m, next) > 10 * c.maxSize)
  }

  lemma EndedLater(c: Cutting, f: File, next: nat, next': nat)
    requires Ended(c, f, next) && next <= next' <= |c.grandparents|
    ensures Ended(c, f, next')
  {
    if c.tableSize(f.entries) < c.maxSize {
      var m :| 0 <= m <= Passed(c.grandparents, f.smallest) && m <= next <= |c.grandparents|
          && SizeOf(c.grandparents, m, next) > 10 * c.maxSize;
      SizeOfSplit(c.grandparents, m, next, next');
    }
  }

  /** The cuts among finished files. */
  ghost predicate CutsOk(c: Cutting, outputs: seq<File>) {
    && (forall i :: 0 <= i < |outputs| ==> CutOk(c, outputs[i].smallest, outputs[i].largest, outputs[i].entries))
    && (forall i :: 0 <= i < |outputs| - 1 ==> Ended(c, outputs[i], Passed(c.grandparents, outputs[i + 1].smallest)))
  }

  /** Midway: `mark` grandparents had been passed at the last stop, `at` by now. */
  ghost predicate Cuts(c: Cutting, w: Work, mark: nat, at: nat) {
    && mark <= at <= |c.grandparents|
    && CutsOk(c, w.outputs)
    && (w.builder.Closed? && |w.outputs| > 0 ==> Ended(c, w.outputs[|w.outputs| - 1], at))
    && (w.builder.Open? ==>
          && CutOk(c, w.builder.smallest, w.builder.largest, w.builder.entries)
          && c.tableSize(w.builder.entries) < c.maxSize
          && mark <= Passed(c.grandparents, w.builder.smallest) <= at
          && (|w.outputs| > 0 ==> Ended(c, w.outputs[|w.outputs| - 1], Passed(c.grandparents, w.builder.smallest))))
  }

  /** A stop closes the file. */
  lemma CutsStop(c: Cutting, w: Work, mark: nat, at: nat, at': nat, nextFile: nat)
    requires WorkOk(w, nextFile) && Cuts(c, w, mark, at) && at <= at' <= |c.grandparents|
             && SizeOf(c.grandparents, mark, at') > 10 * c.maxSize
    ensures Cuts(c, Finish(w, c.tableSize, nextFile), at', at')
  {
    var w' := Finish(w, c.tableSize, nextFile);
    if w.builder.Open? {
      assert Ended(c, w'.outputs[|w'.outputs| - 1], at');
    } else if |w.outputs| > 0 {
      EndedLater(c, w.outputs[|w.outputs| - 1], at, at');
    }
  }

  lemma FirstMark(c: Cutting, w: Work, mark: nat, at: nat, at': nat)
    requires Cuts(c, w, mark, at) && w == Work([], Closed) && at' <= |c.grandparents|
    ensures Cuts(c, w, at', at')
  {}

  lemma CutsOn(c: Cutting, w: Work, mark: nat, at: nat, at': nat)
    requires Cuts(c, w, mark, at) && at <= at' <= |c.grandparents|
    ensures Cuts(c, w, mark, at')
  {
    if w.builder.Closed? && |w.outputs| > 0 {
      EndedLater(c, w.outputs[|w.outputs| - 1], at, at');
    }
  }

  /** An entry goes in at the point reached, when no stop was called for there. */
  lemma AddedCut(c: Cutting, w: Work, mark: nat, at: nat, e: Entry, nextFile: nat)
    requires Cuts(c, w, mark, at) && at == Passed(c.grandparents, KeyOf(e))
             && SizeOf(c.grandparents, mark, at) <= 10 * c.maxSize
    ensures var b := Added(w, e, nextFile).builder; CutOk(c, b.smallest, b.largest, b.entries)
                                                    && mark <= Passed(c.grandparents, b.smallest) <= at
  {
    if w.builder.Open? {
      var b, es := Added(w, e, nextFile).builder, w.builder.entries;
      SizeOfSplit(c.grandparents, mark, Passed(c.grandparents, b.smallest), at);
      forall m | 0 < m < |b.entries| ensures c.tableSize(b.entries[..m]) < c.maxSize {
        assert b.entries[..m] == es[..m];
        assert m == |es| ==> es[..m] == es;
      }
    }
  }

  lemma CutsEmit(c: Cutting, w: Work, mark: nat, at: nat, e: Entry, nextFile: nat)
    requires WorkOk(w, nextFile) && e.sn <= MAX_SEQUENCE && Cuts(c, w, mark, at)
    requires at == Passed(c.grandparents, KeyOf(e)) && SizeOf(c.grandparents, mark, at) <= 10 * c.maxSize
    ensures Cuts(c, Emit(w, e, c.tableSize, c.maxSize, nextFile), mark, at)
  {
    AddedCut(c, w, mark, at, e, nextFile);
    var w1, w' := Added(w, e, nextFile), Emit(w, e, c.tableSize, c.maxSize, nextFile);
    if c.tableSize(w1.builder.entries) >= c.maxSize {
      assert Ended(c, w'.outputs[|w'.outputs| - 1], at);
    } else {
      assert w' == w1;
    }
  }

  lemma CutsEnd(c: Cutting, w: Work, mark: nat, at: nat, nextFile: nat)
    requires WorkOk(w, nextFile) && Cuts(c, w, mark, at)
    ensures CutsOk(c, Finish(w, c.tableSize, nextFile).outputs)
  {}

  /** The loop variables that decide rule (A). */
  datatype Current = Current(has: bool, user: UserKey, lastSequence: nat)

  /** They describe the entry just before position i. */
  ghost predicate CurrentOk(cur: Current, input: seq<Entry>, i: nat)
    requires i <= |input|
  {
    && (cur.has <==> i > 0)
    && (i > 0 ==> cur.user == input[i - 1].user && cur.lastSequence == input[i - 1].sn)
  }

  /** One round of the loop up to the decision. */
  method Decide(c: Compaction, input: seq<Entry>, i: nat, smallest: nat, cur: Current)
        returns (drop: bool, cur': Current)
    requires i < |input| && c.Valid() && c.Behind(input[i].user)
    requires SortedEntries(input) && DistinctSeqs(Elems(input)) && smallest < MAX_SEQUENCE
    requires CurrentOk(cur, input, i)
    modifies c.levelPtrs
    ensures c.Valid() && c.Behind(input[i].user)
    ensures CurrentOk(cur', input, i + 1)
    ensures drop <==> Dropped(Elems(input), LevelSets(c.files), c.level, smallest, input[i])
  {
    var e := input[i];
    cur' := cur;
    if !cur.has || e.user != cur.user {
      cur' := Current(true, e.user, MAX_SEQUENCE);
    }
    PreviousDecides(input, i, smallest);
    drop := false;
    if cur'.lastSequence <= smallest {
      drop := true;
    } else if e.kind.Deletion? && e.sn <= smallest {
      drop := c.IsBaseLevelForKey(e.user);
    }
    cur' := cur'.(lastSequence := e.sn);
  }

  /** Once the last file is closed the outputs are a sorted level. */
  lemma FinishedOutputs(w: Work, input: seq<Entry>, L: seq<set<File>>, level: nat, smallest: nat, nextFile: nat)
    requires WorkOk(w, nextFile) && w.builder.Closed? && SortedEntries(input)
    requires Written(w) == Kept(input, |input|, L, level, smallest)
    ensures Flatten(w.outputs) == Kept(input, |input|, L, level, smallest)
    ensures SortedLevel(w.outputs) && forall f :: f in w.outputs ==> FileOk(f)
  {
    KeptSorted(input, |input|, L, level, smallest);
    assert Flatten(w.outputs) == Written(w);
    CutIsSortedLevel(w.outputs);
  }

  ghost function CuttingOf(c: Compaction, tableSize: seq<Entry> -> nat): Cutting {
    Cutting(c.grandparents, c.maxFileSize, tableSize)
  }

  /** Where the cut decision stands after the first i entries. */
  ghost predicate Counting(c: Compaction, input: seq<Entry>, i: nat, mark: nat)
    requires i <= |input|
    reads c
  {
    && mark <= c.grandparentIndex <= |c.grandparents|
    && c.overlappedBytes == SizeOf(c.grandparents, mark, c.grandparentIndex)
    && (c.seenKey <==> i > 0)
    && c.grandparentIndex == if i == 0 then 0 else Passed(c.grandparents, KeyOf(input[i - 1]))
  }

  /** Ask before entry i, and close the file if told to. */
  method StopBefore(c: Compaction, input: seq<Entry>, i: nat, w: Work, nextFile: nat, tableSize: seq<Entry> -> nat,
        ghost mark: nat)
    returns (w': Work, ghost mark': nat)
    requires c.Valid() && SortedEntries(input) && i < |input| && WorkOk(w, nextFile)
             && (i == 0 ==> w == Work([], Closed))
    requires Counting(c, input, i, mark) && Cuts(CuttingOf(c, tableSize), w, mark, c.grandparentIndex)
    modifies c`grandparentIndex, c`seenKey, c`overlappedBytes
    ensures c.Valid() && WorkOk(w', nextFile) && Written(w') == Written(w)
    ensures Counting(c, input, i + 1, mark') && Cuts(CuttingOf(c, tableSize), w', mark', c.grandparentIndex)
    ensures c.overlappedBytes <= 10 * c.maxFileSize
  {
    ghost var at, C := c.grandparentIndex, CuttingOf(c, tableSize);
    var stop := c.ShouldStopBefore(KeyOf(input[i]));
    w', mark' := w, mark;
    if i == 0 {
      mark' := c.grandparentIndex;
      FirstMark(C, w, mark, at, mark');
    } else {
      assert Before(KeyOf(input[i - 1]), KeyOf(input[i]));
      PassedOn(c.grandparents, KeyOf(input[i - 1]), KeyOf(input[i]));
      SizeOfSplit(c.grandparents, mark, at, c.grandparentIndex);
      if stop {
        CutsStop(C, w, mark, at, c.grandparentIndex, nextFile);
        w', mark' := Finish(w, tableSize, nextFile), c.grandparentIndex;
      } else {
        CutsOn(C, w, mark, at, c.grandparentIndex);
      }
    }
  }

  /** DBImpl::DoCompactionWork: from the sorted merge of the inputs to the
      output files.  `tableSize` stands for the table builder's size estimate. */
  method DoCompactionWork(c: Compaction, input: seq<Entry>, smallest: nat, nextFile: nat, tableSize: seq<Entry> -> nat)
    returns (outputs: seq<File>)
    requires c.Valid() && c.AtStart()
    requires SortedEntries(input) && DistinctSeqs(Elems(input))
    requires forall e :: e in input ==> e.sn <= MAX_SEQUENCE
    requires smallest < MAX_SEQUENCE
    modifies c, c.levelPtrs
    ensures Flatten(outputs) == Kept(input, |input|, LevelSets(c.files), c.level, smallest)
    ensures SortedLevel(outputs) && forall f :: f in outputs ==> FileOk(f)
    ensures forall i :: 0 <= i < |outputs| ==> outputs[i].number == nextFile + i
    ensures CutsOk(CuttingOf(c, tableSize), outputs)
  {
    ghost var L, C, mark: nat := LevelSets(c.files), CuttingOf(c, tableSize), 0;
    var w := Work([], Closed);
    var cur := Current(false, 0.0, MAX_SEQUENCE);
    var i := 0;
    while i < |input|
      invariant i <= |input| && c.Valid()
      invariant i < |input| ==> c.Behind(input[i].user)
      invariant CurrentOk(cur, input, i)
      invariant WorkOk(w, nextFile) && (i == 0 ==> w == Work([], Closed))
      invariant Written(w) == Kept(input, i, L, c.level, smallest)
      invariant Counting(c, input, i, mark) && Cuts(C, w, mark, c.grandparentIndex)
    {
      w, mark := StopBefore(c, input, i, w, nextFile, tableSize, mark);
      var drop;
      drop, cur := Decide(c, input, i, smallest, cur);
      if !drop {
        CutsEmit(C, w, mark, c.grandparentIndex, input[i], nextFile);
        w := Emit(w, input[i], tableSize, c.maxFileSize, nextFile);
      }
      i := i + 1;
      assert i < |input| ==> Before(KeyOf(input[i - 1]), KeyOf(input[i]));
    }
    CutsEnd(C, w, mark, c.grandparentIndex, nextFile);
    w := Finish(w, tableSize, nextFile);
    FinishedOutputs(w, input, L, c.level, smallest, nextFile);
    outputs := w.outputs;
  }

  /** The outputs hold exactly the entries no rule lets go of. */
  lemma OutputsAreSurvivors(outputs: seq<File>, input: seq<Entry>, L: seq<set<File>>, level: nat, smallest: nat)
    requires Flatten(outputs) == Kept(input, |input|, L, level, smallest)
    ensures EntriesIn(FileSet(outputs)) == Survivors(Elems(input), L, level, smallest)
  {
    KeptElems(input, |input|, L, level, smallest);
    assert input[..|input|] == input;
    FlattenElems(outputs);
  }
}
