/** Point lookups in a Version: FindFile, the choice of tables to search at a
    level, and Version::Get. */
module VersionGet {
  import opened Keys
  import opened Mvcc
  import opened Levels

  /** Consecutive runs of a sorted level are also ordered end to end. */
  lemma LargestOrdered(files: seq<File>, i: nat, j: nat)
    requires SortedLevel(files) && i < j < |files| && FileOk(files[j])
    ensures Before(files[i].largest, files[j].largest)
  {
    FileCovers(files[j], files[j].entries[|files[j].entries| - 1]);
  }

  /** Binary search for the first file whose largest key is at or after `key`. */
  method FindFile(files: seq<File>, key: InternalKey) returns (right: nat)
    requires SortedLevel(files) && forall f :: f in files ==> FileOk(f)
    ensures right <= |files|
    ensures forall i :: 0 <= i < right ==> Before(files[i].largest, key)
    ensures forall i :: right <= i < |files| ==> !Before(files[i].largest, key)
  {
    var left := 0;
    right := |files|;
    while left < right
      invariant left <= right <= |files|
      invariant forall i :: 0 <= i < left ==> Before(files[i].largest, key)
      invariant forall i :: right <= i < |files| ==> !Before(files[i].largest, key)
    {
      var mid := (left + right) / 2;
      if Before(files[mid].largest, key) {
        forall i | 0 <= i < mid ensures Before(files[i].largest, key) {
          LargestOrdered(files, i, mid);
        }
        left := mid + 1;
      } else {
        forall i | mid < i < |files| ensures !Before(files[i].largest, key) {
          LargestOrdered(files, mid, i);
        }
        right := mid;
      }
    }
  }

  /** Table::InternalGet with the SaveValue callback: the entry at the seek
      position counts only when it carries the user key asked for. */
  function FileGet(f: File, k: UserKey, s: nat): (r: Option<Entry>)
    requires FileOk(f)
    ensures r.Some? ==> IsVisible(Contents(f), k, s, r.value)
    ensures r.None? ==> !HasCandidate(Contents(f), k, s)
  {
    SeekIsRead(f.entries, k, s);
    var i := LowerBound(f.entries, LookupKey(k, s));
    if i < |f.entries| && f.entries[i].user == k then Some(f.entries[i]) else None
  }

  predicate NewestFirst(fs: seq<File>) {
    forall i, j :: 0 <= i < j < |fs| ==> fs[i].number > fs[j].number
  }

  predicate DistinctNumbers(fs: seq<File>) {
    forall i, j :: 0 <= i < j < |fs| ==> fs[i].number != fs[j].number
  }

  function InsertNewest(f: File, fs: seq<File>): (r: seq<File>)
    requires NewestFirst(fs) && forall g :: g in fs ==> g.number != f.number
    ensures NewestFirst(r)
    ensures forall g :: g in r <==> g == f || g in fs
  {
    if |fs| == 0 || f.number > fs[0].number then [f] + fs
    else
      var t := InsertNewest(f, fs[1..]);
      assert fs == [fs[0]] + fs[1..];
      assert f.number < fs[0].number by { assert fs[0] in fs; }
      assert forall g :: g in t ==> g.number < fs[0].number;
      [fs[0]] + t
  }

  /** std::sort by descending file number. */
  function SortNewest(fs: seq<File>): (r: seq<File>)
    requires DistinctNumbers(fs)
    ensures NewestFirst(r)
    ensures forall g :: g in r <==> g in fs
  {
    if |fs| == 0 then []
    else
      assert fs == [fs[0]] + fs[1..];
      InsertNewest(fs[0], SortNewest(fs[1..]))
  }

  /** What the list of tables to search must satisfy: later tables are older,
      and every table of the level with something to say is the list's or is
      older than one of the list's that also has something to say. */
  ghost predicate Leads(list: seq<File>, level: set<File>, k: UserKey, s: nat) {
    && (forall f :: f in list ==> f in level)
    && (forall i, j :: 0 <= i < j < |list| ==> Newer(Contents(list[i]), Contents(list[j])))
    && (forall f :: f in level && HasCandidate(Contents(f), k, s) ==> LedBy(list, f, k, s))
  }

  ghost predicate LedBy(list: seq<File>, f: File, k: UserKey, s: nat) {
    exists i :: 0 <= i < |list| && HasCandidate(Contents(list[i]), k, s)
      && (list[i] == f || Newer(Contents(list[i]), Contents(f)))
  }

  /** Level 0: every file whose range covers the key, newest first. */
  method FilesLevelZero(files: seq<File>, k: UserKey, s: nat) returns (list: seq<File>)
    requires NumberedByAge(FileSet(files)) && DistinctNumbers(files)
    requires forall f :: f in files ==> FileOk(f)
    ensures Leads(list, FileSet(files), k, s)
  {
    var tmp := [];
    for i := 0 to |files|
      invariant forall f :: f in tmp ==> f in files[..i]
      invariant forall f :: f in files[..i] && Covers(f, k) ==> f in tmp
      invariant DistinctNumbers(tmp)
    {
      assert files[..i + 1] == files[..i] + [files[i]];
      assert forall f :: f in files[..i] ==> f.number != files[i].number;
      if k >= files[i].smallest.user && k <= files[i].largest.user {
        tmp := tmp + [files[i]];
      }
    }
    assert files[..|files|] == files;
    list := SortNewest(tmp);
    forall i, j | 0 <= i < j < |list| ensures Newer(Contents(list[i]), Contents(list[j])) {
      assert list[i] in list && list[j] in list;
      assert list[i] in FileSet(files) && list[j] in FileSet(files);
    }
    forall f | f in FileSet(files) && HasCandidate(Contents(f), k, s) ensures LedBy(list, f, k, s) {
      var e :| e in Contents(f) && Candidate(e, k, s);
      FileCovers(f, e);
      assert f in list;
      var i :| 0 <= i < |list| && list[i] == f;
    }
  }

  /** Of two files in a sorted level the first is newer for any shared key. */
  lemma SortedMeansNewer(f: File, g: File, S: set<Entry>)
    requires FileOk(f) && FileOk(g) && Before(f.largest, g.smallest)
    requires Contents(f) <= S && Contents(g) <= S && DistinctSeqs(S)
    ensures Newer(Contents(f), Contents(g))
  {
    forall d, x | d in Contents(f) && x in Contents(g) && d.user == x.user ensures d.sn > x.sn {
      FileCovers(f, d);
      FileCovers(g, x);
    }
  }

  /** Of two files in a sorted level, when the later one has a candidate and
      the earlier one ends at or after the lookup key, the earlier has one too. */
  lemma EarlierHasCandidate(g: File, f: File, k: UserKey, s: nat, e: Entry)
    requires FileOk(f) && FileOk(g) && Before(g.largest, f.smallest)
    requires e in Contents(f) && Candidate(e, k, s)
    requires !Before(g.largest, LookupKey(k, s))
    ensures HasCandidate(Contents(g), k, s) && k >= g.smallest.user
  {
    FileCovers(f, e);
    var last := g.entries[|g.entries| - 1];
    FileCovers(g, last);
    assert Candidate(last, k, s) && last in Contents(g);
  }

  /** At a sorted level the file FindFile names speaks for the whole level,
      even when versions of one user key are split over two files. */
  lemma SortedLevelLeads(files: seq<File>, k: UserKey, s: nat, r: nat)
    requires SortedLevel(files) && r <= |files|
    requires forall f :: f in files ==> FileOk(f)
    requires DistinctSeqs(EntriesIn(FileSet(files)))
    requires forall i :: 0 <= i < r ==> Before(files[i].largest, LookupKey(k, s))
    requires forall i :: r <= i < |files| ==> !Before(files[i].largest, LookupKey(k, s))
    ensures Leads(if r < |files| && k >= files[r].smallest.user then [files[r]] else [], FileSet(files), k, s)
  {
    var list := if r < |files| && k >= files[r].smallest.user then [files[r]] else [];
    forall f | f in FileSet(files) && HasCandidate(Contents(f), k, s) ensures LedBy(list, f, k, s) {
      var e :| e in Contents(f) && Candidate(e, k, s);
      var j :| 0 <= j < |files| && files[j] == f;
      LeaderOf(files, k, s, r, j, e);
    }
  }

  lemma LeaderOf(files: seq<File>, k: UserKey, s: nat, r: nat, j: nat, e: Entry)
    requires SortedLevel(files) && r <= |files|
    requires forall f :: f in files ==> FileOk(f)
    requires DistinctSeqs(EntriesIn(FileSet(files)))
    requires forall i :: 0 <= i < r ==> Before(files[i].largest, LookupKey(k, s))
    requires forall i :: r <= i < |files| ==> !Before(files[i].largest, LookupKey(k, s))
    requires j < |files| && e in Contents(files[j]) && Candidate(e, k, s)
    ensures r < |files| && k >= files[r].smallest.user
    ensures LedBy([files[r]], files[j], k, s)
  {
    FileCovers(files[j], e);
    assert r <= j;
    var list := [files[r]];
    if r == j {
      assert list[0] == files[j];
    } else {
      var S := EntriesIn(FileSet(files));
      EarlierHasCandidate(files[r], files[j], k, s, e);
      assert Contents(files[r]) <= S && Contents(files[j]) <= S;
      SortedMeansNewer(files[r], files[j], S);
      assert HasCandidate(Contents(list[0]), k, s);
    }
  }

  /** The tables Version::Get reads at one level. */
  method FilesToSearch(files: seq<File>, level: nat, k: UserKey, s: nat) returns (list: seq<File>)
    requires forall f :: f in files ==> FileOk(f)
    requires level == 0 ==> NumberedByAge(FileSet(files)) && DistinctNumbers(files)
    requires level > 0 ==> SortedLevel(files)
    requires DistinctSeqs(EntriesIn(FileSet(files)))
    ensures Leads(list, FileSet(files), k, s)
  {
    if level == 0 {
      list := FilesLevelZero(files, k, s);
    } else {
      var index := FindFile(files, LookupKey(k, s));
      SortedLevelLeads(files, k, s, index);
      if index >= |files| {
        list := [];
      } else if k < files[index].smallest.user {
        list := [];
      } else {
        list := [files[index]];
      }
    }
  }

  ghost predicate Silent(L: seq<set<File>>, upTo: nat, k: UserKey, s: nat) {
    forall l, f :: 0 <= l < upTo && l < |L| && f in L[l] ==> !HasCandidate(Contents(f), k, s)
  }

  lemma LevelDistinct(L: seq<set<File>>, level: nat)
    requires Layout(L) && level < NUM_LEVELS
    ensures DistinctSeqs(EntriesIn(L[level]))
  {
    assert EntriesIn(L[level]) <= All(L);
  }

  lemma SilentThroughout(L: seq<set<File>>, k: UserKey, s: nat)
    requires Silent(L, |L|, k, s)
    ensures !HasCandidate(All(L), k, s)
  {
    forall e | e in All(L) ensures !Candidate(e, k, s) {
      var l: int, f: File :| 0 <= l < |L| && f in L[l] && e in f.entries;
      assert e in Contents(f);
    }
  }

  /** Within one level the first hit in the list is the newest. */
  lemma FirstHitInLevel(list: seq<File>, level: set<File>, i: nat, k: UserKey, s: nat, e: Entry, f: File, d: Entry)
    requires Leads(list, level, k, s) && i < |list|
    requires forall j :: 0 <= j < i ==> !HasCandidate(Contents(list[j]), k, s)
    requires IsVisible(Contents(list[i]), k, s, e)
    requires f in level && d in Contents(f) && Candidate(d, k, s)
    ensures d.sn <= e.sn
  {
    assert LedBy(list, f, k, s);
    var j :| 0 <= j < |list| && HasCandidate(Contents(list[j]), k, s)
      && (list[j] == f || Newer(Contents(list[j]), Contents(f)));
    var x :| x in Contents(list[j]) && Candidate(x, k, s);
    if j > i {
      assert Newer(Contents(list[i]), Contents(list[j]));
    }
  }

  /** The first hit, going down the list and then the levels, is the newest
      entry of the whole version. */
  lemma FirstHitIsVisible(L: seq<set<File>>, level: nat, list: seq<File>, i: nat, k: UserKey, s: nat, e: Entry)
    requires Layout(L) && level < NUM_LEVELS && Silent(L, level, k, s)
    requires Leads(list, L[level], k, s) && i < |list|
    requires forall j :: 0 <= j < i ==> !HasCandidate(Contents(list[j]), k, s)
    requires IsVisible(Contents(list[i]), k, s, e)
    ensures IsVisible(All(L), k, s, e)
  {
    var top := list[i];
    assert top in L[level] && e in top.entries;
    assert e in EntriesIn(L[level]) && e in All(L);
    forall d | d in All(L) && Candidate(d, k, s) ensures d.sn <= e.sn {
      var l: int, f: File :| 0 <= l < |L| && f in L[l] && d in f.entries;
      assert d in Contents(f);
      assert HasCandidate(Contents(f), k, s);
      if l > level {
        assert d in EntriesIn(L[l]);
        assert Newer(EntriesIn(L[level]), EntriesIn(L[l]));
      } else {
        FirstHitInLevel(list, L[level], i, k, s, e, f, d);
      }
    }
  }

  /** Reads the tables of one level in turn; stops at the first hit. */
  method SearchTables(ghost L: seq<set<File>>, ghost level: nat, list: seq<File>, k: UserKey, s: nat)
        returns (hit: Option<Entry>)
    requires Layout(L) && level < NUM_LEVELS && Silent(L, level, k, s)
    requires Leads(list, L[level], k, s)
    ensures hit.Some? ==> IsVisible(All(L), k, s, hit.value)
    ensures hit.None? ==> Silent(L, level + 1, k, s)
  {
    var i := 0;
    while i < |list|
      invariant i <= |list|
      invariant forall j :: 0 <= j < i ==> !HasCandidate(Contents(list[j]), k, s)
    {
      assert list[i] in L[level];
      hit := FileGet(list[i], k, s);
      if hit.Some? {
        FirstHitIsVisible(L, level, list, i, k, s, hit.value);
        return;
      }
      i := i + 1;
    }
    hit := None;
    forall f | f in L[level] ensures !HasCandidate(Contents(f), k, s) {
      assert !LedBy(list, f, k, s);
    }
  }

  /** Version::Get finds exactly what the snapshot sees in the whole version. */
  method Get(levels: seq<seq<File>>, k: UserKey, s: nat) returns (r: Answer)
    requires VersionOk(levels) && DistinctNumbers(levels[0])
    ensures r == Read(All(LevelSets(levels)), k, s)
  {
    ghost var L := LevelSets(levels);
    var level := 0;
    while level < NUM_LEVELS
      invariant level <= NUM_LEVELS
      invariant Silent(L, level, k, s)
    {
      assert L[level] == FileSet(levels[level]);
      LevelDistinct(L, level);
      var list := FilesToSearch(levels[level], level, k, s);
      var hit := SearchTables(L, level, list, k, s);
      if hit.Some? {
        VisibleIs(All(L), k, s, hit.value);
        return AnswerOf(hit);
      }
      level := level + 1;
    }
    SilentThroughout(L, k, s);
    VisibleNone(All(L), k, s);
    return NotFound;
  }
}
