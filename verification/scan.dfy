/** NewInternalIterator and NewIterator: the memtables and the tables of a view
    under one merging iterator, and the user's cursor over it. */
module Scans {
  import opened Keys
  import opened Mvcc
  import opened Levels
  import opened Merger
  import TwoLevel
  import D = DbIterator
  import opened Lsm

  // ---- A merge exists ----

  /** e is among the first c runs, or the first i entries of run c. */
  ghost predicate Among(runs: seq<seq<Entry>>, c: nat, i: nat, e: Entry) {
    exists d, j :: 0 <= d < |runs| && 0 <= j < |runs[d]| && (d < c || (d == c && j < i)) && runs[d][j] == e
  }

  function InsertAt(es: seq<Entry>, p: nat, e: Entry): seq<Entry>
    requires p <= |es|
  {
    es[..p] + [e] + es[p..]
  }

  lemma InsertMembers(es: seq<Entry>, p: nat, e: Entry)
    requires p <= |es|
    ensures forall d :: d in InsertAt(es, p, e) <==> d == e || d in es
  {
    assert es == es[..p] + es[p..];
  }

  lemma InsertSorted(es: seq<Entry>, e: Entry)
    requires SortedEntries(es) && forall d :: d in es ==> Differ(KeyOf(d), KeyOf(e))
    ensures SortedEntries(InsertAt(es, LowerBound(es, KeyOf(e)), e))
  {
    var p := LowerBound(es, KeyOf(e));
    var r := InsertAt(es, p, e);
    forall j | p <= j < |es| ensures Before(KeyOf(e), KeyOf(es[j])) {
      assert es[j] in es && (j == p || Before(KeyOf(es[p]), KeyOf(es[j])));
    }
    forall i, j | 0 <= i < j < |r| ensures Before(KeyOf(r[i]), KeyOf(r[j])) {
      assert r[i] == if i < p then es[i] else if i == p then e else es[i - 1];
      assert r[j] == if j < p then es[j] else if j == p then e else es[j - 1];
    }
  }

  lemma {:induction false} MergeUpTo(runs: seq<seq<Entry>>, c: nat, i: nat) returns (merged: seq<Entry>)
    requires RunsOk(runs) && c <= |runs| && (if c < |runs| then i <= |runs[c]| else i == 0)
    ensures SortedEntries(merged) && forall e :: e in merged <==> Among(runs, c, i, e)
    decreases c, i
  {
    if i > 0 {
      var rest := MergeUpTo(runs, c, i - 1);
      var e := runs[c][i - 1];
      forall d | d in rest ensures Differ(KeyOf(d), KeyOf(e)) {
        var x, y :| 0 <= x < |runs| && 0 <= y < |runs[x]| && (x < c || (x == c && y < i - 1)) && runs[x][y] == d;
        Apart(runs, x, y, c, i - 1);
      }
      InsertSorted(rest, e);
      merged := InsertAt(rest, LowerBound(rest, KeyOf(e)), e);
      InsertMembers(rest, LowerBound(rest, KeyOf(e)), e);
      forall d ensures d in merged <==> Among(runs, c, i, d) {
        assert Among(runs, c, i, d) <==> d == e || Among(runs, c, i - 1, d);
      }
    } else if c > 0 {
      merged := MergeUpTo(runs, c - 1, |runs[c - 1]|);
      forall d ensures Among(runs, c - 1, |runs[c - 1]|, d) <==> Among(runs, c, 0, d) {}
    } else {
      merged := [];
    }
  }

  lemma MergeExists(runs: seq<seq<Entry>>) returns (merged: seq<Entry>)
    requires RunsOk(runs)
    ensures IsMerge(runs, merged)
  {
    merged := MergeUpTo(runs, |runs|, 0);
    forall e ensures Among(runs, |runs|, 0, e) <==> InRuns(runs, e) {}
  }

  // ---- The runs of a view ----

  ghost function RunEntries(runs: seq<seq<Entry>>): set<Entry> {
    set c, i | 0 <= c < |runs| && 0 <= i < |runs[c]| :: runs[c][i]
  }

  /** No key in both. */
  ghost predicate KeysApart(A: set<Entry>, B: set<Entry>) {
    forall d, e :: d in A && e in B ==> KeyOf(d) != KeyOf(e)
  }

  lemma NewerApart(A: set<Entry>, B: set<Entry>)
    requires Newer(A, B) || Newer(B, A)
    ensures KeysApart(A, B)
  {}

  lemma AddRun(runs: seq<seq<Entry>>, run: seq<Entry>)
    requires RunsOk(runs) && SortedEntries(run) && KeysApart(RunEntries(runs), Elems(run))
    ensures RunsOk(runs + [run]) && RunEntries(runs + [run]) == RunEntries(runs) + Elems(run)
  {
    var all := runs + [run];
    forall c, d, i, j | 0 <= c < |all| && 0 <= d < |all| && c != d && 0 <= i < |all[c]| && 0 <= j < |all[d]|
      ensures KeyOf(all[c][i]) != KeyOf(all[d][j])
    {
      assert c < |runs| ==> all[c][i] == runs[c][i] && runs[c][i] in RunEntries(runs);
      assert d < |runs| ==> all[d][j] == runs[d][j] && runs[d][j] in RunEntries(runs);
      assert c == |runs| ==> all[c][i] in Elems(run);
      assert d == |runs| ==> all[d][j] in Elems(run);
    }
    RunEntriesAdd(runs, run);
  }

  lemma RunEntriesAdd(runs: seq<seq<Entry>>, run: seq<Entry>)
    ensures RunEntries(runs + [run]) == RunEntries(runs) + Elems(run)
  {
    var all := runs + [run];
    forall e | e in RunEntries(runs) ensures e in RunEntries(all) {
      var c, i :| 0 <= c < |runs| && 0 <= i < |runs[c]| && runs[c][i] == e;
      assert all[c][i] == e;
    }
    forall e | e in Elems(run) ensures e in RunEntries(all) {
      var i :| 0 <= i < |run| && run[i] == e;
      assert all[|runs|][i] == e;
    }
    forall e | e in RunEntries(all) ensures e in RunEntries(runs) + Elems(run) {
      var c, i :| 0 <= c < |all| && 0 <= i < |all[c]| && all[c][i] == e;
      assert c < |runs| ==> runs[c][i] == e;
    }
  }

  ghost function ImmOf(imm: Option<seq<Entry>>): set<Entry> {
    if imm.Some? then Elems(imm.value) else {}
  }

  method MemRuns(mem: seq<Entry>, imm: Option<seq<Entry>>) returns (list: seq<seq<Entry>>)
    requires SortedEntries(mem) && (imm.Some? ==> SortedEntries(imm.value)) && Newer(Elems(mem), ImmOf(imm))
    ensures RunsOk(list) && RunEntries(list) == Elems(mem) + ImmOf(imm)
  {
    list := [];
    assert RunEntries([]) == {};
    AddRun([], mem);
    list := list + [mem];
    if imm.Some? {
      NewerApart(Elems(mem), Elems(imm.value));
      AddRun(list, imm.value);
      list := list + [imm.value];
    }
  }

  /** One run per table of level 0. */
  method LevelZeroRuns(list0: seq<seq<Entry>>, files: seq<File>) returns (list: seq<seq<Entry>>)
    requires RunsOk(list0) && (forall f :: f in files ==> FileOk(f))
    requires NumberedByAge(FileSet(files)) && VersionGet.DistinctNumbers(files)
    requires Newer(RunEntries(list0), EntriesIn(FileSet(files)))
    ensures RunsOk(list) && RunEntries(list) == RunEntries(list0) + EntriesIn(FileSet(files))
  {
    list := list0;
    for i := 0 to |files|
      invariant RunsOk(list) && RunEntries(list) == RunEntries(list0) + EntriesIn(FileSet(files[..i]))
    {
      assert files[i] in files;
      FileApart(files, i, RunEntries(list0));
      AddRun(list, files[i].entries);
      FileAdded(files, i);
      list := list + [files[i].entries];
    }
    assert files[..|files|] == files;
  }

  lemma FileAdded(files: seq<File>, i: nat)
    requires i < |files|
    ensures EntriesIn(FileSet(files[..i + 1])) == EntriesIn(FileSet(files[..i])) + Elems(files[i].entries)
  {
    assert files[..i + 1] == files[..i] + [files[i]];
    assert FileSet(files[..i + 1]) == FileSet(files[..i]) + {files[i]};
  }

  lemma FileApart(files: seq<File>, i: nat, A: set<Entry>)
    requires i < |files| && NumberedByAge(FileSet(files)) && VersionGet.DistinctNumbers(files)
             && Newer(A, EntriesIn(FileSet(files)))
    ensures KeysApart(A + EntriesIn(FileSet(files[..i])), Elems(files[i].entries))
  {
    var f := files[i];
    assert f in FileSet(files);
    forall d, e | d in A + EntriesIn(FileSet(files[..i])) && e in Elems(f.entries) ensures KeyOf(d) != KeyOf(e) {
      assert e in EntriesIn(FileSet(files));
      if d !in A {
        var g :| g in FileSet(files[..i]) && d in g.entries;
        var j :| 0 <= j < i && files[..i][j] == g;
        assert files[j] == g && g in FileSet(files) && g.number != f.number;
        assert d in Contents(g) && e in Contents(f);
        assert Newer(Contents(f), Contents(g)) || Newer(Contents(g), Contents(f));
      }
    }
  }

  /** The run of a level above 0: its tables end to end, as the concatenating
      iterator reads them. */
  function LevelRun(files: seq<File>): seq<Entry> {
    var blocks := seq(|files|, i requires 0 <= i < |files| => files[i].entries);
    TwoLevel.Flat(blocks, |blocks|)
  }

  lemma LevelRunOk(files: seq<File>)
    requires SortedLevel(files) && forall f :: f in files ==> FileOk(f)
    ensures SortedEntries(LevelRun(files)) && Elems(LevelRun(files)) == EntriesIn(FileSet(files))
  {
    var index := seq(|files|, i requires 0 <= i < |files| => files[i].largest);
    var blocks := seq(|files|, i requires 0 <= i < |files| => files[i].entries);
    TwoLevel.SortedLevelIndex(files);
    TwoLevel.FlatSorted(index, blocks);
    forall e | e in EntriesIn(FileSet(files)) ensures e in LevelRun(files) {
      var f :| f in files && e in f.entries;
      var b :| 0 <= b < |files| && files[b] == f;
      var i :| 0 <= i < |f.entries| && f.entries[i] == e;
      TwoLevel.FlatAt(blocks, |blocks|, b, i);
    }
    forall e | e in LevelRun(files) ensures e in EntriesIn(FileSet(files)) {
      var p :| 0 <= p < |LevelRun(files)| && LevelRun(files)[p] == e;
      var b, i := TwoLevel.Locate(blocks, |blocks|, p);
      assert files[b] in FileSet(files) && e in files[b].entries;
    }
  }

  ghost function UpTo(levels: seq<seq<File>>, n: nat): set<Entry>
    requires n <= |levels|
  {
    set l, f, e | 0 <= l < n && f in levels[l] && e in f.entries :: e
  }

  lemma NextLevel(levels: seq<seq<File>>, n: nat)
    requires n < |levels|
    ensures UpTo(levels, n + 1) == UpTo(levels, n) + EntriesIn(FileSet(levels[n]))
  {
    forall e | e in EntriesIn(FileSet(levels[n])) ensures e in UpTo(levels, n + 1) {
      var f :| f in FileSet(levels[n]) && e in f.entries;
      assert f in levels[n];
    }
  }

  lemma LevelNewer(levels: seq<seq<File>>, n: nat, A: set<Entry>)
    requires VersionOk(levels) && n < NUM_LEVELS && Newer(A, All(LevelSets(levels)))
    ensures Newer(A + UpTo(levels, n), EntriesIn(FileSet(levels[n])))
  {
    var L: seq<set<File>> := LevelSets(levels);
    forall d, e | d in A + UpTo(levels, n) && e in EntriesIn(FileSet(levels[n]))
        && d.user == e.user ensures d.sn > e.sn {
      var f :| f in levels[n] && e in f.entries;
      assert f in L[n] && e in All(L);
      if d !in A {
        var l, g :| 0 <= l < n && g in levels[l] && d in g.entries;
        assert g in L[l];
        assert Newer(EntriesIn(L[l]), EntriesIn(L[n]));
      }
    }
  }

  /** Version::AddIterators. */
  method AddIterators(list0: seq<seq<Entry>>, levels: seq<seq<File>>) returns (list: seq<seq<Entry>>)
    requires RunsOk(list0) && VersionOk(levels) && VersionGet.DistinctNumbers(levels[0])
    requires Newer(RunEntries(list0), All(LevelSets(levels)))
    ensures RunsOk(list) && RunEntries(list) == RunEntries(list0) + All(LevelSets(levels))
  {
    ghost var A := RunEntries(list0);
    VersionLevelsSorted(levels);
    assert LevelSets(levels)[0] == FileSet(levels[0]);
    assert UpTo(levels, 0) == {} && A + UpTo(levels, 0) == A;
    LevelNewer(levels, 0, A);
    list := LevelZeroRuns(list0, levels[0]);
    NextLevel(levels, 0);
    for l := 1 to NUM_LEVELS
      invariant RunsOk(list) && RunEntries(list) == A + UpTo(levels, l)
    {
      NextLevel(levels, l);
      if |levels[l]| > 0 {
        LevelNewer(levels, l, A);
        LevelRunOk(levels[l]);
        NewerApart(A + UpTo(levels, l), EntriesIn(FileSet(levels[l])));
        AddRun(list, LevelRun(levels[l]));
        list := list + [LevelRun(levels[l])];
      }
    }
    AllUpTo(levels);
  }

  lemma AllUpTo(levels: seq<seq<File>>)
    ensures UpTo(levels, |levels|) == All(LevelSets(levels))
  {
    var L: seq<set<File>> := LevelSets(levels);
    forall e | e in UpTo(levels, |levels|) ensures e in All(L) {
      var l, f :| 0 <= l < |levels| && f in levels[l] && e in f.entries;
      assert f in L[l];
    }
    forall e | e in All(L) ensures e in UpTo(levels, |levels|) {
      var l, f :| 0 <= l < |L| && f in L[l] && e in f.entries;
      assert f in levels[l];
    }
  }

  // ---- The iterators ----

  /** Lists that hold the view: sorted memtables and a version as it is stored. */
  ghost predicate Lists(mem: seq<Entry>, imm: Option<seq<Entry>>, levels: seq<seq<File>>, v: View) {
    && SortedEntries(mem) && (imm.Some? ==> SortedEntries(imm.value))
    && VersionOk(levels) && VersionGet.DistinctNumbers(levels[0])
    && v == View(Elems(mem), ImmOf(imm), LevelSets(levels))
  }

  /** DBImpl::NewInternalIterator. */
  method NewInternalIterator(mem: seq<Entry>, imm: Option<seq<Entry>>, levels: seq<seq<File>>, ghost v: View)
      returns (iter: MergingIterator, ghost es: seq<Entry>)
    requires Lists(mem, imm, levels, v) && ViewOk(v)
    ensures fresh(iter) && iter.Consistent() && !iter.Valid() && D.MergeOf(iter.runs, es) && Elems(es) == Entries(v)
  {
    var list := MemRuns(mem, imm);
    list := AddIterators(list, levels);
    iter := new MergingIterator(list);
    es := MergeExists(list);
    forall e ensures e in Elems(es) <==> e in Entries(v) {
      assert InRuns(list, e) <==> e in RunEntries(list);
    }
    D.MergeParts(list, es);
  }

  /** DBImpl::NewIterator: a cursor whose live keys and values are the reads of the
      view at the snapshot. */
  method NewIterator(mem: seq<Entry>, imm: Option<seq<Entry>>, levels: seq<seq<File>>, s: nat, ghost v: View)
        returns (it: D.DBIter)
    requires Lists(mem, imm, levels, v) && ViewOk(v)
    ensures fresh(it) && fresh(it.iter) && it.Consistent() && !it.valid && it.sequence == s
            && Elems(it.es) == Entries(v)
  {
    var iter, es := NewInternalIterator(mem, imm, levels, v);
    it := new D.DBIter(iter, s, es);
  }

  // ---- Scanning ----

  /** A key and its value. */
  datatype Pair = Pair(key: UserKey, value: Bytes)

  /** Exactly the keys a read at the snapshot finds, in order, with what it finds. */
  ghost predicate IsScan(S: set<Entry>, s: nat, out: seq<Pair>) {
    && (forall i, j :: 0 <= i < j < |out| ==> out[i].key < out[j].key)
    && (forall i :: 0 <= i < |out| ==> Read(S, out[i].key, s) == Found(out[i].value))
    && (forall u :: D.Live(S, s, u) ==> exists i :: 0 <= i < |out| && out[i].key == u)
  }

  /** The live keys up to the last one listed. */
  ghost predicate ScannedTo(S: set<Entry>, s: nat, out: seq<Pair>) {
    && (forall i, j :: 0 <= i < j < |out| ==> out[i].key < out[j].key)
    && (forall i :: 0 <= i < |out| ==> Read(S, out[i].key, s) == Found(out[i].value))
    && (forall u :: D.Live(S, s, u) && |out| > 0 && u <= out[|out| - 1].key ==>
       exists i :: 0 <= i < |out| && out[i].key == u)
  }

  ghost function Bound(out: seq<Pair>): D.Bound {
    if |out| == 0 then D.Unbounded else D.Exclusive(out[|out| - 1].key)
  }

  lemma ScanStep(S: set<Entry>, s: nat, out: seq<Pair>, k: UserKey, v: Bytes)
    requires ScannedTo(S, s, out) && D.LeastLive(S, s, Bound(out), true, k) && Read(S, k, s) == Found(v)
    ensures ScannedTo(S, s, out + [Pair(k, v)])
  {
    var out' := out + [Pair(k, v)];
    forall u | D.Live(S, s, u) && u <= k ensures exists i :: 0 <= i < |out'| && out'[i].key == u {
      if D.Above(Bound(out), u) {
        assert out'[|out|].key == u;
      } else {
        var i :| 0 <= i < |out| && out[i].key == u;
        assert out'[i].key == u;
      }
    }
  }

  lemma ScanEnd(S: set<Entry>, s: nat, out: seq<Pair>, k: UserKey)
    requires ScannedTo(S, s, out) && D.LeastLive(S, s, Bound(out), false, k)
    ensures IsScan(S, s, out)
  {
    forall u | D.Live(S, s, u) ensures exists i :: 0 <= i < |out| && out[i].key == u {
      assert !D.Above(Bound(out), u);
    }
  }

  /** How many of the first n entries are above a bound. */
  ghost function Left(es: seq<Entry>, n: nat, b: D.Bound): nat
    requires n <= |es|
  {
    if n == 0 then 0 else Left(es, n - 1, b) + if D.Above(b, es[n - 1].user) then 1 else 0
  }

  lemma {:induction false} FewerLeft(es: seq<Entry>, n: nat, b: D.Bound, k: UserKey)
    requires n <= |es| && D.Above(b, k) && !b.Inclusive?
    ensures Left(es, n, D.Exclusive(k)) <= Left(es, n, b)
    ensures (exists j :: 0 <= j < n && es[j].user == k) ==> Left(es, n, D.Exclusive(k)) < Left(es, n, b)
  {
    if n > 0 {
      FewerLeft(es, n - 1, b, k);
    }
  }

  lemma LiveThere(es: seq<Entry>, s: nat, k: UserKey)
    requires D.Live(Elems(es), s, k)
    ensures exists j :: 0 <= j < |es| && es[j].user == k
  {
    var e := Visible(Elems(es), k, s).value;
    assert IsVisible(Elems(es), k, s, e);
    var j :| 0 <= j < |es| && es[j] == e;
  }

  /** A whole scan forward. */
  method ScanForward(it: D.DBIter) returns (out: seq<Pair>)
    requires it.Consistent()
    modifies it, it.iter
    ensures it.Consistent() && IsScan(Elems(it.es), it.sequence, out)
  {
    ghost var S, s := Elems(it.es), it.sequence;
    out := [];
    it.SeekToFirst();
    while it.valid
      invariant it.Consistent() && ScannedTo(S, s, out)
      invariant D.LeastLive(S, s, Bound(out), it.valid, if it.valid then it.Key() else 0.0)
      decreases Left(it.es, |it.es|, Bound(out)), it.valid
    {
      var key, value := it.Key(), it.Value();
      ScanStep(S, s, out, key, value);
      LiveThere(it.es, s, key);
      FewerLeft(it.es, |it.es|, Bound(out), key);
      out := out + [Pair(key, value)];
      it.Next();
    }
    ScanEnd(S, s, out, 0.0);
  }

  lemma SameScan(S: set<Entry>, H: set<Entry>, s: nat, out: seq<Pair>)
    requires IsScan(S, s, out) && forall k: UserKey :: Read(S, k, s) == Read(H, k, s)
    ensures IsScan(H, s, out)
  {
    forall u | D.Live(H, s, u) ensures exists i :: 0 <= i < |out| && out[i].key == u {
      assert D.Live(S, s, u);
    }
  }

  /** The scan theorem.  In every run, at every moment, a scan of what a read in
      flight has pinned gives exactly the keys and values of the history at its
      snapshot, in key order. */
  method ScanSeesSnapshot(ghost trace: seq<State>, ghost n: nat, ghost id: nat, mem: seq<Entry>,
        imm: Option<seq<Entry>>,
                          levels: seq<seq<File>>, snap: nat) returns (out: seq<Pair>)
    requires Run(trace) && n < |trace| && id in trace[n].readers && trace[n].readers[id].snap == snap
    requires ReaderIds(trace[n], trace[n].readers[id])
    requires Lists(mem, imm, levels, ViewOf(trace[n].tables, trace[n].readers[id]))
    ensures IsScan(trace[n].hist, snap, out)
  {
    ghost var v := ViewOf(trace[n].tables, trace[n].readers[id]);
    forall k: UserKey ensures ViewOk(v) && Read(Entries(v), k, snap) == Read(trace[n].hist, k, snap) {
      ReadsSeeTheirSnapshot(trace, n, id, k);
    }
    assert ViewOk(v) by {
      ReadsSeeTheirSnapshot(trace, n, id, 0.0);
    }
    var it := NewIterator(mem, imm, levels, snap, v);
    out := ScanForward(it);
    SameScan(Entries(v), trace[n].hist, snap, out);
  }
}
