/** Version edits on the layout: what a flush, a compaction and a trivial move
    do to the levels, and that each keeps the layout invariant. */
module Install {
  import opened Mvcc
  import opened Levels
  import opened Inputs
  import opened Compactions

  // ---- Flush ----

  ghost function AddFile(L: seq<set<File>>, level: nat, f: File): seq<set<File>>
    requires level < |L|
  {
    L[level := L[level] + {f}]
  }

  ghost predicate Numbers(L: seq<set<File>>, below: nat) {
    forall l, f :: 0 <= l < |L| && f in L[l] ==> f.number < below
  }

  lemma AddFileEntries(L: seq<set<File>>, level: nat, f: File)
    requires level < |L|
    ensures All(AddFile(L, level, f)) == All(L) + Contents(f)
    ensures EntriesIn(L[level] + {f}) == EntriesIn(L[level]) + Contents(f)
  {
    var L' := AddFile(L, level, f);
    forall e ensures e in All(L') <==> e in All(L) + Contents(f) {
      if e in All(L') {
        var l: int, g: File :| 0 <= l < |L'| && g in L'[l] && e in g.entries;
        if g != f { assert g in L[l]; }
      }
      if e in All(L) {
        var l: int, g: File :| 0 <= l < |L| && g in L[l] && e in g.entries;
        assert g in L'[l];
      }
      if e in Contents(f) {
        assert f in L'[level];
      }
    }
  }

  /** The memtable's file lands where nothing shallower shares a key with it. */
  ghost predicate FlushTarget(L: seq<set<File>>, level: nat, f: File) {
    && level <= MAX_MEM_COMPACT_LEVEL
    && (level > 0 ==> forall l, g :: 0 <= l <= level && l < |L| && g in L[l] ==>
          !Overlaps(g, Range(Some(f.smallest.user), Some(f.largest.user))))
  }

  /** Two files have no user key in common. */
  ghost predicate NoSharedKey(f: File, g: File) {
    forall d, e :: d in f.entries && e in g.entries ==> d.user != e.user
  }

  lemma NoOverlapNoSharedKey(f: File, g: File)
    requires FileOk(f) && FileOk(g)
    requires !Overlaps(g, Range(Some(f.smallest.user), Some(f.largest.user)))
    ensures NoSharedKey(f, g)
    ensures Before(f.largest, g.smallest) || Before(g.largest, f.smallest)
  {
    forall d, e | d in f.entries && e in g.entries ensures d.user != e.user {
      FileCovers(f, d);
      FileCovers(g, e);
    }
    FileCovers(f, f.entries[0]);
    FileCovers(g, g.entries[0]);
  }

  lemma FlushNewest(f: File, level: set<File>)
    requires FileOk(f) && forall g :: g in level ==> FileOk(g)
    requires forall g :: g in level ==> !Overlaps(g, Range(Some(f.smallest.user), Some(f.largest.user)))
    ensures Newer(EntriesIn(level), Contents(f))
    ensures DisjointFiles(level) ==> DisjointFiles(level + {f})
  {
    forall g | g in level ensures NoSharedKey(f, g)
        && (Before(f.largest, g.smallest) || Before(g.largest, f.smallest)) {
      NoOverlapNoSharedKey(f, g);
    }
  }

  lemma FlushKeepsOrder(L: seq<set<File>>, level: nat, f: File)
    requires |L| == NUM_LEVELS && FilesOk(L) && LevelsOrdered(L) && FlushTarget(L, level, f) && FileOk(f)
    requires Newer(Contents(f), All(L))
    ensures LevelsOrdered(AddFile(L, level, f))
  {
    var L' := AddFile(L, level, f);
    AddFileEntries(L, level, f);
    forall i, j | 0 <= i < j < |L'| ensures Newer(EntriesIn(L'[i]), EntriesIn(L'[j])) {
      assert Newer(EntriesIn(L[i]), EntriesIn(L[j]));
      if i == level {
        assert EntriesIn(L[j]) <= All(L);
      } else if j == level {
        FlushNewest(f, L[i]);
      }
    }
  }

  lemma FlushKeepsDisjoint(L: seq<set<File>>, level: nat, f: File)
    requires |L| == NUM_LEVELS && FilesOk(L) && LevelsDisjoint(L) && FlushTarget(L, level, f) && FileOk(f)
    ensures LevelsDisjoint(AddFile(L, level, f))
  {
    if level > 0 {
      assert DisjointFiles(L[level]);
      FlushNewest(f, L[level]);
    }
  }

  lemma FlushKeepsNumbered(fs: set<File>, f: File)
    requires NumberedByAge(fs) && forall g :: g in fs ==> g.number < f.number
    requires Newer(Contents(f), EntriesIn(fs))
    ensures NumberedByAge(fs + {f})
  {
    forall g | g in fs ensures Newer(Contents(f), Contents(g)) {
      assert Contents(g) <= EntriesIn(fs);
    }
  }

  lemma FlushKeepsLayout(L: seq<set<File>>, level: nat, f: File)
    requires Layout(L) && FlushTarget(L, level, f) && FileOk(f)
    requires Newer(Contents(f), All(L)) && DistinctSeqs(All(L) + Contents(f))
    requires Numbers(L, f.number)
    ensures Layout(AddFile(L, level, f))
  {
    AddFileEntries(L, level, f);
    FlushKeepsOrder(L, level, f);
    FlushKeepsDisjoint(L, level, f);
    if level == 0 {
      assert EntriesIn(L[0]) <= All(L);
      FlushKeepsNumbered(L[0], f);
    }
    assert FilesOk(AddFile(L, level, f));
  }

  // ---- Compaction ----

  /** The levels without the inputs. */
  ghost function Without(L: seq<set<File>>, level: nat, in0: set<File>, in1: set<File>): seq<set<File>>
    requires level + 1 < |L|
  {
    L[level := L[level] - in0][level + 1 := L[level + 1] - in1]
  }

  /** ... and with the outputs at the next level. */
  ghost function Installed(L: seq<set<File>>, level: nat, in0: set<File>, in1: set<File>,
        outs: set<File>): seq<set<File>>
    requires level + 1 < |L|
  {
    L[level := L[level] - in0][level + 1 := (L[level + 1] - in1) + outs]
  }

  /** No file left behind shares a user key with one taken. */
  ghost predicate KeyClosed(fs: set<File>, taken: set<File>) {
    forall f, g :: f in taken && g in fs && g !in taken ==> NoSharedKey(f, g)
  }

  /** At level 0 the input selection already guarantees closure. */
  lemma LevelZeroClosed(L: seq<set<File>>, in0: set<File>, in1: set<File>)
    requires Layout(L) && Picked(L, 0, in0, in1)
    ensures KeyClosed(L[0], in0)
  {
    forall f, g | f in in0 && g in L[0] && g !in in0 ensures NoSharedKey(f, g) {
      assert !MeetsHull(g, in0);
      NoOverlapNoSharedKey(f, g);
    }
  }

  /** The two inputs of a compaction as the code picks them, with outputs as
      DoCompactionWork produces them; nothing is said about closure. */
  ghost predicate Delivers(L: seq<set<File>>, level: nat, in0: set<File>, in1: set<File>, outs: set<File>) {
    && level + 1 < NUM_LEVELS && Layout(L) && Picked(L, level, in0, in1)
    && (forall f :: f in outs ==> FileOk(f)) && DisjointFiles(outs)
    && EntriesIn(outs) <= EntriesIn(in0 + in1)
  }

  /** ... and closed on user keys at both levels. */
  ghost predicate Compacts(L: seq<set<File>>, level: nat, in0: set<File>, in1: set<File>, outs: set<File>) {
    && Delivers(L, level, in0, in1, outs)
    && KeyClosed(L[level], in0) && KeyClosed(L[level + 1], in1)
  }

  ghost predicate AllBefore(f: File, g: File) {
    forall e :: e in f.entries ==> Before(KeyOf(e), g.smallest)
  }

  ghost predicate AllAfter(f: File, g: File) {
    forall e :: e in f.entries ==> Before(g.largest, KeyOf(e))
  }

  /** A file of the next level that is not taken lies to one side of the hull. */
  ghost predicate Below(g: File, in0: set<File>) {
    forall f :: f in in0 ==> g.largest.user < f.smallest.user
  }

  ghost predicate Above(g: File, in0: set<File>) {
    forall f :: f in in0 ==> f.largest.user < g.smallest.user
  }

  lemma BesideHull(g: File, in0: set<File>)
    requires FileOk(g) && !MeetsHull(g, in0)
    ensures Below(g, in0) || Above(g, in0)
  {
    FileCovers(g, g.entries[0]);
  }

  lemma FirstInputBeside(f: File, g: File)
    requires FileOk(f)
    ensures g.largest.user < f.smallest.user ==> AllAfter(f, g)
    ensures f.largest.user < g.smallest.user ==> AllBefore(f, g)
  {
    forall e | e in f.entries ensures Covers(f, e.user) {
      FileCovers(f, e);
    }
  }

  /** A second input meets the hull, so it lies on the same side of g as the
      first inputs, even when it shares a user key with g. */
  lemma SecondInputBeside(h: File, g: File, in0: set<File>)
    requires FileOk(h) && FileOk(g) && MeetsHull(h, in0)
    requires Before(h.largest, g.smallest) || Before(g.largest, h.smallest)
    ensures Below(g, in0) ==> AllAfter(h, g)
    ensures Above(g, in0) ==> AllBefore(h, g)
  {
    FileCovers(g, g.entries[0]);
    forall e | e in h.entries ensures Before(h.largest, g.smallest) ==> Before(KeyOf(e), g.smallest)
                              ensures Before(g.largest, h.smallest) ==> Before(g.largest, KeyOf(e)) {
      FileCovers(h, e);
    }
  }

  lemma OutputBeside(L: seq<set<File>>, level: nat, in0: set<File>, in1: set<File>, outs: set<File>, o: File, g: File)
    requires Delivers(L, level, in0, in1, outs) && o in outs && g in L[level + 1] && g !in in1
    ensures Before(o.largest, g.smallest) || Before(g.largest, o.smallest)
  {
    BesideHull(g, in0);
    forall e | e in o.entries
      ensures Below(g, in0) ==> Before(g.largest, KeyOf(e))
      ensures Above(g, in0) ==> Before(KeyOf(e), g.smallest)
    {
      assert e in EntriesIn(outs);
      var f :| f in in0 + in1 && e in f.entries;
      if f in in0 {
        FirstInputBeside(f, g);
      } else {
        assert DisjointFiles(L[level + 1]);
        SecondInputBeside(f, g, in0);
      }
    }
    assert o.entries[0] in o.entries && o.entries[|o.entries| - 1] in o.entries;
  }

  /** The files of every level stay apart, closed inputs or not. */
  lemma InstallDisjoint(L: seq<set<File>>, level: nat, in0: set<File>, in1: set<File>, outs: set<File>)
    requires Delivers(L, level, in0, in1, outs)
    ensures LevelsDisjoint(Installed(L, level, in0, in1, outs))
  {
    var L' := Installed(L, level, in0, in1, outs);
    forall o, g | o in outs && g in L[level + 1] && g !in in1
      ensures Before(o.largest, g.smallest) || Before(g.largest, o.smallest)
    {
      OutputBeside(L, level, in0, in1, outs, o, g);
    }
    assert DisjointFiles(L[level + 1]);
    assert DisjointFiles(L'[level + 1]);
    assert level > 0 ==> DisjointFiles(L[level]);
  }

  lemma InstalledFile(L: seq<set<File>>, level: nat, in0: set<File>, in1: set<File>, outs: set<File>, l: nat, f: File)
    requires level + 1 < |L| && l < |L| && f in Installed(L, level, in0, in1, outs)[l]
    ensures l != level + 1 ==> f in L[l]
    ensures l == level ==> f !in in0
    ensures l == level + 1 ==> f in outs || f in L[l]
  {}

  lemma FromInputs(N: set<File>, in0: set<File>, in1: set<File>, e: Entry)
    requires e in EntriesIn(in0 + in1) && in1 <= N
    ensures e in EntriesIn(N) || e in EntriesIn(in0)
  {
    var h :| h in in0 + in1 && e in h.entries;
    assert h in in0 || h in N;
  }

  /** Where an entry of the new layout was before. */
  lemma InstalledFrom(L: seq<set<File>>, level: nat, in0: set<File>, in1: set<File>, outs: set<File>, l: nat, e: Entry)
    requires Delivers(L, level, in0, in1, outs) && l < NUM_LEVELS
    requires e in EntriesIn(Installed(L, level, in0, in1, outs)[l])
    ensures l != level + 1 ==> e in EntriesIn(L[l])
    ensures l == level + 1 ==> e in EntriesIn(L[l]) || e in EntriesIn(in0)
    ensures l == level ==> exists g :: g in L[level] && g !in in0 && e in g.entries
  {
    var L' := Installed(L, level, in0, in1, outs);
    var f: File :| f in L'[l] && e in f.entries;
    InstalledFile(L, level, in0, in1, outs, l, f);
    if l == level + 1 && f in outs {
      assert e in EntriesIn(outs);
      FromInputs(L[l], in0, in1, e);
    }
  }

  lemma InstallKeepsPair(L: seq<set<File>>, level: nat, in0: set<File>, in1: set<File>, outs: set<File>, i: nat, j: nat,
        d: Entry, e: Entry)
    requires Delivers(L, level, in0, in1, outs) && KeyClosed(L[level], in0) && i < j < NUM_LEVELS
    requires d in EntriesIn(Installed(L, level, in0, in1, outs)[i])
    requires e in EntriesIn(Installed(L, level, in0, in1, outs)[j])
    ensures d.user == e.user ==> d.sn > e.sn
  {
    assert EntriesIn(in0) <= EntriesIn(L[level]);
    InstalledFrom(L, level, in0, in1, outs, i, d);
    InstalledFrom(L, level, in0, in1, outs, j, e);
    assert Newer(EntriesIn(L[i]), EntriesIn(L[j]));
    if j == level + 1 && e in EntriesIn(in0) {
      if i == level {
        var g :| g in L[level] && g !in in0 && d in g.entries;
        var f :| f in in0 && e in f.entries;
        assert NoSharedKey(f, g);
      } else {
        assert Newer(EntriesIn(L[i]), EntriesIn(L[level]));
      }
    } else if i == level + 1 && d in EntriesIn(in0) {
      assert Newer(EntriesIn(L[level]), EntriesIn(L[j]));
    }
  }

  lemma InstallKeepsOrder(L: seq<set<File>>, level: nat, in0: set<File>, in1: set<File>, outs: set<File>)
    requires Delivers(L, level, in0, in1, outs) && KeyClosed(L[level], in0)
    ensures LevelsOrdered(Installed(L, level, in0, in1, outs))
  {
    var L' := Installed(L, level, in0, in1, outs);
    forall i, j | 0 <= i < j < |L'| ensures Newer(EntriesIn(L'[i]), EntriesIn(L'[j])) {
      forall d, e | d in EntriesIn(L'[i]) && e in EntriesIn(L'[j]) ensures d.user == e.user ==> d.sn > e.sn {
        InstallKeepsPair(L, level, in0, in1, outs, i, j, d, e);
      }
    }
  }

  lemma InstalledEntries(L: seq<set<File>>, level: nat, in0: set<File>, in1: set<File>, outs: set<File>)
    requires level + 1 < |L| && in0 <= L[level] && in1 <= L[level + 1]
    ensures All(Installed(L, level, in0, in1, outs)) == All(Without(L, level, in0, in1)) + EntriesIn(outs)
    ensures All(L) == All(Without(L, level, in0, in1)) + EntriesIn(in0 + in1)
  {
    var L0 := Without(L, level, in0, in1);
    var L' := Installed(L, level, in0, in1, outs);
    forall e ensures e in All(L') <==> e in All(L0) + EntriesIn(outs) {
      if e in All(L') {
        var l: int, f: File :| 0 <= l < |L'| && f in L'[l] && e in f.entries;
        assert f in L0[l] || f in outs;
      }
      if e in All(L0) {
        var l: int, f: File :| 0 <= l < |L0| && f in L0[l] && e in f.entries;
        assert f in L'[l];
      }
      if e in EntriesIn(outs) {
        var f :| f in outs && e in f.entries;
        assert f in L'[level + 1];
      }
    }
    forall e ensures e in All(L) <==> e in All(L0) + EntriesIn(in0 + in1) {
      if e in All(L) {
        var l: int, f: File :| 0 <= l < |L| && f in L[l] && e in f.entries;
        assert f in L0[l] || f in in0 + in1;
      }
      if e in All(L0) {
        var l: int, f: File :| 0 <= l < |L0| && f in L0[l] && e in f.entries;
        assert f in L[l];
      }
      if e in EntriesIn(in0 + in1) {
        var f :| f in in0 + in1 && e in f.entries;
        assert f in L[level] || f in L[level + 1];
      }
    }
  }

  lemma SubsetNumbered(fs: set<File>, gs: set<File>)
    requires gs <= fs && NumberedByAge(fs)
    ensures NumberedByAge(gs)
  {}

  lemma InstallFilesOk(L: seq<set<File>>, level: nat, in0: set<File>, in1: set<File>, outs: set<File>)
    requires level + 1 < |L| && FilesOk(L) && forall f :: f in outs ==> FileOk(f)
    ensures FilesOk(Installed(L, level, in0, in1, outs))
  {
    var L' := Installed(L, level, in0, in1, outs);
    forall l, f | 0 <= l < |L'| && f in L'[l] ensures FileOk(f) {
      assert f in L[l] || f in outs;
    }
  }

  lemma InstallDistinct(L: seq<set<File>>, level: nat, in0: set<File>, in1: set<File>, outs: set<File>)
    requires level + 1 < |L| && in0 <= L[level] && in1 <= L[level + 1]
    requires DistinctSeqs(All(L)) && EntriesIn(outs) <= EntriesIn(in0 + in1)
    ensures DistinctSeqs(All(Installed(L, level, in0, in1, outs)))
  {
    InstalledEntries(L, level, in0, in1, outs);
    assert All(Installed(L, level, in0, in1, outs)) <= All(L);
  }

  /** Installing a compaction closed at its own level keeps the layout. */
  lemma InstallKeepsLayout(L: seq<set<File>>, level: nat, in0: set<File>, in1: set<File>, outs: set<File>)
    requires Delivers(L, level, in0, in1, outs) && KeyClosed(L[level], in0)
    ensures Layout(Installed(L, level, in0, in1, outs))
  {
    var L' := Installed(L, level, in0, in1, outs);
    InstallKeepsOrder(L, level, in0, in1, outs);
    InstallDisjoint(L, level, in0, in1, outs);
    InstallFilesOk(L, level, in0, in1, outs);
    InstallDistinct(L, level, in0, in1, outs);
    assert L'[0] <= L[0];
    SubsetNumbered(L[0], L'[0]);
  }

  /** Every key of an obsolete marker is gone from the files left alone, and
      what is shallower is newer: the marker hides nothing. */
  lemma ObsoleteHidesNothing(L: seq<set<File>>, level: nat, in0: set<File>, in1: set<File>, smallest: nat, e: Entry,
        l: nat, g: File, d: Entry)
    requires level + 1 < NUM_LEVELS == |L| && FilesOk(L) && LevelsOrdered(L) && Picked(L, level, in0, in1)
    requires KeyClosed(L[level], in0) && KeyClosed(L[level + 1], in1)
    requires e in EntriesIn(in0 + in1) && Obsolete(L, level, smallest, e)
    requires l < |L| && g in L[l] && g !in (if l == level then in0 else if l == level + 1 then in1 else {})
    requires d in g.entries
    ensures d.user == e.user ==> d.sn > e.sn
  {
    var f :| f in in0 + in1 && e in f.entries;
    assert d in EntriesIn(L[l]);
    var home := if f in in0 then level else level + 1;
    assert f in L[home] && e in EntriesIn(L[home]);
    FileCovers(g, d);
    if l < home {
      assert Newer(EntriesIn(L[l]), EntriesIn(L[home]));
    } else if l == home {
      assert NoSharedKey(f, g);
    } else if l == level + 1 {
      FileCovers(f, e);
      assert !MeetsHull(g, in0);
    }
  }

  lemma UntouchedOutlast(L: seq<set<File>>, level: nat, in0: set<File>, in1: set<File>, smallest: nat, e: Entry)
    requires level + 1 < NUM_LEVELS == |L| && FilesOk(L) && LevelsOrdered(L) && Picked(L, level, in0, in1)
    requires KeyClosed(L[level], in0) && KeyClosed(L[level + 1], in1)
    requires e in EntriesIn(in0 + in1) && Obsolete(L, level, smallest, e)
    ensures forall d :: d in All(Without(L, level, in0, in1)) && d.user == e.user ==> d.sn > e.sn
  {
    var L0 := Without(L, level, in0, in1);
    forall d | d in All(L0) ensures d.user == e.user ==> d.sn > e.sn {
      var l: int, g: File :| 0 <= l < |L0| && g in L0[l] && d in g.entries;
      ObsoleteHidesNothing(L, level, in0, in1, smallest, e, l, g, d);
    }
  }

  lemma SurvivorsSoundDrop(M: set<Entry>, L: seq<set<File>>, level: nat, in0: set<File>, in1: set<File>, smallest: nat)
    requires level + 1 < NUM_LEVELS == |L| && FilesOk(L) && LevelsOrdered(L) && Picked(L, level, in0, in1)
    requires KeyClosed(L[level], in0) && KeyClosed(L[level + 1], in1)
    requires Newer(M, EntriesIn(in0 + in1))
    requires DistinctSeqs(M + All(Without(L, level, in0, in1)) + EntriesIn(in0 + in1))
    ensures var S := EntriesIn(in0 + in1);
            SoundDrop(M + All(Without(L, level, in0, in1)), S, Survivors(S, L, level, smallest), smallest)
  {
    var S := EntriesIn(in0 + in1);
    var U := All(Without(L, level, in0, in1));
    var Out := Survivors(S, L, level, smallest);
    forall e | e in S && e !in Out ensures Hidden(S, smallest, e) || HidesNothing(M + U, smallest, e) {
      if Obsolete(L, level, smallest, e) {
        UntouchedOutlast(L, level, in0, in1, smallest, e);
      }
    }
  }

  /** The compaction theorem.  For user-key-closed inputs, and with anything at
      all that is newer in the memtables, no read at the smallest snapshot or
      later changes its answer. */
  lemma CompactionKeepsReads(M: set<Entry>, L: seq<set<File>>, level: nat, in0: set<File>, in1: set<File>,
        outs: set<File>, smallest: nat)
    requires Compacts(L, level, in0, in1, outs)
    requires Newer(M, All(L)) && DistinctSeqs(M + All(L))
    requires EntriesIn(outs) == Survivors(EntriesIn(in0 + in1), L, level, smallest)
    ensures SameAnswers(M + All(L), M + All(Installed(L, level, in0, in1, outs)), smallest)
  {
    InstalledEntries(L, level, in0, in1, outs);
    var S := EntriesIn(in0 + in1);
    var T := M + All(Without(L, level, in0, in1));
    assert M + All(L) == T + S;
    assert M + All(Installed(L, level, in0, in1, outs)) == T + EntriesIn(outs);
    assert Newer(M, S);
    SurvivorsSoundDrop(M, L, level, in0, in1, smallest);
    DropKeepsReads(T, S, EntriesIn(outs), smallest);
  }
}
