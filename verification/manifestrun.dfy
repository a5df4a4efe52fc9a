/** Every run of LogAndApply leaves a manifest from which Recover rebuilds the
    current version. */
module ManifestRun {
  import opened Keys
  import opened Mvcc
  import opened Levels
  import opened Manifest

  // ---- WriteSnapshot ----

  method SnapshotPointers(ps: seq<Option<InternalKey>>) returns (us: seq<(nat, InternalKey)>)
    requires |ps| == NUM_LEVELS
    ensures forall u :: u in us ==> u.0 < NUM_LEVELS
    ensures PointersAfter(NoPointers(), us, |us|) == ps
  {
    us := [];
    for level := 0 to NUM_LEVELS
      invariant forall u :: u in us ==> u.0 < NUM_LEVELS
      invariant forall l :: 0 <= l < NUM_LEVELS ==> PointersAfter(NoPointers(), us, |us|)[l] == if l < level then ps[l]
                                                    else None
    {
      if ps[level].Some? {
        PointersPrefix(NoPointers(), us, us + [(level, ps[level].value)], |us|);
        us := us + [(level, ps[level].value)];
      }
    }
  }

  lemma {:induction false} PointersPrefix(ps: seq<Option<InternalKey>>, us: seq<(nat, InternalKey)>,
        us': seq<(nat, InternalKey)>, n: nat)
    requires n <= |us| <= |us'| && us'[..n] == us[..n]
    requires (forall u :: u in us ==> u.0 < |ps|) && (forall u :: u in us' ==> u.0 < |ps|)
    ensures PointersAfter(ps, us, n) == PointersAfter(ps, us', n)
  {
    if n > 0 {
      assert us[n - 1] == us[..n][n - 1] && us'[n - 1] == us'[..n][n - 1];
      assert us'[..n - 1] == us'[..n][..n - 1] && us[..n - 1] == us[..n][..n - 1];
      PointersPrefix(ps, us, us', n - 1);
    }
  }

  method SnapshotFiles(levels: seq<seq<File>>) returns (added: seq<(nat, File)>)
    requires |levels| == NUM_LEVELS
    ensures forall a :: a in added <==> a.0 < NUM_LEVELS && a.1 in levels[a.0]
  {
    added := [];
    for level := 0 to NUM_LEVELS
      invariant forall a :: a in added <==> a.0 < level && a.1 in levels[a.0]
    {
      for i := 0 to |levels[level]|
        invariant forall a :: a in added <==> (a.0 < level && a.1 in levels[a.0])
                                              || (a.0 == level && a.1 in levels[level][..i])
      {
        assert levels[level][..i + 1] == levels[level][..i] + [levels[level][i]];
        added := added + [(level, levels[level][i])];
      }
      assert levels[level][..|levels[level]|] == levels[level];
    }
  }

  /** An edit that, from nothing, gives these levels and pointers. */
  ghost predicate IsSnapshot(e: Edit, levels: seq<seq<File>>, ps: seq<Option<InternalKey>>, name: Bytes)
    requires |levels| == |ps| == NUM_LEVELS
  {
    && EditLevels(e) && e.comparator == Some(name) && e.deleted == {}
    && e.logNumber.None? && e.prevLogNumber.None? && e.nextFile.None? && e.lastSequence.None?
    && PointersAfter(NoPointers(), e.pointers, |e.pointers|) == ps
    && forall a :: a in e.added <==> a.0 < NUM_LEVELS && a.1 in levels[a.0]
  }

  method WriteSnapshot(levels: seq<seq<File>>, ps: seq<Option<InternalKey>>, name: Bytes) returns (e: Edit)
    requires |levels| == |ps| == NUM_LEVELS
    ensures IsSnapshot(e, levels, ps, name)
  {
    var us := SnapshotPointers(ps);
    var added := SnapshotFiles(levels);
    e := Edit(Some(name), None, None, None, None, us, {}, added);
  }

  lemma SnapshotAdds(e: Edit, levels: seq<seq<File>>, ps: seq<Option<InternalKey>>, name: Bytes, l: nat)
    requires |levels| == |ps| == NUM_LEVELS && IsSnapshot(e, levels, ps, name) && l < NUM_LEVELS
    ensures AddedAt(e, l) == FileSet(levels[l]) && DeletedAt(e, l) == {}
  {
    forall f | f in FileSet(levels[l]) ensures f in AddedAt(e, l) {
      assert (l, f) in e.added;
      var k :| 0 <= k < |e.added| && e.added[k] == (l, f);
      assert e.added[k].0 == l && e.added[k].1 == f;
    }
    forall f | f in AddedAt(e, l) ensures f in FileSet(levels[l]) {
      var k :| 0 <= k < |e.added| && e.added[k].0 == l && e.added[k].1 == f;
      assert e.added[k] in e.added;
    }
  }

  // ---- The version set and its manifest ----

  datatype VersionSet = VersionSet(
    levels: seq<seq<File>>,
    pointers: seq<Option<InternalKey>>,
    logNumber: nat,
    prevLogNumber: nat,
    nextFile: nat,
    lastSequence: nat,
    pending: set<nat>,        // file numbers handed out and not yet used in an edit
    manifest: seq<Edit>)

  ghost function Nothing(): seq<set<File>> {
    LevelSets(NoLevels())
  }

  // ---- File numbers ----

  /** A number that was handed out and is no longer pending. */
  ghost predicate Used(number: nat, nextFile: nat, pending: set<nat>) {
    number < nextFile && number !in pending
  }

  /** Every number is on one level at most, for one file, and was handed out. */
  ghost predicate Placed(W: seq<set<File>>, nextFile: nat, pending: set<nat>) {
    && (forall n :: n in pending ==> n < nextFile)
    && (forall l, f :: 0 <= l < |W| && f in W[l] ==> Used(f.number, nextFile, pending))
    && (forall l, m, f, g :: 0 <= l < |W| && 0 <= m < |W| && f in W[l] && g in W[m] && f.number == g.number ==>
       l == m && f == g)
  }

  /** Every number the manifest added was handed out, and no file is above a level
      its number has been added to. */
  ghost predicate Traced(W: seq<set<File>>, es: seq<Edit>, nextFile: nat, pending: set<nat>) {
    forall i, l, f :: 0 <= i < |es| && f in AddedAt(es[i], l) ==> TracedFile(W, l, f.number, nextFile, pending)
  }

  ghost predicate TracedFile(W: seq<set<File>>, l: nat, number: nat, nextFile: nat, pending: set<nat>) {
    Used(number, nextFile, pending) && forall m, g :: 0 <= m < |W| && g in W[m] && g.number == number ==> l <= m
  }

  /** The file comes from the level above, which it leaves. */
  ghost predicate MovedDown(W: seq<set<File>>, e: Edit, a: (nat, File)) {
    0 < a.0 < |W| && a.1 in W[a.0 - 1] && a.1.number in DeletedAt(e, a.0 - 1)
  }

  /** Where an edit's additions come from: a table written under a number of its
      own, or a table moved one level down. */
  ghost predicate Supplied(W: seq<set<File>>, pending: set<nat>, e: Edit) {
    && (forall a, b :: a in e.added && b in e.added && a.1.number == b.1.number ==> a == b)
    && (forall a :: a in e.added ==> a.1.number in pending || MovedDown(W, e, a))
  }

  function StillPending(pending: set<nat>, e: Edit): set<nat> {
    set n | n in pending && forall a :: a in e.added ==> a.1.number != n
  }

  lemma AddedThere(e: Edit, l: nat, f: File)
    ensures f in AddedAt(e, l) <==> (l, f) in e.added
  {
    if (l, f) in e.added {
      var k :| 0 <= k < |e.added| && e.added[k] == (l, f);
      assert e.added[k].0 == l && e.added[k].1 == f;
    }
    if f in AddedAt(e, l) {
      var k :| 0 <= k < |e.added| && e.added[k].0 == l && e.added[k].1 == f;
      assert e.added[k] == (l, f);
    }
  }

  /** What an edit adds is new to its level. */
  lemma SuppliedIsFresh(W: seq<set<File>>, es: seq<Edit>, nextFile: nat, pending: set<nat>, e: Edit, l: nat)
    requires Placed(W, nextFile, pending) && Traced(W, es, nextFile, pending) && Supplied(W, pending, e)
    ensures OwnNumbers(AddedAt(e, l))
    ensures forall j, f, g :: 0 <= j < |es| && f in AddedAt(e, l) && g in AddedAt(es[j], l) ==> f.number != g.number
  {
    forall f, g | f in AddedAt(e, l) && g in AddedAt(e, l) && f.number == g.number ensures f == g {
      AddedThere(e, l, f);
      AddedThere(e, l, g);
      var a, b := (l, f), (l, g);
      assert a in e.added && b in e.added && a.1.number == b.1.number;
    }
    forall j, f, g | 0 <= j < |es| && f in AddedAt(e, l) && g in AddedAt(es[j], l) ensures f.number != g.number {
      AddedThere(e, l, f);
      assert TracedFile(W, l, g.number, nextFile, pending);
      var a := (l, f);
      assert a in e.added;
      assert a.1.number in pending || MovedDown(W, e, a);
    }
  }

  /** ... and to what the version holds, so the builder is as good as the edit. */
  lemma SuppliedEnters(W: seq<set<File>>, nextFile: nat, pending: set<nat>, e: Edit)
    requires Placed(W, nextFile, pending) && Supplied(W, pending, e)
    ensures NoReentry(W, [e], 1)
  {
    forall l: nat | l < |W| ensures FreshNumbers(W, [e], 0, l) {
      SuppliedIsFresh(W, [], nextFile, pending, e, l);
      forall f, g | f in AddedAt(e, l) && g in W[l] ensures f.number != g.number {
        AddedThere(e, l, f);
        var a := (l, f);
        assert a in e.added;
        assert a.1.number in pending || MovedDown(W, e, a);
        assert Used(g.number, nextFile, pending);
      }
    }
  }

  /** A file after the edit: left from before, or added under a pending number, or
      moved. */
  lemma WhereFrom(W: seq<set<File>>, nextFile: nat, pending: set<nat>, e: Edit, l: nat, f: File)
    requires Placed(W, nextFile, pending) && Supplied(W, pending, e) && l < |W| && f in ApplyEdit(W, e)[l]
    ensures f.number < nextFile && f.number !in StillPending(pending, e)
    ensures || (f in W[l] && f.number !in DeletedAt(e, l) && (l, f) !in e.added)
            || ((l, f) in e.added && f.number in pending)
            || ((l, f) in e.added && MovedDown(W, e, (l, f)))
  {
    AddedThere(e, l, f);
    if (l, f) in e.added {
      var a := (l, f);
      assert a.1.number == f.number;
      assert a.1.number in pending || MovedDown(W, e, a);
      if MovedDown(W, e, a) {
        assert f in W[l - 1];
      }
    }
  }

  /** Two files after the edit have the same number only if they are the same. */
  lemma StaysPlaced(W: seq<set<File>>, nextFile: nat, pending: set<nat>, e: Edit, l: nat, m: nat, f: File, g: File)
    requires Placed(W, nextFile, pending) && Supplied(W, pending, e) && l < |W| && m < |W|
    requires f in ApplyEdit(W, e)[l] && g in ApplyEdit(W, e)[m] && f.number == g.number
    ensures l == m && f == g
  {
    WhereFrom(W, nextFile, pending, e, l, f);
    WhereFrom(W, nextFile, pending, e, m, g);
    var a, b := (l, f), (m, g);
    assert a.1.number == b.1.number;
    assert a in e.added && b in e.added ==> a == b;
    if a in e.added && b !in e.added {
      LeavesAbove(W, nextFile, pending, e, a, m, g);
    } else if a !in e.added && b in e.added {
      LeavesAbove(W, nextFile, pending, e, b, l, f);
    }
  }

  /** An added number is not on a file that was there before and stays. */
  lemma LeavesAbove(W: seq<set<File>>, nextFile: nat, pending: set<nat>, e: Edit, a: (nat, File), m: nat, g: File)
    requires Placed(W, nextFile, pending) && Supplied(W, pending, e) && a in e.added && m < |W| && g in W[m]
             && g.number !in DeletedAt(e, m)
    ensures a.1.number != g.number
  {
    assert a.1.number in pending || MovedDown(W, e, a);
    assert Used(g.number, nextFile, pending);
  }

  lemma PlacedNext(W: seq<set<File>>, nextFile: nat, pending: set<nat>, e: Edit)
    requires Placed(W, nextFile, pending) && Supplied(W, pending, e)
    ensures Placed(ApplyEdit(W, e), nextFile, StillPending(pending, e))
  {
    var W': seq<set<File>>, p := ApplyEdit(W, e), StillPending(pending, e);
    forall l, f | 0 <= l < |W'| && f in W'[l] ensures Used(f.number, nextFile, p) {
      WhereFrom(W, nextFile, pending, e, l, f);
    }
    forall l, m, f, g | 0 <= l < |W'| && 0 <= m < |W'| && f in W'[l] && g in W'[m]
        && f.number == g.number ensures l == m && f == g {
      StaysPlaced(W, nextFile, pending, e, l, m, f, g);
    }
  }

  /** What was added before the edit is still traced after it. */
  lemma TracedStill(W: seq<set<File>>, nextFile: nat, pending: set<nat>, e: Edit, l: nat, number: nat)
    requires Placed(W, nextFile, pending) && Supplied(W, pending, e) && TracedFile(W, l, number, nextFile, pending)
    ensures TracedFile(ApplyEdit(W, e), l, number, nextFile, StillPending(pending, e))
  {
    var W': seq<set<File>> := ApplyEdit(W, e);
    forall m, g | 0 <= m < |W'| && g in W'[m] && g.number == number ensures l <= m {
      WhereFrom(W, nextFile, pending, e, m, g);
      if MovedDown(W, e, (m, g)) {
        assert g in W[m - 1];
      }
    }
  }

  lemma TracedNew(W: seq<set<File>>, nextFile: nat, pending: set<nat>, e: Edit, l: nat, f: File)
    requires Placed(W, nextFile, pending) && Supplied(W, pending, e) && l < |W| && f in AddedAt(e, l)
    ensures TracedFile(ApplyEdit(W, e), l, f.number, nextFile, StillPending(pending, e))
  {
    var W': seq<set<File>> := ApplyEdit(W, e);
    assert f in W'[l];
    WhereFrom(W, nextFile, pending, e, l, f);
    forall m, g | 0 <= m < |W'| && g in W'[m] && g.number == f.number ensures l <= m {
      StaysPlaced(W, nextFile, pending, e, l, m, f, g);
    }
  }

  lemma TracedNext(W: seq<set<File>>, es: seq<Edit>, es': seq<Edit>, nextFile: nat, pending: set<nat>, e: Edit)
    requires Placed(W, nextFile, pending) && Supplied(W, pending, e) && Traced(W, es, nextFile, pending)
    requires |es'| == |es| + 1 && es'[..|es|] == es && es'[|es|].added == e.added
             && (forall a :: a in e.added ==> a.0 < |W|)
    ensures Traced(ApplyEdit(W, e), es', nextFile, StillPending(pending, e))
  {
    var W': seq<set<File>>, p := ApplyEdit(W, e), StillPending(pending, e);
    forall i, l, f | 0 <= i < |es'| && f in AddedAt(es'[i], l) ensures TracedFile(W', l, f.number, nextFile, p) {
      if i < |es| {
        assert es'[i] == es'[..|es|][i] == es[i];
        TracedStill(W, nextFile, pending, e, l, f.number);
      } else {
        assert f in AddedAt(e, l);
        AddedThere(e, l, f);
        TracedNew(W, nextFile, pending, e, l, f);
      }
    }
  }

  /** A snapshot adds what is there. */
  lemma SnapshotTraced(W: seq<set<File>>, e: Edit, nextFile: nat, pending: set<nat>)
    requires Placed(W, nextFile, pending) && forall l: nat :: AddedAt(e, l) <= (if l < |W| then W[l] else {})
    ensures Traced(W, [e], nextFile, pending)
  {
    forall l: nat, f | f in AddedAt(e, l) ensures TracedFile(W, l, f.number, nextFile, pending) {
      assert f in W[l];
    }
  }

  ghost predicate Inv(vs: VersionSet, name: Bytes) {
    && |vs.levels| == |vs.pointers| == NUM_LEVELS
    && (forall l :: 0 <= l < NUM_LEVELS ==> Ordered(vs.levels[l]))
    && Placed(LevelSets(vs.levels), vs.nextFile, vs.pending)
       && Traced(LevelSets(vs.levels), vs.manifest, vs.nextFile, vs.pending)
    && (forall e :: e in vs.manifest ==> EditLevels(e) && !Mismatch(e, name))
    && (vs.manifest != [] ==>
          && NoReentry(Nothing(), vs.manifest, |vs.manifest|) && Rebuilt(Nothing(), vs.manifest, vs.levels)
          && vs.pointers == PointersThrough(NoPointers(), vs.manifest, |vs.manifest|)
          && Counters(vs))
  }

  ghost predicate Counters(vs: VersionSet) {
    var es := vs.manifest;
    && Latest(es, |es|, LogNumberOf) == Some(vs.logNumber)
       && Latest(es, |es|, PrevLogNumberOf) == Some(vs.prevLogNumber)
    && Latest(es, |es|, NextFileOf).Some? && Latest(es, |es|, NextFileOf).value <= vs.nextFile
    && Latest(es, |es|, LastSequenceOf).Some? && Latest(es, |es|, LastSequenceOf).value <= vs.lastSequence
    && forall l, f :: 0 <= l < |vs.levels| && f in vs.levels[l] ==> f.number < Latest(es, |es|, NextFileOf).value
  }

  /** The edit LogAndApply logs: every counter filled in. */
  function Completed(vs: VersionSet, e: Edit): Edit {
    e.(logNumber := Some(if e.logNumber.Some? then e.logNumber.value else vs.logNumber),
       prevLogNumber := Some(if e.prevLogNumber.Some? then e.prevLogNumber.value else vs.prevLogNumber),
       nextFile := Some(vs.nextFile),
       lastSequence := Some(vs.lastSequence))
  }

  /** What the next records are: the edit, with a snapshot before it when the
      manifest is new. */
  ghost predicate Records(vs: VersionSet, e: Edit, name: Bytes, records: seq<Edit>)
    requires |vs.levels| == |vs.pointers| == NUM_LEVELS && EditLevels(e)
  {
    if vs.manifest == [] then
      && |records| == 2 && records[1] == Completed(vs, e)
      && IsSnapshot(records[0], vs.levels, PointersAfter(vs.pointers, e.pointers, |e.pointers|), name)
    else records == [Completed(vs, e)]
  }

  /** A successful LogAndApply. */
  ghost predicate LogAndApply(vs: VersionSet, vs': VersionSet, e: Edit, name: Bytes) {
    && |vs.levels| == |vs.pointers| == NUM_LEVELS && EditLevels(e) && !Mismatch(e, name)
    && |vs'.manifest| >= |vs.manifest| && vs'.manifest[..|vs.manifest|] == vs.manifest
    && Records(vs, e, name, vs'.manifest[|vs.manifest|..])
    && Supplied(LevelSets(vs.levels), vs.pending, e) && vs'.pending == StillPending(vs.pending, e)
    && Rebuilt(LevelSets(vs.levels), [e], vs'.levels)
    && vs'.pointers == PointersAfter(vs.pointers, e.pointers, |e.pointers|)
    && vs'.logNumber == Completed(vs, e).logNumber.value && vs'.prevLogNumber == Completed(vs, e).prevLogNumber.value
    && vs'.nextFile == vs.nextFile && vs'.lastSequence == vs.lastSequence
  }

  /** VersionSet::LogAndApply, with its writes succeeding, makes such a step. */
  method LogEdit(vs: VersionSet, e: Edit, name: Bytes) returns (vs': VersionSet)
    requires Inv(vs, name) && EditLevels(e) && !Mismatch(e, name) && Supplied(LevelSets(vs.levels), vs.pending, e)
    ensures LogAndApply(vs, vs', e, name) && Inv(vs', name)
  {
    SuppliedEnters(LevelSets(vs.levels), vs.nextFile, vs.pending, e);
    var edit := Completed(vs, e);
    var levels, pointers := ApplyToCurrent(vs.levels, vs.pointers, e);
    assert PointersThrough(vs.pointers, [e], 0) == vs.pointers;
    var records := [edit];
    if vs.manifest == [] {
      var snapshot := WriteSnapshot(vs.levels, pointers, name);
      records := [snapshot, edit];
    }
    var manifest := vs.manifest + records;
    assert manifest[|vs.manifest|..] == records && manifest[..|vs.manifest|] == vs.manifest;
    vs' := VersionSet(levels, pointers, edit.logNumber.value, edit.prevLogNumber.value, vs.nextFile, vs.lastSequence,
                      StillPending(vs.pending, e), manifest);
    assert LogAndApply(vs, vs', e, name);
    NextInv(vs, vs', name);
  }

  /** File and sequence numbers are handed out between edits, and numbers of
      tables given up are forgotten. */
  ghost predicate Advance(vs: VersionSet, vs': VersionSet) {
    && vs' == vs.(nextFile := vs'.nextFile, lastSequence := vs'.lastSequence, pending := vs'.pending)
    && vs'.nextFile >= vs.nextFile && vs'.lastSequence >= vs.lastSequence
    && forall n :: n in vs'.pending ==> n in vs.pending || vs.nextFile <= n < vs'.nextFile
  }

  ghost predicate Next(vs: VersionSet, vs': VersionSet, name: Bytes) {
    Advance(vs, vs') || exists e :: LogAndApply(vs, vs', e, name)
  }

  // ---- Preservation ----

  lemma {:induction false} ApplyAllPrefix(V: seq<set<File>>, es: seq<Edit>, es': seq<Edit>, n: nat)
    requires n <= |es| && n <= |es'| && forall i :: 0 <= i < n ==> es[i] == es'[i]
    ensures ApplyAll(V, es, n) == ApplyAll(V, es', n)
  {
    if n > 0 {
      ApplyAllPrefix(V, es, es', n - 1);
    }
  }

  lemma {:induction false} PointersThroughPrefix(ps: seq<Option<InternalKey>>, es: seq<Edit>, es': seq<Edit>, n: nat)
    requires n <= |es| && n <= |es'| && (forall i :: 0 <= i < n ==> es[i] == es'[i]) && |ps| == NUM_LEVELS
    requires (forall e :: e in es ==> EditLevels(e)) && (forall e :: e in es' ==> EditLevels(e))
    ensures PointersThrough(ps, es, n) == PointersThrough(ps, es', n)
  {
    if n > 0 {
      PointersThroughPrefix(ps, es, es', n - 1);
    }
  }

  lemma NoReentryPrefix(V: seq<set<File>>, es: seq<Edit>, es': seq<Edit>, n: nat)
    requires n <= |es| && n <= |es'| && (forall i :: 0 <= i < n ==> es[i] == es'[i]) && NoReentry(V, es, n)
    ensures NoReentry(V, es', n)
  {
    forall i, l | 0 <= i < n && 0 <= l < |V| ensures FreshNumbers(V, es', i, l) {
      assert FreshNumbers(V, es, i, l);
    }
  }

  lemma {:induction false} PointersAgree(ps: seq<Option<InternalKey>>, qs: seq<Option<InternalKey>>,
        us: seq<(nat, InternalKey)>, n: nat, l: nat)
    requires n <= |us| && |ps| == |qs| && (forall u :: u in us ==> u.0 < |ps|) && l < |ps|
    ensures (exists k :: 0 <= k < n && us[k].0 == l) ==> PointersAfter(ps, us, n)[l] == PointersAfter(qs, us, n)[l]
    ensures !(exists k :: 0 <= k < n && us[k].0 == l) ==> PointersAfter(ps, us, n)[l] == ps[l]
                                                          && PointersAfter(qs, us, n)[l] == qs[l]
  {
    if n > 0 {
      assert us[n - 1] in us;
      if us[n - 1].0 != l {
        PointersAgree(ps, qs, us, n - 1, l);
      }
    }
  }

  /** Updating the pointers twice with the same updates is updating them once. */
  lemma PointersTwice(ps: seq<Option<InternalKey>>, us: seq<(nat, InternalKey)>)
    requires forall u :: u in us ==> u.0 < |ps|
    ensures PointersAfter(PointersAfter(ps, us, |us|), us, |us|) == PointersAfter(ps, us, |us|)
  {
    var qs := PointersAfter(ps, us, |us|);
    forall l | 0 <= l < |ps| ensures PointersAfter(qs, us, |us|)[l] == qs[l] {
      PointersAgree(ps, qs, us, |us|, l);
    }
  }

  /** The levels an ordered listing shows are the folded edits. */
  lemma RebuiltSets(es: seq<Edit>, levels: seq<seq<File>>)
    requires Rebuilt(Nothing(), es, levels)
    ensures LevelSets(levels) == ApplyAll(Nothing(), es, |es|)
  {}

  lemma SameEffect(V: seq<set<File>>, e: Edit, r: Edit)
    requires e.added == r.added && e.deleted == r.deleted
    ensures ApplyEdit(V, e) == ApplyEdit(V, r)
  {
    forall l | 0 <= l < |V| ensures ApplyEdit(V, e)[l] == ApplyEdit(V, r)[l] {
      assert DeletedAt(e, l) == DeletedAt(r, l) && AddedAt(e, l) == AddedAt(r, l);
    }
  }

  /** One more record on a manifest that stands for `levels`. */
  lemma AppendRecord(es: seq<Edit>, es': seq<Edit>, levels: seq<seq<File>>, e: Edit, levels': seq<seq<File>>,
        nextFile: nat, pending: set<nat>)
    requires |es'| == |es| + 1 && es'[..|es|] == es && es'[|es|].added == e.added && es'[|es|].deleted == e.deleted
    requires NoReentry(Nothing(), es, |es|)
    requires Placed(LevelSets(levels), nextFile, pending) && Traced(LevelSets(levels), es, nextFile, pending)
             && Supplied(LevelSets(levels), pending, e)
    requires Rebuilt(Nothing(), es, levels) && Rebuilt(LevelSets(levels), [e], levels')
    ensures NoReentry(Nothing(), es', |es'|) && Rebuilt(Nothing(), es', levels')
  {
    var V := Nothing();
    assert forall i :: 0 <= i < |es| ==> es'[i] == es'[..|es|][i];
    NoReentryPrefix(V, es, es', |es|);
    forall l | 0 <= l < |V| ensures FreshNumbers(V, es', |es|, l) {
      SuppliedIsFresh(LevelSets(levels), es, nextFile, pending, e, l);
      assert AddedAt(es'[|es|], l) == AddedAt(e, l);
      assert V[l] == {};
    }
    ApplyAllPrefix(V, es, es', |es|);
    RebuiltSets(es, levels);
    assert ApplyAll(LevelSets(levels), [e], 0) == LevelSets(levels);
    SameEffect(LevelSets(levels), e, es'[|es|]);
    assert ApplyAll(V, es', |es'|) == ApplyAll(LevelSets(levels), [e], 1);
  }

  lemma PlacedOwnNumbers(W: seq<set<File>>, nextFile: nat, pending: set<nat>)
    requires Placed(W, nextFile, pending)
    ensures forall l :: 0 <= l < |W| ==> OwnNumbers(W[l])
  {}

  /** A snapshot alone stands for the version it was taken of. */
  lemma SnapshotStands(e: Edit, levels: seq<seq<File>>, ps: seq<Option<InternalKey>>, name: Bytes)
    requires |levels| == |ps| == NUM_LEVELS && IsSnapshot(e, levels, ps, name)
    requires forall l :: 0 <= l < NUM_LEVELS ==> Ordered(levels[l]) && OwnNumbers(FileSet(levels[l]))
    ensures NoReentry(Nothing(), [e], 1) && Rebuilt(Nothing(), [e], levels)
    ensures PointersThrough(NoPointers(), [e], 1) == ps
  {
    forall l | 0 <= l < NUM_LEVELS
      ensures FreshNumbers(Nothing(), [e], 0, l) && ApplyAll(Nothing(), [e], 1)[l] == FileSet(levels[l])
    {
      SnapshotAdds(e, levels, ps, name, l);
      assert Nothing()[l] == {};
      assert ApplyAll(Nothing(), [e], 0) == Nothing();
    }
    assert PointersThrough(NoPointers(), [e], 0) == NoPointers();
  }

  lemma RecordCounters(vs: VersionSet, vs': VersionSet, e: Edit, name: Bytes)
    requires LogAndApply(vs, vs', e, name) && Placed(LevelSets(vs'.levels), vs'.nextFile, vs'.pending)
    ensures Counters(vs')
  {
    var es := vs'.manifest;
    assert es[|es| - 1] == vs'.manifest[|vs.manifest|..][|es| - |vs.manifest| - 1];
    assert es[|es| - 1] == Completed(vs, e);
    forall l, f | 0 <= l < |vs'.levels| && f in vs'.levels[l] ensures f.number < vs.nextFile {
      assert f in LevelSets(vs'.levels)[l];
    }
  }

  /** File numbers after a logged edit, `es` being the manifest before it. */
  lemma NumbersNext(vs: VersionSet, vs': VersionSet, e: Edit, es: seq<Edit>, name: Bytes)
    requires LogAndApply(vs, vs', e, name) && Placed(LevelSets(vs.levels), vs.nextFile, vs.pending)
    requires Traced(LevelSets(vs.levels), es, vs.nextFile, vs.pending)
    requires |vs'.manifest| == |es| + 1 && vs'.manifest[..|es|] == es && vs'.manifest[|es|] == Completed(vs, e)
    ensures Placed(LevelSets(vs'.levels), vs'.nextFile, vs'.pending)
    ensures Traced(LevelSets(vs'.levels), vs'.manifest, vs'.nextFile, vs'.pending)
  {
    var W := LevelSets(vs.levels);
    assert ApplyAll(W, [e], 0) == W;
    assert LevelSets(vs'.levels) == ApplyEdit(W, e);
    PlacedNext(W, vs.nextFile, vs.pending, e);
    TracedNext(W, es, vs'.manifest, vs.nextFile, vs.pending, e);
  }

  lemma LaterRecord(vs: VersionSet, vs': VersionSet, e: Edit, name: Bytes)
    requires Inv(vs, name) && LogAndApply(vs, vs', e, name) && vs.manifest != []
    ensures NoReentry(Nothing(), vs'.manifest, |vs'.manifest|) && Rebuilt(Nothing(), vs'.manifest, vs'.levels)
    ensures forall r :: r in vs'.manifest ==> EditLevels(r) && !Mismatch(r, name)
    ensures vs'.pointers == PointersThrough(NoPointers(), vs'.manifest, |vs'.manifest|)
    ensures Placed(LevelSets(vs'.levels), vs'.nextFile, vs'.pending)
    ensures Traced(LevelSets(vs'.levels), vs'.manifest, vs'.nextFile, vs'.pending)
  {
    var es, es' := vs.manifest, vs'.manifest;
    assert es' == es + es'[|es|..];
    assert es'[|es|] == es'[|es|..][0];
    AppendRecord(es, es', vs.levels, e, vs'.levels, vs.nextFile, vs.pending);
    NumbersNext(vs, vs', e, es, name);
    forall r | r in es' ensures EditLevels(r) && !Mismatch(r, name) {
      assert r in es || r == Completed(vs, e);
    }
    PointersThroughPrefix(NoPointers(), es, es', |es|);
  }

  lemma FirstRecords(vs: VersionSet, vs': VersionSet, e: Edit, name: Bytes)
    requires Inv(vs, name) && LogAndApply(vs, vs', e, name) && vs.manifest == []
    ensures NoReentry(Nothing(), vs'.manifest, |vs'.manifest|) && Rebuilt(Nothing(), vs'.manifest, vs'.levels)
    ensures forall r :: r in vs'.manifest ==> EditLevels(r) && !Mismatch(r, name)
    ensures vs'.pointers == PointersThrough(NoPointers(), vs'.manifest, |vs'.manifest|)
    ensures Placed(LevelSets(vs'.levels), vs'.nextFile, vs'.pending)
    ensures Traced(LevelSets(vs'.levels), vs'.manifest, vs'.nextFile, vs'.pending)
  {
    var es' := vs'.manifest;
    assert es' == es'[0..];
    var snapshot, ps := es'[0], PointersAfter(vs.pointers, e.pointers, |e.pointers|);
    PlacedOwnNumbers(LevelSets(vs.levels), vs.nextFile, vs.pending);
    assert forall l :: 0 <= l < NUM_LEVELS ==> LevelSets(vs.levels)[l] == FileSet(vs.levels[l]);
    SnapshotStands(snapshot, vs.levels, ps, name);
    forall l: nat ensures AddedAt(snapshot, l) <= if l < NUM_LEVELS then LevelSets(vs.levels)[l] else {} {
      if l < NUM_LEVELS {
        SnapshotAdds(snapshot, vs.levels, ps, name, l);
      }
    }
    SnapshotTraced(LevelSets(vs.levels), snapshot, vs.nextFile, vs.pending);
    AppendRecord([snapshot], es', vs.levels, e, vs'.levels, vs.nextFile, vs.pending);
    NumbersNext(vs, vs', e, [snapshot], name);
    forall r | r in es' ensures EditLevels(r) && !Mismatch(r, name) {
      assert r == snapshot || r == Completed(vs, e);
    }
    PointersThroughPrefix(NoPointers(), [snapshot], es', 1);
    PointersTwice(vs.pointers, e.pointers);
  }

  lemma NumbersAdvance(vs: VersionSet, vs': VersionSet)
    requires Advance(vs, vs') && Placed(LevelSets(vs.levels), vs.nextFile, vs.pending)
    requires Traced(LevelSets(vs.levels), vs.manifest, vs.nextFile, vs.pending)
    ensures Placed(LevelSets(vs'.levels), vs'.nextFile, vs'.pending)
    ensures Traced(LevelSets(vs'.levels), vs'.manifest, vs'.nextFile, vs'.pending)
  {
    var W, es := LevelSets(vs.levels), vs.manifest;
    forall i, l, f | 0 <= i < |es|
        && f in AddedAt(es[i], l) ensures TracedFile(W, l, f.number, vs'.nextFile, vs'.pending) {
      assert TracedFile(W, l, f.number, vs.nextFile, vs.pending);
    }
  }

  lemma NextInv(vs: VersionSet, vs': VersionSet, name: Bytes)
    requires Inv(vs, name) && Next(vs, vs', name)
    ensures Inv(vs', name)
  {
    if e :| LogAndApply(vs, vs', e, name) {
      if vs.manifest == [] {
        FirstRecords(vs, vs', e, name);
      } else {
        LaterRecord(vs, vs', e, name);
      }
      RecordCounters(vs, vs', e, name);
    } else {
      NumbersAdvance(vs, vs');
    }
  }

  ghost predicate Run(trace: seq<VersionSet>, name: Bytes) {
    && |trace| > 0 && Inv(trace[0], name) && trace[0].manifest == []
    && forall i :: 0 <= i < |trace| - 1 ==> Next(trace[i], trace[i + 1], name)
  }

  lemma {:induction false} RunInv(trace: seq<VersionSet>, name: Bytes, n: nat)
    requires Run(trace, name) && n < |trace|
    ensures Inv(trace[n], name)
  {
    if n > 0 {
      RunInv(trace, name, n - 1);
      NextInv(trace[n - 1], trace[n], name);
    }
  }

  /** The version set after a reopening, before it logs anything. */
  function Reopened(r: Recovered): VersionSet
    requires r.RecoveredSet?
  {
    VersionSet(r.levels, r.pointers, r.logNumber, r.prevLogNumber, r.nextFile, r.lastSequence, {}, [])
  }

  /** The manifest theorem.  Reopen after any run in which an edit was logged:
      Recover gives back the current version file for file and in order, the
      compaction pointers, the log numbers, and counters that were current at
      the last edit; and another run can start from there. */
  method Reopen(ghost trace: seq<VersionSet>, ghost n: nat, vs: VersionSet, name: Bytes) returns (r: Recovered)
    requires Run(trace, name) && n < |trace| && trace[n] == vs && vs.manifest != []
    ensures r.RecoveredSet?
    ensures r.levels == vs.levels && r.pointers == vs.pointers
    ensures r.logNumber == vs.logNumber && r.prevLogNumber == vs.prevLogNumber
    ensures r.manifestNumber <= vs.nextFile && r.lastSequence <= vs.lastSequence
    ensures Run([Reopened(r)], name)
  {
    RunInv(trace, name, n);
    r := Recover(vs.manifest, name);
    SameLevels(vs.manifest, r.levels, vs.levels);
    StartsAgain(vs, r, name);
  }

  lemma StartsAgain(vs: VersionSet, r: Recovered, name: Bytes)
    requires Inv(vs, name) && vs.manifest != [] && r.RecoveredSet? && r.levels == vs.levels && r.pointers == vs.pointers
    requires Some(r.manifestNumber) == Latest(vs.manifest, |vs.manifest|, NextFileOf)
             && r.nextFile == r.manifestNumber + 1
    ensures Inv(Reopened(r), name)
  {
    var W: seq<set<File>> := LevelSets(vs.levels);
    forall l, f | 0 <= l < |W| && f in W[l] ensures Used(f.number, r.nextFile, {}) {
      assert f in vs.levels[l];
    }
  }

  lemma SameLevels(es: seq<Edit>, a: seq<seq<File>>, b: seq<seq<File>>)
    requires Rebuilt(Nothing(), es, a) && Rebuilt(Nothing(), es, b)
    ensures a == b
  {
    forall l | 0 <= l < NUM_LEVELS ensures a[l] == b[l] {
      OneListing(a[l], b[l]);
    }
  }
}
