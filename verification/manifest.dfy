/** VersionSet::Builder, LogAndApply, WriteSnapshot and Recover: the manifest as
    a list of edits and the version it stands for. */
module Manifest {
  import opened Keys
  import opened Mvcc
  import opened Levels

  // ---- Order of files in a version ----

  /** BySmallestKey. */
  predicate BySmallest(a: File, b: File) {
    Before(a.smallest, b.smallest) || (a.smallest == b.smallest && a.number < b.number)
  }

  predicate Ordered(fs: seq<File>) {
    forall i, j :: 0 <= i < j < |fs| ==> BySmallest(fs[i], fs[j])
  }

  predicate WeaklyOrdered(fs: seq<File>) {
    forall i, j :: 0 <= i < j < |fs| ==> !BySmallest(fs[j], fs[i])
  }

  /** No two files with one number. */
  ghost predicate OwnNumbers(S: set<File>) {
    forall f, g :: f in S && g in S && f.number == g.number ==> f == g
  }

  /** An ordered listing of a set is the only one. */
  lemma {:induction false} OneListing(a: seq<File>, b: seq<File>)
    requires Ordered(a) && Ordered(b) && FileSet(a) == FileSet(b)
    ensures a == b
  {
    if |a| > 0 || |b| > 0 {
      SameEnds(a, b);
      var a', b' := a[..|a| - 1], b[..|b| - 1];
      InitSet(a);
      InitSet(b);
      OneListing(a', b');
      assert a == a' + [a[|a| - 1]] && b == b' + [b[|b| - 1]];
    }
  }

  lemma InitSet(a: seq<File>)
    requires Ordered(a) && |a| > 0
    ensures FileSet(a[..|a| - 1]) == FileSet(a) - {a[|a| - 1]}
  {
    var last := a[|a| - 1];
    forall f | f in FileSet(a) && f != last ensures f in FileSet(a[..|a| - 1]) {
      var i :| 0 <= i < |a| && a[i] == f;
      assert a[..|a| - 1][i] == f;
    }
    forall f | f in FileSet(a[..|a| - 1]) ensures f in FileSet(a) && f != last {
      var i :| 0 <= i < |a| - 1 && a[..|a| - 1][i] == f;
      assert a[i] == f && BySmallest(a[i], last);
    }
  }

  lemma SameEnds(a: seq<File>, b: seq<File>)
    requires Ordered(a) && Ordered(b) && FileSet(a) == FileSet(b) && (|a| > 0 || |b| > 0)
    ensures |a| > 0 && |b| > 0 && a[|a| - 1] == b[|b| - 1]
  {
    assert |a| > 0 by {
      if |b| > 0 {
        assert b[|b| - 1] in FileSet(a);
      }
    }
    assert a[|a| - 1] in FileSet(b);
    var x, y := a[|a| - 1], b[|b| - 1];
    assert x in FileSet(b) && y in FileSet(a);
    var i :| 0 <= i < |b| && b[i] == x;
    var j :| 0 <= j < |a| && a[j] == y;
    assert i == |b| - 1 || BySmallest(x, y);
    assert j == |a| - 1 || BySmallest(y, x);
  }

  // ---- Edits ----

  /** The parts of a VersionEdit that change the version set. */
  datatype Edit = Edit(
    comparator: Option<Bytes>,
    logNumber: Option<nat>,
    prevLogNumber: Option<nat>,
    nextFile: Option<nat>,
    lastSequence: Option<nat>,
    pointers: seq<(nat, InternalKey)>,
    deleted: set<(nat, nat)>,
    added: seq<(nat, File)>)

  predicate EditLevels(e: Edit) {
    && (forall p :: p in e.pointers ==> p.0 < NUM_LEVELS)
    && (forall d :: d in e.deleted ==> d.0 < NUM_LEVELS)
    && (forall a :: a in e.added ==> a.0 < NUM_LEVELS)
  }

  /** What the first n additions put on level l. */
  ghost function AddedIn(added: seq<(nat, File)>, l: nat, n: nat): set<File>
    requires n <= |added|
  {
    set k | 0 <= k < n && added[k].0 == l :: added[k].1
  }

  ghost function AddedAt(e: Edit, l: nat): set<File> {
    AddedIn(e.added, l, |e.added|)
  }

  ghost function DeletedAt(e: Edit, l: nat): set<nat> {
    set d | d in e.deleted && d.0 == l :: d.1
  }

  ghost function NumbersOf(S: set<File>): set<nat> {
    set f | f in S :: f.number
  }

  /** Applying one edit by itself: its deletions leave, its additions enter. */
  ghost function ApplyEdit(V: seq<set<File>>, e: Edit): seq<set<File>> {
    seq(|V|, l requires 0 <= l < |V| => (set f | f in V[l] && f.number !in DeletedAt(e, l)) + AddedAt(e, l))
  }

  ghost function ApplyAll(V: seq<set<File>>, es: seq<Edit>, n: nat): (r: seq<set<File>>)
    requires n <= |es|
    ensures |r| == |V|
  {
    if n == 0 then V else ApplyEdit(ApplyAll(V, es, n - 1), es[n - 1])
  }

  // ---- Builder ----

  /** Neither before the other: to the builder's set, the same element. */
  predicate Alike(a: File, b: File) {
    !BySmallest(a, b) && !BySmallest(b, a)
  }

  /** std::set insertion: an equivalent element already there stays. */
  function Insert(fs: seq<File>, f: File): (r: seq<File>)
    requires Ordered(fs)
    ensures Ordered(r)
    ensures forall g :: g in r <==> g in fs || (g == f && forall h :: h in fs ==> !Alike(h, f))
  {
    if |fs| == 0 then [f]
    else if BySmallest(f, fs[0]) then [f] + fs
    else if BySmallest(fs[0], f) then
      var t := Insert(fs[1..], f);
      assert fs == [fs[0]] + fs[1..];
      assert forall g :: g in t ==> BySmallest(fs[0], g);
      [fs[0]] + t
    else
      assert Alike(fs[0], f);
      fs
  }

  /** The same on sets. */
  ghost function With(S: set<File>, f: File): set<File> {
    if exists g :: g in S && Alike(g, f) then S else S + {f}
  }

  lemma InsertSet(fs: seq<File>, f: File)
    requires Ordered(fs)
    ensures FileSet(Insert(fs, f)) == With(FileSet(fs), f)
  {
    var r := Insert(fs, f);
    assert forall g :: g in fs <==> g in FileSet(fs);
    assert forall g :: g in r <==> g in FileSet(r);
  }

  /** The set after the first n additions, as far as they concern level l. */
  ghost function KeptIn(S: set<File>, added: seq<(nat, File)>, l: nat, n: nat): set<File>
    requires n <= |added|
  {
    if n == 0 then S
    else if added[n - 1].0 == l then With(KeptIn(S, added, l, n - 1), added[n - 1].1)
    else KeptIn(S, added, l, n - 1)
  }

  class Builder {
    const base: seq<seq<File>>
    var deleted: seq<set<nat>>
    var added: seq<seq<File>>                        // ordered by BySmallestKey
    var pointers: seq<Option<InternalKey>>           // the version set's compaction pointers

    ghost predicate Valid()
      reads this
    {
      && |base| == |deleted| == |added| == |pointers| == NUM_LEVELS
      && forall l :: 0 <= l < NUM_LEVELS ==> Ordered(added[l])
    }

    constructor (base: seq<seq<File>>, pointers: seq<Option<InternalKey>>)
      requires |base| == |pointers| == NUM_LEVELS
      ensures Valid() && this.base == base && this.pointers == pointers
      ensures forall l :: 0 <= l < NUM_LEVELS ==> deleted[l] == {} && added[l] == []
    {
      this.base, this.pointers := base, pointers;
      deleted, added := seq(NUM_LEVELS, _ => {}), seq(NUM_LEVELS, _ => []);
    }

    method ApplyPointers(e: Edit)
      requires Valid() && EditLevels(e)
      modifies this`pointers
      ensures Valid() && pointers == PointersAfter(old(pointers), e.pointers, |e.pointers|)
    {
      for i := 0 to |e.pointers|
        invariant Valid() && pointers == PointersAfter(old(pointers), e.pointers, i)
      {
        assert e.pointers[i] in e.pointers;
        pointers := pointers[e.pointers[i].0 := Some(e.pointers[i].1)];
      }
    }

    method ApplyDeletions(e: Edit)
      requires Valid() && EditLevels(e)
      modifies this`deleted
      ensures Valid() && forall l :: 0 <= l < NUM_LEVELS ==> deleted[l] == old(deleted)[l] + DeletedAt(e, l)
    {
      var rest := e.deleted;
      while rest != {}
        invariant Valid() && rest <= e.deleted
        invariant forall l :: 0 <= l < NUM_LEVELS ==> deleted[l] == old(deleted)[l] + set d | d in e.deleted - rest
                                                      && d.0 == l :: d.1
        decreases rest
      {
        var d :| d in rest;
        var l := d.0;
        deleted := deleted[l := deleted[l] + {d.1}];
        rest := rest - {d};
      }
    }

    method ApplyAdditions(e: Edit)
      requires Valid() && EditLevels(e)
      modifies this`deleted, this`added
      ensures Valid()
      ensures forall l :: 0 <= l < NUM_LEVELS ==> deleted[l] == old(deleted)[l] - NumbersOf(AddedAt(e, l))
      ensures forall l :: 0 <= l < NUM_LEVELS ==>
              FileSet(added[l]) == KeptIn(FileSet(old(added)[l]), e.added, l, |e.added|)
    {
      for i := 0 to |e.added|
        invariant Valid()
        invariant forall l :: 0 <= l < NUM_LEVELS ==> deleted[l] == old(deleted)[l] - NumbersOf(AddedIn(e.added, l, i))
        invariant forall l :: 0 <= l < NUM_LEVELS ==> FileSet(added[l]) == KeptIn(FileSet(old(added)[l]), e.added, l, i)
      {
        assert e.added[i] in e.added;
        var level, f := e.added[i].0, e.added[i].1;
        ghost var deleted0, added0 := deleted, added;
        deleted := deleted[level := deleted[level] - {f.number}];
        added := added[level := Insert(added[level], f)];
        forall l | 0 <= l < NUM_LEVELS ensures deleted[l] == old(deleted)[l] - NumbersOf(AddedIn(e.added, l, i + 1)) {
          NextAddition(e, l, i);
          assert deleted0[l] == old(deleted)[l] - NumbersOf(AddedIn(e.added, l, i));
        }
        InsertSet(added0[level], f);
      }
    }

    /** Builder::Apply. */
    method Apply(e: Edit)
      requires Valid() && EditLevels(e)
      modifies this
      ensures Valid() && pointers == PointersAfter(old(pointers), e.pointers, |e.pointers|)
      ensures forall l :: 0 <= l < NUM_LEVELS ==>
                deleted[l] == old(deleted)[l] + DeletedAt(e, l) - NumbersOf(AddedAt(e, l))
      ensures forall l :: 0 <= l < NUM_LEVELS ==>
              FileSet(added[l]) == KeptIn(FileSet(old(added)[l]), e.added, l, |e.added|)
    {
      ApplyPointers(e);
      ApplyDeletions(e);
      ApplyAdditions(e);
    }

    /** Builder::SaveTo. */
    method SaveTo() returns (v: seq<seq<File>>)
      requires Valid() && forall l :: 0 <= l < NUM_LEVELS ==> Ordered(base[l])
      ensures |v| == NUM_LEVELS && forall l :: 0 <= l < NUM_LEVELS ==> Saved(base[l], added[l], deleted[l], v[l])
    {
      v := [];
      for level := 0 to NUM_LEVELS
        invariant |v| == level && forall l :: 0 <= l < level ==> Saved(base[l], added[l], deleted[l], v[l])
      {
        var files := SaveLevel(base[level], added[level], deleted[level]);
        v := v + [files];
      }
    }
  }

  lemma NextAddition(e: Edit, l: nat, i: nat)
    requires i < |e.added|
    ensures AddedIn(e.added, l, i + 1) == AddedIn(e.added, l, i) + if e.added[i].0 == l then {e.added[i].1} else {}
    ensures NumbersOf(AddedIn(e.added, l, i + 1)) ==
            NumbersOf(AddedIn(e.added, l, i)) + if e.added[i].0 == l then {e.added[i].1.number} else {}
    ensures AddedIn(e.added, l, i + 1) <= AddedAt(e, l)
  {
    assert AddedIn(e.added, l, i + 1) == AddedIn(e.added, l, i) + if e.added[i].0 == l then {e.added[i].1} else {};
  }

  /** Whether no file number is both in the base level and among the added. */
  predicate Apart(base: seq<File>, added: seq<File>) {
    forall f, g :: f in base && g in added ==> f.number != g.number
  }

  /** A saved level: the undeleted files of base and added, merged in order. */
  ghost predicate Saved(base: seq<File>, added: seq<File>, deleted: set<nat>, v: seq<File>) {
    && WeaklyOrdered(v)
    && (forall f :: f in v <==> (f in base || f in added) && f.number !in deleted)
    && (Apart(base, added) ==> Ordered(v))
  }

  /** v may be followed by f. */
  ghost predicate MayFollow(v: seq<File>, f: File, strictly: bool) {
    forall g :: g in v ==> if strictly then BySmallest(g, f) else !BySmallest(f, g)
  }

  /** MaybeAddFile. */
  method MaybeAddFile(v: seq<File>, deleted: set<nat>, f: File, ghost strictly: bool) returns (r: seq<File>)
    requires WeaklyOrdered(v) && MayFollow(v, f, false)
    requires strictly ==> Ordered(v) && MayFollow(v, f, true)
    ensures WeaklyOrdered(r) && (strictly ==> Ordered(r))
    ensures forall g :: g in r <==> g in v || (g == f && f.number !in deleted)
  {
    r := v;
    if f.number !in deleted {
      r := r + [f];
      assert forall i :: 0 <= i < |v| ==> v[i] in v;
    }
  }

  ghost predicate Follows(v: seq<File>, f: File, apart: bool) {
    MayFollow(v, f, false) && (apart ==> MayFollow(v, f, true))
  }

  /** The merge after i files of base and j of added. */
  ghost predicate Merging(base: seq<File>, added: seq<File>, deleted: set<nat>, i: nat, j: nat, v: seq<File>) {
    && i <= |base| && j <= |added| && WeaklyOrdered(v) && (Apart(base, added) ==> Ordered(v))
    && (forall f :: f in v <==> (f in base[..i] || f in added[..j]) && f.number !in deleted)
    && (forall k :: i <= k < |base| ==> Follows(v, base[k], Apart(base, added)))
    && (forall k :: j <= k < |added| ==> Follows(v, added[k], Apart(base, added)))
  }

  lemma MergeStep(base: seq<File>, added: seq<File>, deleted: set<nat>, i: nat, j: nat, v: seq<File>, f: File,
        v': seq<File>)
    requires Merging(base, added, deleted, i, j, v)
    requires WeaklyOrdered(v') && (Apart(base, added) ==> Ordered(v'))
    requires forall g :: g in v' <==> g in v || (g == f && f.number !in deleted)
    ensures i < |base| && f == base[i] && (forall k :: i < k < |base| ==> Follows([f], base[k], Apart(base, added)))
            && (forall k :: j <= k < |added| ==> Follows([f], added[k], Apart(base, added)))
            ==> Merging(base, added, deleted, i + 1, j, v')
    ensures j < |added| && f == added[j] && (forall k :: i <= k < |base| ==> Follows([f], base[k], Apart(base, added)))
            && (forall k :: j < k < |added| ==> Follows([f], added[k], Apart(base, added)))
            ==> Merging(base, added, deleted, i, j + 1, v')
  {
    assert f in [f];
    if i < |base| {
      assert base[..i + 1] == base[..i] + [base[i]];
    }
    if j < |added| {
      assert added[..j + 1] == added[..j] + [added[j]];
    }
  }

  lemma BaseFirst(base: seq<File>, added: seq<File>, i: nat, j: nat)
    requires Ordered(base) && Ordered(added) && i < |base| && (j < |added| ==> !BySmallest(added[j], base[i]))
    ensures forall k :: i < k < |base| ==> Follows([base[i]], base[k], Apart(base, added))
    ensures forall k :: j <= k < |added| ==> Follows([base[i]], added[k], Apart(base, added))
  {
    assert base[i] in base;
    forall k | j <= k < |added| ensures Follows([base[i]], added[k], Apart(base, added)) {
      assert added[k] in added;
      assert k == j || BySmallest(added[j], added[k]);
    }
  }

  lemma AddedFirst(base: seq<File>, added: seq<File>, i: nat, j: nat)
    requires Ordered(base) && Ordered(added) && j < |added| && (i < |base| ==> BySmallest(added[j], base[i]))
    ensures forall k :: i <= k < |base| ==> Follows([added[j]], base[k], Apart(base, added))
    ensures forall k :: j < k < |added| ==> Follows([added[j]], added[k], Apart(base, added))
  {
    forall k | i <= k < |base| ensures Follows([added[j]], base[k], Apart(base, added)) {
      assert k == i || BySmallest(base[i], base[k]);
    }
  }

  method TakeBase(base: seq<File>, added: seq<File>, deleted: set<nat>, i: nat, ghost j: nat, v: seq<File>)
        returns (v': seq<File>)
    requires Ordered(base) && Ordered(added) && Merging(base, added, deleted, i, j, v)
    requires i < |base| && (j < |added| ==> !BySmallest(added[j], base[i]))
    ensures Merging(base, added, deleted, i + 1, j, v')
  {
    v' := MaybeAddFile(v, deleted, base[i], Apart(base, added));
    BaseFirst(base, added, i, j);
    MergeStep(base, added, deleted, i, j, v, base[i], v');
  }

  method TakeAdded(base: seq<File>, added: seq<File>, deleted: set<nat>, ghost i: nat, j: nat, v: seq<File>)
        returns (v': seq<File>)
    requires Ordered(base) && Ordered(added) && Merging(base, added, deleted, i, j, v)
    requires j < |added| && (i < |base| ==> BySmallest(added[j], base[i]))
    ensures Merging(base, added, deleted, i, j + 1, v')
  {
    v' := MaybeAddFile(v, deleted, added[j], Apart(base, added));
    AddedFirst(base, added, i, j);
    MergeStep(base, added, deleted, i, j, v, added[j], v');
  }

  method SaveLevel(base: seq<File>, added: seq<File>, deleted: set<nat>) returns (v: seq<File>)
    requires Ordered(base) && Ordered(added)
    ensures Saved(base, added, deleted, v)
  {
    v := [];
    var i := 0;
    for j := 0 to |added|
      invariant Merging(base, added, deleted, i, j, v)
    {
      while i < |base| && !BySmallest(added[j], base[i])
        invariant Merging(base, added, deleted, i, j, v)
      {
        v := TakeBase(base, added, deleted, i, j, v);
        i := i + 1;
      }
      v := TakeAdded(base, added, deleted, i, j, v);
    }
    while i < |base|
      invariant Merging(base, added, deleted, i, |added|, v)
    {
      v := TakeBase(base, added, deleted, i, |added|, v);
      i := i + 1;
    }
    assert base[..i] == base && added[..|added|] == added;
  }

  function PointersAfter(ps: seq<Option<InternalKey>>, updates: seq<(nat, InternalKey)>,
        n: nat): (r: seq<Option<InternalKey>>)
    requires n <= |updates| && forall u :: u in updates ==> u.0 < |ps|
    ensures |r| == |ps|
  {
    if n == 0 then ps
    else
      assert updates[n - 1] in updates;
      PointersAfter(ps, updates, n - 1)[updates[n - 1].0 := Some(updates[n - 1].1)]
  }

  // ---- One builder over many edits ----

  /** What edit i adds to level l carries numbers the level has not seen. */
  ghost predicate FreshNumbers(V: seq<set<File>>, es: seq<Edit>, i: nat, l: nat)
    requires i < |es| && l < |V|
  {
    && OwnNumbers(AddedAt(es[i], l))
    && (forall f, g :: f in AddedAt(es[i], l) && g in V[l] ==> f.number != g.number)
    && (forall j, f, g :: 0 <= j < i && f in AddedAt(es[i], l) && g in AddedAt(es[j], l) ==> f.number != g.number)
  }

  /** No file number re-enters a level. */
  ghost predicate NoReentry(V: seq<set<File>>, es: seq<Edit>, n: nat)
    requires n <= |es|
  {
    forall i, l :: 0 <= i < n && 0 <= l < |V| ==> FreshNumbers(V, es, i, l)
  }

  ghost function AddedSoFar(es: seq<Edit>, n: nat, l: nat): set<File>
    requires n <= |es|
  {
    if n == 0 then {} else AddedSoFar(es, n - 1, l) + AddedAt(es[n - 1], l)
  }

  ghost function DeletedSoFar(es: seq<Edit>, n: nat, l: nat): set<nat>
    requires n <= |es|
  {
    if n == 0 then {} else DeletedSoFar(es, n - 1, l) + DeletedAt(es[n - 1], l) - NumbersOf(AddedAt(es[n - 1], l))
  }

  /** The builder's set of added files. */
  ghost function KeptSoFar(es: seq<Edit>, n: nat, l: nat): set<File>
    requires n <= |es|
  {
    if n == 0 then {} else KeptIn(KeptSoFar(es, n - 1, l), es[n - 1].added, l, |es[n - 1].added|)
  }

  /** What one builder over the edits saves as level l. */
  ghost function BuilderLevel(V: seq<set<File>>, es: seq<Edit>, n: nat, l: nat): set<File>
    requires n <= |es| && l < |V|
  {
    set f | f in V[l] + KeptSoFar(es, n, l) && f.number !in DeletedSoFar(es, n, l)
  }

  // ---- When one builder is as good as one edit at a time ----

  /** A number is not deleted from level l by edits i, ..., n - 1. */
  ghost predicate Spared(es: seq<Edit>, l: nat, number: nat, i: nat, n: nat)
    requires n <= |es|
  {
    forall k :: i <= k < n ==> number !in DeletedAt(es[k], l)
  }

  /** f entered level l, and its number has not been deleted there since. */
  ghost predicate Stays(V: seq<set<File>>, es: seq<Edit>, n: nat, l: nat, f: File)
    requires n <= |es| && l < |V|
  {
    || (f in V[l] && Spared(es, l, f.number, 0, n))
    || (exists j :: 0 <= j < n && f in AddedAt(es[j], l) && Spared(es, l, f.number, j + 1, n))
  }

  lemma {:induction false} FoldIsStaying(V: seq<set<File>>, es: seq<Edit>, n: nat, l: nat, f: File)
    requires n <= |es| && l < |V|
    ensures f in ApplyAll(V, es, n)[l] <==> Stays(V, es, n, l, f)
  {
    if n > 0 {
      var e := es[n - 1];
      FoldIsStaying(V, es, n - 1, l, f);
      if f in AddedAt(e, l) {
        assert Spared(es, l, f.number, n, n);
      } else if f.number !in DeletedAt(e, l) {
        assert Spared(es, l, f.number, 0, n - 1) ==> Spared(es, l, f.number, 0, n);
        if j :| 0 <= j < n - 1 && f in AddedAt(es[j], l) && Spared(es, l, f.number, j + 1, n - 1) {
          assert Spared(es, l, f.number, j + 1, n);
        }
        if j :| 0 <= j < n && f in AddedAt(es[j], l) && Spared(es, l, f.number, j + 1, n) {
          assert Spared(es, l, f.number, j + 1, n - 1);
        }
      }
    }
  }

  /** A file with this number enters level l with edit j. */
  ghost predicate Enters(es: seq<Edit>, l: nat, number: nat, j: nat)
    requires j < |es|
  {
    number in NumbersOf(AddedAt(es[j], l))
  }

  lemma {:induction false} DeletedIff(es: seq<Edit>, n: nat, l: nat, number: nat)
    requires n <= |es|
    ensures number in DeletedSoFar(es, n, l) <==>
            exists i :: 0 <= i < n && number in DeletedAt(es[i], l) && forall k :: i <= k < n ==>
                !Enters(es, l, number, k)
  {
    if n > 0 {
      DeletedIff(es, n - 1, l, number);
      if number in DeletedSoFar(es, n, l) && number !in DeletedAt(es[n - 1], l) {
        var i :| 0 <= i < n - 1 && number in DeletedAt(es[i], l) && forall k :: i <= k < n - 1 ==>
            !Enters(es, l, number, k);
        assert forall k :: i <= k < n ==> !Enters(es, l, number, k);
      }
      if i :| 0 <= i < n && number in DeletedAt(es[i], l) && forall k :: i <= k < n ==> !Enters(es, l, number, k) {
        assert !Enters(es, l, number, n - 1);
      }
    }
  }

  /** f's number is deleted by edit i, f does not come back, but with edit j its
      number does, and is left there. */
  ghost predicate Replaced(es: seq<Edit>, n: nat, l: nat, f: File, i: nat, j: nat)
    requires n <= |es|
  {
    && i <= j < n && f.number in DeletedAt(es[i], l) && (forall k :: i <= k < n ==> f !in AddedAt(es[k], l))
    && Enters(es, l, f.number, j) && Spared(es, l, f.number, j + 1, n)
  }

  /** The files the first n edits add to level l, in the order they are added. */
  ghost function Additions(es: seq<Edit>, n: nat, l: nat): seq<File>
    requires n <= |es|
  {
    if n == 0 then [] else Additions(es, n - 1, l) + OnLevel(es[n - 1].added, l, |es[n - 1].added|)
  }

  ghost function OnLevel(added: seq<(nat, File)>, l: nat, n: nat): seq<File>
    requires n <= |added|
  {
    if n == 0 then []
    else OnLevel(added, l, n - 1) + if added[n - 1].0 == l then [added[n - 1].1] else []
  }

  /** Of the files alike f, g is the first to be added. */
  ghost predicate Leads(adds: seq<File>, f: File, g: File) {
    exists p :: LeadsAt(adds, f, g, p)
  }

  ghost predicate LeadsAt(adds: seq<File>, f: File, g: File, p: int) {
    0 <= p < |adds| && adds[p] == g && Alike(g, f) && forall q :: 0 <= q < p ==> !Alike(adds[q], f)
  }

  /** A file that was there or led its likes, and has left, while another file has
      entered with its number and is left there. */
  ghost predicate Revived(V: seq<set<File>>, es: seq<Edit>, n: nat, l: nat, f: File)
    requires n <= |es| && l < |V|
  {
    (f in V[l] || Leads(Additions(es, n, l), f, f)) && exists i, j :: Replaced(es, n, l, f, i, j)
  }

  /** A file that was not there, was added and not deleted since, but another file
      led its likes. */
  ghost predicate ShutOut(V: seq<set<File>>, es: seq<Edit>, n: nat, l: nat, f: File)
    requires n <= |es| && l < |V|
  {
    && f !in V[l] && (exists g :: g != f && Leads(Additions(es, n, l), f, g))
    && exists j :: 0 <= j < n && f in AddedAt(es[j], l) && Spared(es, l, f.number, j + 1, n)
  }

  ghost predicate Clean(V: seq<set<File>>, es: seq<Edit>, n: nat, l: nat)
    requires n <= |es| && l < |V|
  {
    forall f :: !Revived(V, es, n, l, f) && !ShutOut(V, es, n, l, f)
  }

  // ---- The builder's set holds the files that lead their likes ----

  lemma AlikeIff(a: File, b: File)
    ensures Alike(a, b) <==> a.smallest == b.smallest && a.number == b.number
  {}

  /** The first of the files alike f, one of them being at q. */
  lemma {:induction false} Leader(adds: seq<File>, f: File, q: nat) returns (p: nat)
    requires q < |adds| && Alike(adds[q], f)
    ensures p <= q && LeadsAt(adds, f, adds[p], p)
  {
    if k :| 0 <= k < q && Alike(adds[k], f) {
      p := Leader(adds, f, k);
    } else {
      p := q;
    }
  }

  lemma OneLeader(adds: seq<File>, f: File, g: File, h: File)
    requires Leads(adds, f, g) && Leads(adds, f, h)
    ensures g == h
  {
    var p, q :| LeadsAt(adds, f, g, p) && LeadsAt(adds, f, h, q);
  }

  ghost predicate HoldsLeaders(S: set<File>, adds: seq<File>) {
    forall f :: f in S <==> Leads(adds, f, f)
  }

  lemma LeadsLonger(adds: seq<File>, x: File, f: File)
    ensures Leads(adds + [x], f, f) <==> Leads(adds, f, f) || (f == x && forall q :: 0 <= q < |adds| ==>
            !Alike(adds[q], f))
  {
    var adds' := adds + [x];
    if p :| LeadsAt(adds, f, f, p) {
      assert LeadsAt(adds', f, f, p);
    }
    if f == x && forall q :: 0 <= q < |adds| ==> !Alike(adds[q], f) {
      assert LeadsAt(adds', f, f, |adds|);
    }
    if p :| LeadsAt(adds', f, f, p) {
      assert forall q :: 0 <= q < p ==> adds'[q] == adds[q];
      assert p < |adds| ==> LeadsAt(adds, f, f, p);
    }
  }

  lemma WithLeads(S: set<File>, adds: seq<File>, x: File)
    requires HoldsLeaders(S, adds)
    ensures HoldsLeaders(With(S, x), adds + [x])
  {
    if q :| 0 <= q < |adds| && Alike(adds[q], x) {
      var p := Leader(adds, x, q);
      LeadsItself(adds, x, p);
      assert adds[p] in S && Alike(adds[p], x);
    }
    assert forall g :: g in S && Alike(g, x) ==> Leads(adds, g, g);
    forall f ensures f in With(S, x) <==> Leads(adds + [x], f, f) {
      LeadsLonger(adds, x, f);
    }
  }

  lemma LeadsItself(adds: seq<File>, x: File, p: nat)
    requires p < |adds| && LeadsAt(adds, x, adds[p], p)
    ensures Leads(adds, adds[p], adds[p])
  {
    forall q | 0 <= q < p ensures !Alike(adds[q], adds[p]) {
      AlikeIff(adds[q], adds[p]);
      AlikeIff(adds[p], x);
      AlikeIff(adds[q], x);
    }
    assert LeadsAt(adds, adds[p], adds[p], p);
  }

  lemma {:induction false} KeptInLeads(S: set<File>, adds: seq<File>, added: seq<(nat, File)>, l: nat, n: nat)
    requires n <= |added| && HoldsLeaders(S, adds)
    ensures HoldsLeaders(KeptIn(S, added, l, n), adds + OnLevel(added, l, n))
  {
    if n == 0 {
      assert adds + OnLevel(added, l, n) == adds;
    } else {
      KeptInLeads(S, adds, added, l, n - 1);
      var before := adds + OnLevel(added, l, n - 1);
      if added[n - 1].0 == l {
        WithLeads(KeptIn(S, added, l, n - 1), before, added[n - 1].1);
        assert adds + OnLevel(added, l, n) == before + [added[n - 1].1];
      } else {
        assert adds + OnLevel(added, l, n) == before;
      }
    }
  }

  /** The builder's set of added files, said of the edits. */
  lemma {:induction false} KeptIffLeads(es: seq<Edit>, n: nat, l: nat)
    requires n <= |es|
    ensures HoldsLeaders(KeptSoFar(es, n, l), Additions(es, n, l))
  {
    if n > 0 {
      KeptIffLeads(es, n - 1, l);
      var added := es[n - 1].added;
      KeptInLeads(KeptSoFar(es, n - 1, l), Additions(es, n - 1, l), added, l, |added|);
    }
  }

  lemma {:induction false} OnLevelHas(e: Edit, l: nat, n: nat, f: File)
    requires n <= |e.added|
    ensures f in OnLevel(e.added, l, n) <==> f in AddedIn(e.added, l, n)
  {
    if n > 0 {
      OnLevelHas(e, l, n - 1, f);
      NextAddition(e, l, n - 1);
    }
  }

  lemma {:induction false} AdditionsHave(es: seq<Edit>, n: nat, l: nat, f: File)
    requires n <= |es|
    ensures f in Additions(es, n, l) <==> exists j :: 0 <= j < n && f in AddedAt(es[j], l)
  {
    if n > 0 {
      AdditionsHave(es, n - 1, l, f);
      OnLevelHas(es[n - 1], l, |es[n - 1].added|, f);
    }
  }

  /** What was added is kept or another file led its likes, and not both. */
  lemma KeptOrLed(es: seq<Edit>, n: nat, l: nat, f: File)
    requires n <= |es| && exists j :: 0 <= j < n && f in AddedAt(es[j], l)
    ensures f in KeptSoFar(es, n, l) <==> Leads(Additions(es, n, l), f, f)
    ensures f !in KeptSoFar(es, n, l) <==> exists g :: g != f && Leads(Additions(es, n, l), f, g)
  {
    var adds := Additions(es, n, l);
    KeptIffLeads(es, n, l);
    AdditionsHave(es, n, l, f);
    var q :| 0 <= q < |adds| && adds[q] == f;
    AlikeIff(f, f);
    var p := Leader(adds, f, q);
    assert Leads(adds, f, adds[p]);
    if g :| g != f && Leads(adds, f, g) {
      if Leads(adds, f, f) {
        OneLeader(adds, f, f, g);
      }
    }
  }

  lemma {:induction false} LastDeletion(es: seq<Edit>, l: nat, number: nat, n: nat) returns (i: nat)
    requires n <= |es| && !Spared(es, l, number, 0, n)
    ensures i < n && number in DeletedAt(es[i], l) && Spared(es, l, number, i + 1, n)
  {
    if number in DeletedAt(es[n - 1], l) {
      i := n - 1;
    } else {
      i := LastDeletion(es, l, number, n - 1);
    }
  }

  /** What is kept without staying has been replaced. */
  lemma KeptOnly(V: seq<set<File>>, es: seq<Edit>, n: nat, l: nat, f: File)
    requires n <= |es| && l < |V| && f in BuilderLevel(V, es, n, l) && !Stays(V, es, n, l, f)
    ensures Revived(V, es, n, l, f)
  {
    KeptIffLeads(es, n, l);
    KeptEntered(es, n, l, f);
    var i := LastDeletion(es, l, f.number, n);
    DeletedIff(es, n, l, f.number);
    var j :| i <= j < n && Enters(es, l, f.number, j);
    forall k | i <= k < n ensures f !in AddedAt(es[k], l) {
      assert Spared(es, l, f.number, k + 1, n);
    }
    assert Spared(es, l, f.number, j + 1, n);
    assert Replaced(es, n, l, f, i, j);
  }

  lemma RevivedKept(V: seq<set<File>>, es: seq<Edit>, n: nat, l: nat, f: File)
    requires n <= |es| && l < |V| && Revived(V, es, n, l, f)
    ensures f in BuilderLevel(V, es, n, l) && !Stays(V, es, n, l, f)
  {
    KeptIffLeads(es, n, l);
    var i, j :| Replaced(es, n, l, f, i, j);
    DeletedIff(es, n, l, f.number);
    assert forall m :: 0 <= m < n && f in AddedAt(es[m], l) ==> m < i;
  }

  /** What stays has not been deleted, so it is kept unless it was shut out. */
  lemma StaysUndeleted(V: seq<set<File>>, es: seq<Edit>, n: nat, l: nat, f: File)
    requires n <= |es| && l < |V| && Stays(V, es, n, l, f)
    ensures f.number !in DeletedSoFar(es, n, l)
  {
    DeletedIff(es, n, l, f.number);
    if j :| 0 <= j < n && f in AddedAt(es[j], l) && Spared(es, l, f.number, j + 1, n) {
      assert Enters(es, l, f.number, j);
    }
  }

  /** One builder over a list of edits gives what applying them one at a time gives
      exactly when no file is revived and none is shut out. */
  lemma BuilderIffClean(V: seq<set<File>>, es: seq<Edit>, n: nat, l: nat)
    requires n <= |es| && l < |V|
    ensures BuilderLevel(V, es, n, l) == ApplyAll(V, es, n)[l] <==> Clean(V, es, n, l)
  {
    var fold, built := ApplyAll(V, es, n)[l], BuilderLevel(V, es, n, l);
    forall f ensures (f in fold <==> f in built) <==> !Revived(V, es, n, l, f) && !ShutOut(V, es, n, l, f) {
      FileIffClean(V, es, n, l, f);
    }
  }

  lemma FileIffClean(V: seq<set<File>>, es: seq<Edit>, n: nat, l: nat, f: File)
    requires n <= |es| && l < |V|
    ensures (f in ApplyAll(V, es, n)[l] <==> f in BuilderLevel(V, es, n, l)) <==>
            !Revived(V, es, n, l, f) && !ShutOut(V, es, n, l, f)
  {
    FoldIsStaying(V, es, n, l, f);
    if Stays(V, es, n, l, f) {
      StaysUndeleted(V, es, n, l, f);
      if f !in V[l] {
        KeptOrLed(es, n, l, f);
      }
      if Revived(V, es, n, l, f) {
        RevivedKept(V, es, n, l, f);
      }
    } else {
      if Revived(V, es, n, l, f) {
        RevivedKept(V, es, n, l, f);
      } else if f in BuilderLevel(V, es, n, l) {
        KeptOnly(V, es, n, l, f);
      }
    }
  }

  lemma {:induction false} AddedBefore(es: seq<Edit>, n: nat, l: nat, f: File)
    requires n <= |es| && f in AddedSoFar(es, n, l)
    ensures exists j :: 0 <= j < n && f in AddedAt(es[j], l)
  {
    if f !in AddedAt(es[n - 1], l) {
      AddedBefore(es, n - 1, l, f);
    }
  }

  lemma {:induction false} KeptInEntered(S: set<File>, e: Edit, l: nat, n: nat)
    requires n <= |e.added|
    ensures KeptIn(S, e.added, l, n) <= S + AddedAt(e, l)
  {
    if n > 0 {
      KeptInEntered(S, e, l, n - 1);
    }
  }

  lemma {:induction false} KeptEntered(es: seq<Edit>, n: nat, l: nat, f: File)
    requires n <= |es|
    ensures f in KeptSoFar(es, n, l) ==> exists j :: 0 <= j < n && f in AddedAt(es[j], l)
  {
    if n > 0 {
      KeptEntered(es, n - 1, l, f);
      KeptInEntered(KeptSoFar(es, n - 1, l), es[n - 1], l, |es[n - 1].added|);
    }
  }

  /** What an edit adds is new to everything gathered before it. */
  lemma NewNumbers(V: seq<set<File>>, es: seq<Edit>, n: nat, l: nat, f: File, g: File)
    requires n < |es| && NoReentry(V, es, n + 1) && l < |V|
    requires f in AddedAt(es[n], l) && g in V[l] + AddedSoFar(es, n, l)
    ensures f.number != g.number
  {
    assert FreshNumbers(V, es, n, l);
    if g !in V[l] {
      AddedBefore(es, n, l, g);
    }
  }

  lemma {:induction false} AddedOwnNumbers(V: seq<set<File>>, es: seq<Edit>, n: nat, l: nat)
    requires n <= |es| && NoReentry(V, es, n) && l < |V|
    ensures OwnNumbers(AddedSoFar(es, n, l))
  {
    if n > 0 {
      AddedOwnNumbers(V, es, n - 1, l);
      forall f, g | f in AddedSoFar(es, n, l) && g in AddedSoFar(es, n, l) && f.number == g.number ensures f == g {
        assert FreshNumbers(V, es, n - 1, l);
        if f in AddedAt(es[n - 1], l) && g in AddedSoFar(es, n - 1, l) {
          NewNumbers(V, es, n - 1, l, f, g);
        }
        if g in AddedAt(es[n - 1], l) && f in AddedSoFar(es, n - 1, l) {
          NewNumbers(V, es, n - 1, l, g, f);
        }
      }
    }
  }

  /** With numbers of their own, all additions get in. */
  lemma {:induction false} KeptInAll(S: set<File>, e: Edit, l: nat, n: nat)
    requires n <= |e.added| && OwnNumbers(S + AddedAt(e, l))
    ensures KeptIn(S, e.added, l, n) == S + AddedIn(e.added, l, n)
  {
    if n > 0 {
      KeptInAll(S, e, l, n - 1);
      NextAddition(e, l, n - 1);
      var K, f := KeptIn(S, e.added, l, n - 1), e.added[n - 1].1;
      if e.added[n - 1].0 == l {
        assert K <= S + AddedAt(e, l);
        assert forall g :: g in K && Alike(g, f) ==> g.number == f.number;
      }
    }
  }

  lemma {:induction false} KeptIsAdded(V: seq<set<File>>, es: seq<Edit>, n: nat, l: nat)
    requires n <= |es| && NoReentry(V, es, n) && l < |V|
    ensures KeptSoFar(es, n, l) == AddedSoFar(es, n, l)
  {
    if n > 0 {
      KeptIsAdded(V, es, n - 1, l);
      AddedOwnNumbers(V, es, n, l);
      KeptInAll(AddedSoFar(es, n - 1, l), es[n - 1], l, |es[n - 1].added|);
    }
  }

  lemma {:induction false} AddedSince(es: seq<Edit>, n: nat, l: nat, j: nat)
    requires j < n <= |es|
    ensures AddedAt(es[j], l) <= AddedSoFar(es, n, l)
  {
    if j < n - 1 {
      AddedSince(es, n - 1, l, j);
    }
  }

  lemma FreshIsClean(V: seq<set<File>>, es: seq<Edit>, n: nat, l: nat)
    requires n <= |es| && NoReentry(V, es, n) && l < |V|
    ensures Clean(V, es, n, l)
  {
    KeptIsAdded(V, es, n, l);
    KeptIffLeads(es, n, l);
    forall f ensures !Revived(V, es, n, l, f) && !ShutOut(V, es, n, l, f) {
      if exists j :: 0 <= j < n && f in AddedAt(es[j], l) {
        var j :| 0 <= j < n && f in AddedAt(es[j], l);
        AddedSince(es, n, l, j);
        KeptOrLed(es, n, l, f);
      }
      if f in V[l] + AddedSoFar(es, n, l) {
        forall i: nat, j: nat ensures !Replaced(es, n, l, f, i, j) {
          if 0 <= i <= j < n && (forall k :: i <= k < n ==> f !in AddedAt(es[k], l)) {
            NotReplaced(V, es, n, l, f, i, j);
          }
        }
      }
    }
  }

  lemma NotReplaced(V: seq<set<File>>, es: seq<Edit>, n: nat, l: nat, f: File, i: nat, j: nat)
    requires i <= j < n <= |es| && NoReentry(V, es, n) && l < |V| && f in V[l] + AddedSoFar(es, n, l)
    requires forall k :: i <= k < n ==> f !in AddedAt(es[k], l)
    ensures !Enters(es, l, f.number, j)
  {
    assert FreshNumbers(V, es, j, l);
    if f !in V[l] {
      AddedBefore(es, n, l, f);
      var m :| 0 <= m < n && f in AddedAt(es[m], l);
      assert m < j;
    }
  }

  /** In particular when no number re-enters: the builder then holds every file added. */
  lemma BuilderIsFold(V: seq<set<File>>, es: seq<Edit>, n: nat, l: nat)
    requires n <= |es| && NoReentry(V, es, n) && l < |V|
    ensures ApplyAll(V, es, n)[l] == set f | f in V[l] + AddedSoFar(es, n, l) && f.number !in DeletedSoFar(es, n, l)
  {
    FreshIsClean(V, es, n, l);
    BuilderIffClean(V, es, n, l);
    KeptIsAdded(V, es, n, l);
  }

  /** A number that comes back to a level it is still on: the builder keeps the
      old file, one edit at a time drops it. */
  lemma ReentryDiffers(f: File, g: File)
    requires f.number == g.number && f != g
    ensures var e := Edit(None, None, None, None, None, [], {(1, f.number)}, [(1, g)]);
            var V := [{}, {f}];
            Revived(V, [e], 1, 1, f) && f in BuilderLevel(V, [e], 1, 1) && f !in ApplyAll(V, [e], 1)[1]
  {
    var e := Edit(None, None, None, None, None, [], {(1, f.number)}, [(1, g)]);
    var V: seq<set<File>> := [{}, {f}];
    assert e.added[0].0 == 1 && AddedAt(e, 1) == {g};
    assert (1, f.number) in e.deleted && DeletedAt(e, 1) == {f.number};
    assert g.number in NumbersOf({g});
    assert Replaced([e], 1, 1, f, 0, 0);
    RevivedKept(V, [e], 1, 1, f);
    FoldIsStaying(V, [e], 1, 1, f);
  }

  /** A number that leaves and comes back with another file that starts at the same
      key: the builder's set still holds the old file and does not take the new one. */
  lemma ShutOutDiffers(f: File, g: File)
    requires f.number == g.number && f.smallest == g.smallest && f != g
    ensures var e := Edit(None, None, None, None, None, [], {}, [(1, f)]);
            var e' := Edit(None, None, None, None, None, [], {(1, f.number)}, [(1, g)]);
            var V: seq<set<File>> := [{}, {}];
            ShutOut(V, [e, e'], 2, 1, g) && g !in BuilderLevel(V, [e, e'], 2, 1) && g in ApplyAll(V, [e, e'], 2)[1]
  {
    var e := Edit(None, None, None, None, None, [], {}, [(1, f)]);
    var e' := Edit(None, None, None, None, None, [], {(1, f.number)}, [(1, g)]);
    var V: seq<set<File>> := [{}, {}];
    var es := [e, e'];
    assert e.added[0].0 == 1 && e'.added[0].0 == 1;
    assert KeptSoFar(es, 0, 1) == {};
    assert KeptIn({}, e.added, 1, 0) == {} && KeptSoFar(es, 1, 1) == With({}, f) == {f};
    assert KeptIn({f}, e'.added, 1, 0) == {f} && Alike(f, g) && KeptSoFar(es, 2, 1) == With({f}, g) == {f};
    assert g in AddedAt(es[1], 1) && Spared(es, 1, g.number, 2, 2);
    KeptOrLed(es, 2, 1, g);
    FoldIsStaying(V, es, 2, 1, g);
  }

  // ---- Recover ----

  /** The newest value a list of edits gives to a counter. */
  function Latest(es: seq<Edit>, n: nat, field: Edit -> Option<nat>): Option<nat>
    requires n <= |es|
  {
    if n == 0 then None else if field(es[n - 1]).Some? then field(es[n - 1]) else Latest(es, n - 1, field)
  }

  function PointersThrough(ps: seq<Option<InternalKey>>, es: seq<Edit>, n: nat): (r: seq<Option<InternalKey>>)
    requires n <= |es| && |ps| == NUM_LEVELS && forall e :: e in es ==> EditLevels(e)
    ensures |r| == NUM_LEVELS
  {
    if n == 0 then ps
    else
      assert es[n - 1] in es;
      PointersAfter(PointersThrough(ps, es, n - 1), es[n - 1].pointers, |es[n - 1].pointers|)
  }

  /** The builder after n edits. */
  ghost predicate Gathered(b: Builder, ps: seq<Option<InternalKey>>, es: seq<Edit>, n: nat)
    requires n <= |es| && |ps| == NUM_LEVELS && forall e :: e in es ==> EditLevels(e)
    reads b
  {
    && b.Valid() && b.pointers == PointersThrough(ps, es, n)
    && (forall l :: 0 <= l < NUM_LEVELS ==> b.deleted[l] == DeletedSoFar(es, n, l))
    && (forall l :: 0 <= l < NUM_LEVELS ==> FileSet(b.added[l]) == KeptSoFar(es, n, l))
  }

  method ApplyNext(b: Builder, ghost ps: seq<Option<InternalKey>>, es: seq<Edit>, n: nat)
    requires n < |es| && |ps| == NUM_LEVELS && (forall e :: e in es ==> EditLevels(e))
    requires Gathered(b, ps, es, n)
    modifies b
    ensures Gathered(b, ps, es, n + 1)
  {
    assert es[n] in es;
    b.Apply(es[n]);
  }

  /** What a builder over the edits saves as level l is the result of applying them
      one at a time exactly when the level is clean; with no number re-entering,
      it is also in strict order. */
  lemma SavedIffClean(V: seq<set<File>>, es: seq<Edit>, n: nat, l: nat, base: seq<File>, added: seq<File>,
        deleted: set<nat>, v: seq<File>)
    requires n <= |es| && l < |V| && Saved(base, added, deleted, v)
    requires FileSet(base) == V[l] && FileSet(added) == KeptSoFar(es, n, l) && deleted == DeletedSoFar(es, n, l)
    ensures FileSet(v) == ApplyAll(V, es, n)[l] <==> Clean(V, es, n, l)
    ensures NoReentry(V, es, n) ==> Ordered(v) && Clean(V, es, n, l)
  {
    assert forall f :: f in base <==> f in V[l];
    assert forall f :: f in added <==> f in KeptSoFar(es, n, l);
    assert FileSet(v) == BuilderLevel(V, es, n, l);
    BuilderIffClean(V, es, n, l);
    if NoReentry(V, es, n) {
      FreshIsClean(V, es, n, l);
      KeptIsAdded(V, es, n, l);
      forall f, g | f in base && g in added ensures f.number != g.number {
        AddedBefore(es, n, l, g);
        var j :| 0 <= j < n && g in AddedAt(es[j], l);
        assert FreshNumbers(V, es, j, l);
      }
    }
  }

  /** The files of a level, as an ordered listing, after the edits. */
  ghost predicate Rebuilt(V: seq<set<File>>, es: seq<Edit>, levels: seq<seq<File>>) {
    |V| == |levels| && forall l :: 0 <= l < |levels| ==> Ordered(levels[l])
                                                         && FileSet(levels[l]) == ApplyAll(V, es, |es|)[l]
  }

  /** Levels saved after the edits: each one right exactly when it is clean. */
  ghost predicate RightIffClean(V: seq<set<File>>, es: seq<Edit>, levels: seq<seq<File>>) {
    |V| == |levels| && forall l :: 0 <= l < |levels| ==> (FileSet(levels[l]) == ApplyAll(V, es, |es|)[l] <==>
        Clean(V, es, |es|, l))
  }

  lemma SavedRebuilds(V: seq<set<File>>, es: seq<Edit>, base: seq<seq<File>>, added: seq<seq<File>>,
        deleted: seq<set<nat>>, v: seq<seq<File>>)
    requires |V| == |base| == |added| == |deleted| == |v| == NUM_LEVELS && V == LevelSets(base)
    requires forall l :: 0 <= l < NUM_LEVELS ==> Saved(base[l], added[l], deleted[l], v[l])
    requires forall l :: 0 <= l < NUM_LEVELS ==> deleted[l] == DeletedSoFar(es, |es|, l)
                                                 && FileSet(added[l]) == KeptSoFar(es, |es|, l)
    ensures RightIffClean(V, es, v)
    ensures NoReentry(V, es, |es|) ==> Rebuilt(V, es, v)
  {
    forall l | 0 <= l < NUM_LEVELS
      ensures FileSet(v[l]) == ApplyAll(V, es, |es|)[l] <==> Clean(V, es, |es|, l)
      ensures NoReentry(V, es, |es|) ==> Ordered(v[l]) && Clean(V, es, |es|, l)
    {
      assert FileSet(base[l]) == V[l];
      SavedIffClean(V, es, |es|, l, base[l], added[l], deleted[l], v[l]);
    }
  }

  /** The version part of LogAndApply: a builder over the current version. */
  method ApplyToCurrent(current: seq<seq<File>>, ps: seq<Option<InternalKey>>, e: Edit)
      returns (levels: seq<seq<File>>, pointers: seq<Option<InternalKey>>)
    requires |current| == |ps| == NUM_LEVELS && EditLevels(e) && forall l :: 0 <= l < NUM_LEVELS ==> Ordered(current[l])
    ensures |levels| == NUM_LEVELS && |pointers| == NUM_LEVELS && pointers == PointersThrough(ps, [e], 1)
    ensures RightIffClean(LevelSets(current), [e], levels)
    ensures NoReentry(LevelSets(current), [e], 1) ==> Rebuilt(LevelSets(current), [e], levels)
  {
    var builder := new Builder(current, ps);
    ghost var V := LevelSets(current);
    assert Gathered(builder, ps, [e], 0);
    ApplyNext(builder, ps, [e], 0);
    levels := builder.SaveTo();
    pointers := builder.pointers;
    SavedRebuilds(V, [e], current, builder.added, builder.deleted, levels);
  }

  datatype Recovered =
    | RecoverError(msg: string)
    | RecoveredSet(levels: seq<seq<File>>, pointers: seq<Option<InternalKey>>,
                   logNumber: nat, prevLogNumber: nat, manifestNumber: nat, nextFile: nat, lastSequence: nat)

  function LogNumberOf(e: Edit): Option<nat> { e.logNumber }
  function PrevLogNumberOf(e: Edit): Option<nat> { e.prevLogNumber }
  function NextFileOf(e: Edit): Option<nat> { e.nextFile }
  function LastSequenceOf(e: Edit): Option<nat> { e.lastSequence }

  predicate Mismatch(e: Edit, name: Bytes) {
    e.comparator.Some? && e.comparator.value != name
  }

  function NoLevels(): (r: seq<seq<File>>)
    ensures |r| == NUM_LEVELS && forall l :: 0 <= l < NUM_LEVELS ==> r[l] == []
  {
    seq(NUM_LEVELS, _ => [])
  }

  function NoPointers(): (r: seq<Option<InternalKey>>)
    ensures |r| == NUM_LEVELS && forall l :: 0 <= l < NUM_LEVELS ==> r[l] == None
  {
    seq(NUM_LEVELS, _ => None)
  }

  /** VersionSet::Recover over the decoded records of the manifest. */
  method Recover(records: seq<Edit>, name: Bytes) returns (r: Recovered)
    requires forall e :: e in records ==> EditLevels(e)
    ensures (exists e :: e in records && Mismatch(e, name)) ==> r.RecoverError?
    ensures r.RecoverError? <==>
              || (exists e :: e in records && Mismatch(e, name))
              || Latest(records, |records|, NextFileOf).None?
              || Latest(records, |records|, LogNumberOf).None?
              || Latest(records, |records|, LastSequenceOf).None?
    ensures r.RecoveredSet? ==>
              && Some(r.logNumber) == Latest(records, |records|, LogNumberOf)
              && Some(r.lastSequence) == Latest(records, |records|, LastSequenceOf)
              && Some(r.manifestNumber) == Latest(records, |records|, NextFileOf) && r.nextFile == r.manifestNumber + 1
              && r.prevLogNumber == (match Latest(records, |records|, PrevLogNumberOf) case None => 0 case Some(n) => n)
              && r.pointers == PointersThrough(NoPointers(), records, |records|)
              && RightIffClean(LevelSets(NoLevels()), records, r.levels)
              && (NoReentry(LevelSets(NoLevels()), records, |records|) ==>
                 Rebuilt(LevelSets(NoLevels()), records, r.levels))
  {
    var logNumber: Option<nat>, prevLogNumber: Option<nat>, nextFile: Option<nat>, lastSequence: Option<nat> := None,
        None, None, None;
    var builder := new Builder(NoLevels(), NoPointers());
    ghost var V := LevelSets(NoLevels());
    for i := 0 to |records|
      invariant fresh(builder) && builder.base == NoLevels() && Gathered(builder, NoPointers(), records, i)
      invariant logNumber == Latest(records, i, LogNumberOf) && prevLogNumber == Latest(records, i, PrevLogNumberOf)
      invariant nextFile == Latest(records, i, NextFileOf) && lastSequence == Latest(records, i, LastSequenceOf)
      invariant forall k :: 0 <= k < i ==> !Mismatch(records[k], name)
    {
      var e := records[i];
      if Mismatch(e, name) {
        return RecoverError("comparator does not match");
      }
      ApplyNext(builder, NoPointers(), records, i);
      if e.logNumber.Some? { logNumber := e.logNumber; }
      if e.prevLogNumber.Some? { prevLogNumber := e.prevLogNumber; }
      if e.nextFile.Some? { nextFile := e.nextFile; }
      if e.lastSequence.Some? { lastSequence := e.lastSequence; }
    }
    if nextFile.None? {
      return RecoverError("no meta-nextfile entry in descriptor");
    } else if logNumber.None? {
      return RecoverError("no meta-lognumber entry in descriptor");
    } else if lastSequence.None? {
      return RecoverError("no last-sequence-number entry in descriptor");
    }
    var levels := builder.SaveTo();
    SavedRebuilds(V, records, NoLevels(), builder.added, builder.deleted, levels);
    r := RecoveredSet(levels, builder.pointers, logNumber.value, if prevLogNumber.Some? then prevLogNumber.value else 0,
                      nextFile.value, nextFile.value + 1, lastSequence.value);
  }
}
