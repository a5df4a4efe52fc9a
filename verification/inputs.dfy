/** Which files a flush must stay clear of and which files a compaction takes:
    SomeFileOverlapsRange, PickLevelForMemTableOutput, GetOverlappingInputs,
    SetupOtherInputs, PickCompaction and CompactRange. */
module Inputs {
  import opened Keys
  import opened Mvcc
  import opened Levels
  import opened VersionGet

  /** kMaxMemCompactLevel. */
  const MAX_MEM_COMPACT_LEVEL := 2

  /** A user-key range; a missing end is unbounded (NULL in the source). */
  datatype Range = Range(lo: Option<UserKey>, hi: Option<UserKey>)

  predicate AfterFile(k: Option<UserKey>, f: File) {
    k.Some? && k.value > f.largest.user
  }

  predicate BeforeFile(k: Option<UserKey>, f: File) {
    k.Some? && k.value < f.smallest.user
  }

  predicate Overlaps(f: File, r: Range) {
    !AfterFile(r.lo, f) && !BeforeFile(r.hi, f)
  }

  /** The whole file lies in the range. */
  predicate Within(f: File, r: Range) {
    && (r.lo.Some? ==> r.lo.value <= f.smallest.user)
    && (r.hi.Some? ==> f.largest.user <= r.hi.value)
  }

  predicate Includes(outer: Range, inner: Range) {
    && (outer.lo.Some? ==> inner.lo.Some? && outer.lo.value <= inner.lo.value)
    && (outer.hi.Some? ==> inner.hi.Some? && inner.hi.value <= outer.hi.value)
  }

  /** Every file the range touches lies inside it. */
  predicate ClosedRange(files: seq<File>, r: Range) {
    forall f :: f in files && Overlaps(f, r) ==> Within(f, r)
  }

  /** The files of a list that overlap a range, in order. */
  function Select(files: seq<File>, r: Range): (s: seq<File>)
    ensures forall f :: f in s <==> f in files && Overlaps(f, r)
  {
    if |files| == 0 then []
    else
      var last := files[|files| - 1];
      assert files == files[..|files| - 1] + [last];
      Select(files[..|files| - 1], r) + if Overlaps(last, r) then [last] else []
  }

  lemma {:induction false} SelectSorted(files: seq<File>, r: Range)
    requires SortedLevel(files)
    ensures SortedLevel(Select(files, r))
  {
    if |files| > 0 {
      var init := files[..|files| - 1];
      SelectSorted(init, r);
      var s := Select(init, r);
      forall i | 0 <= i < |s| ensures Before(s[i].largest, files[|files| - 1].smallest) {
        assert s[i] in init;
      }
    }
  }

  /** Whether any file of a level overlaps the range; binary search when the
      level is sorted. */
  method SomeFileOverlapsRange(disjointSorted: bool, files: seq<File>, r: Range) returns (b: bool)
    requires forall f :: f in files ==> FileOk(f)
    requires disjointSorted ==> SortedLevel(files)
    ensures b <==> exists f :: f in files && Overlaps(f, r)
  {
    if !disjointSorted {
      for i := 0 to |files|
        invariant forall j :: 0 <= j < i ==> !Overlaps(files[j], r)
      {
        if AfterFile(r.lo, files[i]) || BeforeFile(r.hi, files[i]) {
        } else {
          assert files[i] in files && Overlaps(files[i], r);
          return true;
        }
      }
      return false;
    }
    var index := 0;
    if r.lo.Some? {
      index := FindFile(files, InternalKey(r.lo.value, MAX_SEQUENCE, Put));
    }
    forall i | 0 <= i < |files| ensures i < index <==> AfterFile(r.lo, files[i]) {
      assert FileOk(files[i]);
      assert files[i].entries[|files[i].entries| - 1] in files[i].entries;
    }
    if index >= |files| {
      return false;
    }
    if BeforeFile(r.hi, files[index]) {
      assert FileOk(files[index]);
      forall i | index < i < |files| ensures BeforeFile(r.hi, files[i]) {
        assert Before(files[index].largest, files[i].smallest);
        FileCovers(files[index], files[index].entries[0]);
      }
    }
    assert files[index] in files;
    return !BeforeFile(r.hi, files[index]);
  }

  function TotalFileSize(files: seq<File>): nat {
    if |files| == 0 then 0 else files[0].size + TotalFileSize(files[1..])
  }

  /** Version::GetOverlappingInputs.  Level-0 files may overlap each other, so
      the range grows and the scan restarts whenever a file sticks out of it.
      The result is exactly the files of the least closed range that includes
      the request. */
  method GetOverlappingInputs(files: seq<File>, levelZero: bool, request: Range)
    returns (inputs: seq<File>, final: Range)
    requires forall f :: f in files ==> FileOk(f)
    ensures inputs == Select(files, final)
    ensures Includes(final, request)
    ensures !levelZero ==> final == request
    ensures levelZero ==> ClosedRange(files, final)
    ensures forall r :: Includes(r, request) && ClosedRange(files, r) ==> Includes(r, final)
  {
    var i := 0;
    inputs := [];
    final := request;
    while i < |files|
      invariant i <= |files|
      invariant inputs == Select(files[..i], final)
      invariant Includes(final, request)
      invariant !levelZero ==> final == request
      invariant levelZero ==> ClosedRange(files[..i], final)
      invariant forall r :: Includes(r, request) && ClosedRange(files, r) ==> Includes(r, final)
      decreases StickOutLow(files, final), StickOutHigh(files, final), |files| - i
    {
      var f := files[i];
      i := i + 1;
      assert files[..i] == files[..i - 1] + [f];
      assert files[..i][..i - 1] == files[..i - 1];
      if Overlaps(f, final) {
        inputs := inputs + [f];
        if levelZero {
          GrowKeepsLeast(files, request, final, f);
          if final.lo.Some? && f.smallest.user < final.lo.value {
            assert i - 1 in StickOutLow(files, final);
            final := final.(lo := Some(f.smallest.user));
            inputs := [];
            i := 0;
          } else if final.hi.Some? && f.largest.user > final.hi.value {
            assert i - 1 in StickOutHigh(files, final);
            final := final.(hi := Some(f.largest.user));
            inputs := [];
            i := 0;
          }
        }
      }
    }
    assert files[..i] == files;
  }

  /** The files that still reach below the range, by position. */
  function StickOutLow(files: seq<File>, r: Range): set<int> {
    set i | 0 <= i < |files| && r.lo.Some? && files[i].smallest.user < r.lo.value
  }

  function StickOutHigh(files: seq<File>, r: Range): set<int> {
    set i | 0 <= i < |files| && r.hi.Some? && files[i].largest.user > r.hi.value
  }

  /** A closed range that includes the current range also includes any file the
      current range touches. */
  lemma GrowKeepsLeast(files: seq<File>, request: Range, current: Range, f: File)
    requires f in files && FileOk(f) && Overlaps(f, current)
    requires forall r :: Includes(r, request) && ClosedRange(files, r) ==> Includes(r, current)
    ensures forall r :: Includes(r, request) && ClosedRange(files, r) ==> Within(f, r)
  {
    forall r | Includes(r, request) && ClosedRange(files, r) ensures Within(f, r) {
      assert Includes(r, current);
      assert Overlaps(f, r);
    }
  }

  ghost predicate MayEnter(levels: seq<seq<File>>, r: Range)
    requires |levels| == NUM_LEVELS
  {
    forall f :: f in levels[0] ==> !Overlaps(f, r)
  }

  /** From level l a flushed table may go one deeper: nothing there overlaps it,
      and it overlaps few enough bytes of the level after. */
  ghost predicate MayDescend(levels: seq<seq<File>>, r: Range, l: nat, maxFileSize: nat)
    requires |levels| == NUM_LEVELS && l < MAX_MEM_COMPACT_LEVEL
  {
    && (forall f :: f in levels[l + 1] ==> !Overlaps(f, r))
    && TotalFileSize(Select(levels[l + 2], r)) <= 10 * maxFileSize
  }

  /** The level a flushed memtable goes to: below level 0 only when nothing
      down to and including that level overlaps it. */
  method PickLevelForMemTableOutput(levels: seq<seq<File>>, lo: UserKey, hi: UserKey, maxFileSize: nat)
    returns (level: nat)
    requires VersionOk(levels)
    ensures level <= MAX_MEM_COMPACT_LEVEL
    ensures level > 0 ==> forall l, f :: 0 <= l <= level && f in levels[l] ==> !Overlaps(f, Range(Some(lo), Some(hi)))
    ensures var r := Range(Some(lo), Some(hi));
            && (level > 0 ==> MayEnter(levels, r))
            && (forall l :: 0 <= l < level ==> MayDescend(levels, r, l, maxFileSize))
            && (level < MAX_MEM_COMPACT_LEVEL && MayEnter(levels, r) ==> !MayDescend(levels, r, level, maxFileSize))
  {
    VersionLevelsSorted(levels);
    level := 0;
    var r := Range(Some(lo), Some(hi));
    var overlap := SomeFileOverlapsRange(false, levels[0], r);
    if !overlap {
      while level < MAX_MEM_COMPACT_LEVEL
        invariant level <= MAX_MEM_COMPACT_LEVEL
        invariant forall l, f :: 0 <= l <= level && f in levels[l] ==> !Overlaps(f, r)
        invariant forall l :: 0 <= l < level ==> MayDescend(levels, r, l, maxFileSize)
      {
        overlap := SomeFileOverlapsRange(true, levels[level + 1], r);
        if overlap {
          break;
        }
        if level + 2 < NUM_LEVELS {
          var overlaps, _ := GetOverlappingInputs(levels[level + 2], false, r);
          if TotalFileSize(overlaps) > 10 * maxFileSize {
            break;
          }
        }
        level := level + 1;
      }
    }
  }

  /** VersionSet::GetRange: the ends of the hull of a non-empty list. */
  method GetRange(files: seq<File>) returns (smallest: InternalKey, largest: InternalKey)
    requires |files| > 0
    ensures exists f :: f in files && f.smallest == smallest
    ensures exists f :: f in files && f.largest == largest
    ensures forall f :: f in files ==> !Before(f.smallest, smallest) && !Before(largest, f.largest)
  {
    smallest, largest := files[0].smallest, files[0].largest;
    for i := 1 to |files|
      invariant exists f :: f in files && f.smallest == smallest
      invariant exists f :: f in files && f.largest == largest
      invariant forall j :: 0 <= j < i ==> !Before(files[j].smallest, smallest) && !Before(largest, files[j].largest)
    {
      if Before(files[i].smallest, smallest) {
        smallest := files[i].smallest;
      }
      if Before(largest, files[i].largest) {
        largest := files[i].largest;
      }
    }
  }

  /** g meets the user-key hull of a set of files. */
  ghost predicate MeetsHull(g: File, fs: set<File>) {
    exists f, h :: f in fs && h in fs && f.smallest.user <= g.largest.user && g.smallest.user <= h.largest.user
  }

  /** What every way of picking inputs delivers: all of the next level that
      meets the hull of the first inputs, and for level 0 no file left behind
      that meets it. */
  ghost predicate Picked(L: seq<set<File>>, level: nat, in0: set<File>, in1: set<File>) {
    && level + 1 < |L|
    && in0 != {} && in0 <= L[level] && in1 <= L[level + 1]
    && (forall g :: g in L[level + 1] ==> (g in in1 <==> MeetsHull(g, in0)))
    && (level == 0 ==> forall g :: g in L[0] && MeetsHull(g, in0) ==> g in in0)
  }

  /** The files overlapping the range of a list are those meeting its hull. */
  lemma RangeIsHull(files: seq<File>, smallest: InternalKey, largest: InternalKey, g: File)
    requires exists f :: f in files && f.smallest == smallest
    requires exists f :: f in files && f.largest == largest
    requires forall f :: f in files ==> !Before(f.smallest, smallest) && !Before(largest, f.largest)
    ensures Overlaps(g, Range(Some(smallest.user), Some(largest.user))) <==> MeetsHull(g, FileSet(files))
  {
    if MeetsHull(g, FileSet(files)) {
      var f, h :| f in FileSet(files) && h in FileSet(files)
        && f.smallest.user <= g.largest.user && g.smallest.user <= h.largest.user;
    } else {
      var f :| f in files && f.smallest == smallest;
      var h :| h in files && h.largest == largest;
      assert f in FileSet(files) && h in FileSet(files);
    }
  }

  ghost predicate ZeroClosed(files: seq<File>, in0: seq<File>) {
    forall g {:trigger MeetsHull(g, FileSet(in0))} :: g in files && MeetsHull(g, FileSet(in0)) ==> g in in0
  }

  /** Files selected by a closed range leave nothing of their hull behind. */
  lemma ClosedRangeZeroClosed(files: seq<File>, r: Range)
    requires ClosedRange(files, r)
    ensures ZeroClosed(files, Select(files, r))
  {
    var s := Select(files, r);
    forall g | g in files && MeetsHull(g, FileSet(s)) ensures g in s {
      var f, h :| f in FileSet(s) && h in FileSet(s)
        && f.smallest.user <= g.largest.user && g.smallest.user <= h.largest.user;
      assert Within(f, r) && Within(h, r);
    }
  }

  /** The user-key range of a list, both ends attained. */
  ghost predicate IsHull(files: seq<File>, r: Range) {
    && r.lo.Some? && r.hi.Some?
    && (exists f :: f in files && f.smallest.user == r.lo.value)
    && (exists f :: f in files && f.largest.user == r.hi.value)
    && (forall f :: f in files ==> Within(f, r))
  }

  /** The range an overlap query ends with: the request, and at level 0 the least
      closed range around it. */
  ghost predicate EndsWith(files: seq<File>, levelZero: bool, request: Range, final: Range) {
    && Includes(final, request) && (!levelZero ==> final == request) && (levelZero ==> ClosedRange(files, final))
    && (forall r :: Includes(r, request) && ClosedRange(files, r) ==> Includes(r, final))
  }

  datatype Query = Query(request: Range, final: Range)

  ghost predicate Answers(q: Query, files: seq<File>, levelZero: bool, hull: seq<File>) {
    IsHull(hull, q.request) && EndsWith(files, levelZero, q.request, q.final)
  }

  /** The files an overlap query for the hull of a list gives. */
  ghost predicate Drawn(files: seq<File>, levelZero: bool, hull: seq<File>, inputs: seq<File>) {
    && (exists q: Query :: Answers(q, files, levelZero, hull))
    && (forall q: Query :: Answers(q, files, levelZero, hull) ==> inputs == Select(files, q.final))
  }

  lemma OneHull(files: seq<File>, r1: Range, r2: Range)
    requires IsHull(files, r1) && IsHull(files, r2)
    ensures r1 == r2
  {
    var f1, g1 :| f1 in files && f1.smallest.user == r1.lo.value && g1 in files && g1.largest.user == r1.hi.value;
    var f2, g2 :| f2 in files && f2.smallest.user == r2.lo.value && g2 in files && g2.largest.user == r2.hi.value;
    assert Within(f1, r2) && Within(g1, r2) && Within(f2, r1) && Within(g2, r1);
  }

  /** An overlap query has one answer. */
  lemma OneAnswer(files: seq<File>, levelZero: bool, hull: seq<File>, q1: Query, q2: Query)
    requires Answers(q1, files, levelZero, hull) && Answers(q2, files, levelZero, hull)
    ensures q1 == q2
  {
    OneHull(hull, q1.request, q2.request);
    assert levelZero ==> Includes(q1.final, q2.final) && Includes(q2.final, q1.final);
  }

  lemma DrawnBy(files: seq<File>, levelZero: bool, hull: seq<File>, q: Query)
    requires Answers(q, files, levelZero, hull)
    ensures Drawn(files, levelZero, hull, Select(files, q.final))
  {
    forall p: Query | Answers(p, files, levelZero, hull) ensures Select(files, p.final) == Select(files, q.final) {
      OneAnswer(files, levelZero, hull, p, q);
    }
  }

  /** One overlap query for the hull of a list. */
  method NextLevelInputs(files: seq<File>, levelZero: bool, hull: seq<File>) returns (inputs: seq<File>)
    requires |hull| > 0 && forall f :: f in files ==> FileOk(f)
    ensures Drawn(files, levelZero, hull, inputs)
    ensures forall g :: g in inputs ==> g in files
    ensures !levelZero ==> Complete(files, hull, inputs)
    ensures levelZero ==> ZeroClosed(files, inputs)
    ensures forall g {:trigger MeetsHull(g, FileSet(hull))} :: g in files && MeetsHull(g, FileSet(hull)) ==> g in inputs
  {
    var smallest, largest := GetRange(hull);
    var request := Range(Some(smallest.user), Some(largest.user));
    var final;
    inputs, final := GetOverlappingInputs(files, levelZero, request);
    forall g | g in files ensures Overlaps(g, request) <==> MeetsHull(g, FileSet(hull)) {
      RangeIsHull(hull, smallest, largest, g);
    }
    if levelZero {
      ClosedRangeZeroClosed(files, final);
    }
    DrawnBy(files, levelZero, hull, Query(request, final));
  }

  /** VersionSet::SetupOtherInputs: the inputs at the next level, and the
      attempt to take more of this level without taking more of the next. */
  method SetupOtherInputs(levels: seq<seq<File>>, level: nat, inputs0: seq<File>, maxFileSize: nat)
    returns (in0: seq<File>, in1: seq<File>, ghost one: seq<File>, ghost more0: seq<File>, ghost more1: seq<File>)
    requires VersionOk(levels) && level + 1 < NUM_LEVELS
    requires |inputs0| > 0 && forall f :: f in inputs0 ==> f in levels[level]
    requires level == 0 ==> ZeroClosed(levels[0], inputs0)
    ensures Picked(LevelSets(levels), level, FileSet(in0), FileSet(in1))
    ensures forall f :: f in inputs0 ==> f in in0
    ensures Drawn(levels[level + 1], false, inputs0, one)
    ensures one != [] ==> Drawn(levels[level], level == 0, inputs0 + one, more0)
    ensures Affordable(inputs0, one, more0, maxFileSize) ==> Drawn(levels[level + 1], false, more0, more1)
    ensures var taken := Affordable(inputs0, one, more0, maxFileSize) && |more1| == |one|;
            in0 == (if taken then more0 else inputs0) && in1 == (if taken then more1 else one)
  {
    VersionLevelsSorted(levels);
    in0, more0, more1 := inputs0, [], [];
    in1 := NextLevelInputs(levels[level + 1], false, in0);
    one := in1;
    if |in1| > 0 {
      in0, in1, more0, more1 := Expand(levels, level, inputs0, in1, maxFileSize);
    }
    PickedFromSeqs(levels, level, in0, in1);
  }

  /** What an overlap query for next-level inputs delivers. */
  ghost predicate Complete(files: seq<File>, in0: seq<File>, in1: seq<File>) {
    && (forall g :: g in in1 ==> g in files)
    && (forall g {:trigger MeetsHull(g, FileSet(in0))} :: g in files ==> (g in in1 <==> MeetsHull(g, FileSet(in0))))
  }

  method Expand(levels: seq<seq<File>>, level: nat, inputs0: seq<File>, one: seq<File>, maxFileSize: nat)
    returns (in0: seq<File>, in1: seq<File>, ghost more0: seq<File>, ghost more1: seq<File>)
    requires LevelsSorted(levels) && level + 1 < NUM_LEVELS && |one| > 0
    requires |inputs0| > 0 && (forall f :: f in inputs0 ==> f in levels[level])
             && Complete(levels[level + 1], inputs0, one)
    requires level == 0 ==> ZeroClosed(levels[0], inputs0)
    ensures |in0| > 0 && (forall f :: f in in0 ==> f in levels[level]) && Complete(levels[level + 1], in0, in1)
    ensures level == 0 ==> ZeroClosed(levels[0], in0)
    ensures forall f :: f in inputs0 ==> f in in0
    ensures Drawn(levels[level], level == 0, inputs0 + one, more0)
    ensures Affordable(inputs0, one, more0, maxFileSize) ==> Drawn(levels[level + 1], false, more0, more1)
    ensures var taken := Affordable(inputs0, one, more0, maxFileSize) && |more1| == |one|;
            in0 == (if taken then more0 else inputs0) && in1 == (if taken then more1 else one)
  {
    in0, in1, more1 := inputs0, one, [];
    var expanded0 := NextLevelInputs(levels[level], level == 0, inputs0 + one);
    more0 := expanded0;
    forall f | f in inputs0 ensures f in expanded0 {
      InOwnHull(inputs0 + one, f);
    }
    if Affordable(inputs0, one, expanded0, maxFileSize) {
      var expanded1 := NextLevelInputs(levels[level + 1], false, expanded0);
      more1 := expanded1;
      if |expanded1| == |one| {
        in0, in1 := expanded0, expanded1;
      }
    }
  }

  lemma InOwnHull(files: seq<File>, f: File)
    requires f in files && FileOk(f)
    ensures MeetsHull(f, FileSet(files))
  {
    FileCovers(f, f.entries[0]);
    assert f in FileSet(files);
  }

  /** More of this level could be taken at a reasonable size. */
  predicate Affordable(inputs0: seq<File>, one: seq<File>, more0: seq<File>, maxFileSize: nat) {
    one != [] && |more0| > |inputs0| && TotalFileSize(one) + TotalFileSize(more0) < 25 * maxFileSize
  }

  lemma PickedFromSeqs(levels: seq<seq<File>>, level: nat, in0: seq<File>, in1: seq<File>)
    requires |levels| == NUM_LEVELS && level + 1 < NUM_LEVELS
    requires |in0| > 0 && forall f :: f in in0 ==> f in levels[level]
    requires forall g :: g in in1 ==> g in levels[level + 1]
    requires forall g :: g in levels[level + 1] ==> (g in in1 <==> MeetsHull(g, FileSet(in0)))
    requires level == 0 ==> ZeroClosed(levels[0], in0)
    ensures Picked(LevelSets(levels), level, FileSet(in0), FileSet(in1))
  {
    assert in0[0] in FileSet(in0);
  }

  /** Why a compaction starts: a level is over its limit, or a file has used up
      its seeks. */
  datatype Trigger = BySize(pointer: Option<InternalKey>) | BySeeks(file: File)

  predicate PastPointer(f: File, pointer: Option<InternalKey>) {
    pointer.None? || Before(pointer.value, f.largest)
  }

  ghost predicate FirstPast(files: seq<File>, pointer: Option<InternalKey>, index: nat) {
    && index < |files|
    && (forall j :: 0 <= j < index ==> !PastPointer(files[j], pointer))
    && (PastPointer(files[index], pointer) || (index == 0 && forall f :: f in files ==> !PastPointer(f, pointer)))
  }

  /** The first file past the compaction pointer, wrapping around. */
  method FirstPastPointer(files: seq<File>, pointer: Option<InternalKey>) returns (index: nat)
    requires |files| > 0
    ensures FirstPast(files, pointer, index)
  {
    for i := 0 to |files|
      invariant forall j :: 0 <= j < i ==> !PastPointer(files[j], pointer)
    {
      if pointer.None? || Before(pointer.value, files[i].largest) {
        return i;
      }
    }
    return 0;
  }

  /** Level-0 files may overlap each other: take all that the picked one drags in. */
  method ExpandLevelZero(files: seq<File>, f: File) returns (inputs: seq<File>)
    requires f in files && forall g :: g in files ==> FileOk(g)
    ensures f in inputs && ZeroClosed(files, inputs)
    ensures forall g :: g in inputs ==> g in files
  {
    inputs := NextLevelInputs(files, true, [f]);
    InOwnHull([f], f);
  }

  /** VersionSet::PickCompaction, after the level has been chosen. */
  method PickCompaction(levels: seq<seq<File>>, level: nat, trigger: Trigger, maxFileSize: nat)
    returns (in0: seq<File>, in1: seq<File>)
    requires VersionOk(levels) && level + 1 < NUM_LEVELS && |levels[level]| > 0
    requires trigger.BySeeks? ==> trigger.file in levels[level]
    ensures Picked(LevelSets(levels), level, FileSet(in0), FileSet(in1))
    ensures trigger.BySeeks? ==> trigger.file in in0
    ensures trigger.BySize? ==> exists i: nat :: FirstPast(levels[level], trigger.pointer, i) && levels[level][i] in in0
  {
    VersionLevelsSorted(levels);
    var first: File;
    match trigger {
      case BySize(pointer) =>
        var index := FirstPastPointer(levels[level], pointer);
        first := levels[level][index];
      case BySeeks(file) => first := file;
    }
    var inputs := [first];
    if level == 0 {
      inputs := ExpandLevelZero(levels[0], first);
    }
    ghost var one, more0, more1;
    in0, in1, one, more0, more1 := SetupOtherInputs(levels, level, inputs, maxFileSize);
  }

  /** The shortest front of the list with that many bytes, or all of it. */
  ghost predicate Enough(files: seq<File>, n: nat, bytes: nat) {
    && n <= |files| && (n < |files| ==> n > 0 && TotalFileSize(files[..n]) >= bytes)
    && (forall m :: 0 < m < n ==> TotalFileSize(files[..m]) < bytes)
  }

  lemma {:induction false} TotalNext(files: seq<File>, i: nat)
    requires i < |files|
    ensures TotalFileSize(files[..i + 1]) == TotalFileSize(files[..i]) + files[i].size
  {
    if i > 0 {
      assert files[..i + 1][1..] == files[1..][..i] && files[..i][1..] == files[1..][..i - 1];
      TotalNext(files[1..], i - 1);
    } else {
      assert files[..1][1..] == [];
    }
  }

  /** VersionSet::CompactRange: a manual compaction; above level 0 the list is
      cut once it holds enough bytes. */
  method CompactRange(levels: seq<seq<File>>, level: nat, request: Range, maxFileSize: nat)
    returns (some: bool, in0: seq<File>, in1: seq<File>, ghost n: nat)
    requires VersionOk(levels) && level + 1 < NUM_LEVELS
    ensures some ==> Picked(LevelSets(levels), level, FileSet(in0), FileSet(in1))
    ensures some <==> exists f :: f in levels[level] && Overlaps(f, request)
    ensures some && level == 0 ==> forall f :: f in levels[0] && Overlaps(f, request) ==> f in in0
    ensures some && level > 0 ==>
              var all := Select(levels[level], request);
              Enough(all, n, maxFileSize) && n > 0 && forall f :: f in all[..n] ==> f in in0
  {
    VersionLevelsSorted(levels);
    var inputs, final := GetOverlappingInputs(levels[level], level == 0, request);
    if |inputs| == 0 {
      forall f | f in levels[level] ensures !Overlaps(f, request) {
        assert f !in Select(levels[level], final);
      }
      return false, [], [], 0;
    }
    some, n := true, 0;
    if level > 0 {
      assert inputs[0] in levels[level];
      var i := Limit(inputs, maxFileSize);
      n := i;
      inputs := inputs[..i];
    } else {
      ClosedRangeZeroClosed(levels[0], final);
      LeastNonEmpty(levels[0], request, final);
    }
    ghost var one, more0, more1;
    in0, in1, one, more0, more1 := SetupOtherInputs(levels, level, inputs, maxFileSize);
  }

  method Limit(inputs: seq<File>, bytes: nat) returns (i: nat)
    requires |inputs| > 0
    ensures 0 < i && Enough(inputs, i, bytes)
  {
    var total := 0;
    i := 0;
    assert inputs[..0] == [];
    while i < |inputs|
      invariant i <= |inputs| && total == TotalFileSize(inputs[..i])
      invariant forall m :: 0 < m <= i ==> TotalFileSize(inputs[..m]) < bytes
    {
      TotalNext(inputs, i);
      total := total + inputs[i].size;
      i := i + 1;
      if total >= bytes {
        break;
      }
    }
  }

  /** A closed range that grew from a request nothing overlaps has not grown. */
  lemma LeastNonEmpty(files: seq<File>, request: Range, final: Range)
    requires EndsWith(files, true, request, final) && Select(files, final) != []
    ensures exists f :: f in files && Overlaps(f, request)
  {
    if forall f :: f in files ==> !Overlaps(f, request) {
      assert ClosedRange(files, request) && Includes(request, request);
      assert Includes(request, final);
      var f := Select(files, final)[0];
      assert f in files && Overlaps(f, final);
    }
  }
}
