/** Where the code and the layout invariant part ways, and where the code's
    outputs meet the state machine's steps.

    Nothing in the input selection stops a compaction from taking the file with
    the newer versions of a user key and leaving the neighbouring file with the
    older ones, at its own level or at the next.  This module says exactly which
    readers notice. */
module Boundary {
  import opened Keys
  import opened Mvcc
  import opened Levels
  import opened Inputs
  import opened Compactions
  import opened Install

  /** What going down the levels one by one finds, from level l on. */
  ghost function LevelByLevel(L: seq<set<File>>, l: nat, k: UserKey, s: nat): Option<Entry>
    requires l <= |L|
    decreases |L| - l
  {
    if l == |L| then None
    else if HasCandidate(EntriesIn(L[l]), k, s) then Visible(EntriesIn(L[l]), k, s)
    else LevelByLevel(L, l + 1, k, s)
  }

  lemma {:induction false} SkipSilentLevels(L: seq<set<File>>, from: nat, to: nat, k: UserKey, s: nat)
    requires from <= to <= |L|
    requires forall l :: from <= l < to ==> !HasCandidate(EntriesIn(L[l]), k, s)
    ensures LevelByLevel(L, from, k, s) == LevelByLevel(L, to, k, s)
    decreases |L| - from
  {
    if from < to {
      SkipSilentLevels(L, from + 1, to, k, s);
    }
  }

  /** With the layout invariant, level by level is the same as all at once. */
  lemma LayeredReadIsRead(L: seq<set<File>>, k: UserKey, s: nat)
    requires Layout(L)
    ensures LevelByLevel(L, 0, k, s) == Visible(All(L), k, s)
  {
    VisibleNone(All(L), k, s);
    if HasCandidate(All(L), k, s) {
      var e := Visible(All(L), k, s).value;
      assert IsVisible(All(L), k, s, e);
      var l: int, f: File :| 0 <= l < |L| && f in L[l] && e in f.entries;
      assert e in EntriesIn(L[l]);
      ShallowerSilent(L, l, k, s, e);
      SkipSilentLevels(L, 0, l, k, s);
      assert EntriesIn(L[l]) <= All(L);
      assert IsVisible(EntriesIn(L[l]), k, s, e);
      VisibleIs(EntriesIn(L[l]), k, s, e);
    } else {
      forall l | 0 <= l < |L| ensures !HasCandidate(EntriesIn(L[l]), k, s) {
        assert EntriesIn(L[l]) <= All(L);
      }
      SkipSilentLevels(L, 0, |L|, k, s);
    }
  }

  lemma ShallowerSilent(L: seq<set<File>>, l: nat, k: UserKey, s: nat, e: Entry)
    requires LevelsOrdered(L) && l < |L| && e in EntriesIn(L[l]) && IsVisible(All(L), k, s, e)
    ensures forall i :: 0 <= i < l ==> !HasCandidate(EntriesIn(L[i]), k, s)
  {
    forall i | 0 <= i < l ensures !HasCandidate(EntriesIn(L[i]), k, s) {
      assert Newer(EntriesIn(L[i]), EntriesIn(L[l]));
      assert EntriesIn(L[i]) <= All(L);
    }
  }

  // ---- Exactly which reads survive ----

  /** A compaction of picked inputs, closed on user keys or not. */
  ghost predicate Work(L: seq<set<File>>, level: nat, in0: set<File>, in1: set<File>, outs: set<File>, smallest: nat) {
    && Layout(L) && level + 1 < NUM_LEVELS && Picked(L, level, in0, in1)
    && EntriesIn(outs) == Survivors(EntriesIn(in0 + in1), L, level, smallest)
  }

  /** What the files of a level that are not taken answer. */
  ghost function LeftAnswer(files: set<File>, taken: set<File>, k: UserKey, s: nat): Answer {
    Read(EntriesIn(files - taken), k, s)
  }

  /** v is the version the reader saw.  Moved down, it must not uncover another
      answer at its old level; dropped as obsolete, none at the next level. */
  ghost predicate StaysCovered(L: seq<set<File>>, level: nat, in0: set<File>, in1: set<File>, smallest: nat, k: UserKey,
        s: nat, v: Entry)
    requires level + 1 < |L|
  {
    && (v in EntriesIn(in0) && HasCandidate(EntriesIn(L[level] - in0), k, s) ==>
          LeftAnswer(L[level], in0, k, s) == AnswerOf(Some(v)))
    && (v in EntriesIn(in1) && Obsolete(L, level, smallest, v) ==>
          LeftAnswer(L[level + 1], in1, k, s) == NotFound)
  }

  lemma SubsetFiles(fs: set<File>, gs: set<File>, k: UserKey, s: nat)
    requires fs <= gs && !HasCandidate(EntriesIn(gs), k, s)
    ensures !HasCandidate(EntriesIn(fs), k, s)
  {
    assert EntriesIn(fs) <= EntriesIn(gs);
  }

  /** Levels the compaction does not touch. */
  lemma Untouched(L: seq<set<File>>, level: nat, in0: set<File>, in1: set<File>, outs: set<File>, l: nat)
    requires level + 1 < |L| && l < |L| && l != level && l != level + 1
    ensures Installed(L, level, in0, in1, outs)[l] == L[l]
  {}

  lemma UnionEntries(fs: set<File>, gs: set<File>)
    ensures EntriesIn(fs + gs) == EntriesIn(fs) + EntriesIn(gs)
  {}

  /** Nothing at a level where the version is found can be newer than it. */
  lemma FoundAt(L: seq<set<File>>, L': seq<set<File>>, l: nat, k: UserKey, s: nat, v: Entry)
    requires |L'| == |L| && l < |L| && DistinctSeqs(All(L)) && IsVisible(All(L), k, s, v)
    requires (forall i :: 0 <= i < l ==> !HasCandidate(EntriesIn(L'[i]), k, s))
    requires v in EntriesIn(L'[l]) && EntriesIn(L'[l]) <= All(L)
    ensures LevelByLevel(L', 0, k, s) == Some(v)
  {
    SkipSilentLevels(L', 0, l, k, s);
    assert IsVisible(EntriesIn(L'[l]), k, s, v);
    VisibleIs(EntriesIn(L'[l]), k, s, v);
  }

  /** A version that is not dropped is among the outputs. */
  lemma NotObsoleteSurvives(L: seq<set<File>>, level: nat, in0: set<File>, in1: set<File>, outs: set<File>,
        smallest: nat, k: UserKey, s: nat, v: Entry)
    requires Work(L, level, in0, in1, outs, smallest) && s >= smallest && IsVisible(All(L), k, s, v)
    requires v in EntriesIn(in0 + in1) && !Obsolete(L, level, smallest, v)
    ensures v in EntriesIn(outs)
  {
    InstalledEntries(L, level, in0, in1, outs);
    assert All(L) == All(L) + EntriesIn(in0 + in1);
    NewestNotHidden(All(L), EntriesIn(in0 + in1), smallest, k, s, v);
  }

  /** Dropping an obsolete version takes every older version of the inputs with it. */
  lemma ObsoleteLeavesNoOutput(L: seq<set<File>>, level: nat, in0: set<File>, in1: set<File>, outs: set<File>,
        smallest: nat, k: UserKey, s: nat, v: Entry)
    requires Work(L, level, in0, in1, outs, smallest) && s >= smallest && IsVisible(All(L), k, s, v)
    requires v in EntriesIn(in0 + in1) && Obsolete(L, level, smallest, v)
    ensures !HasCandidate(EntriesIn(outs), k, s)
  {
    InstalledEntries(L, level, in0, in1, outs);
    var S := EntriesIn(in0 + in1);
    forall d | d in S && Candidate(d, k, s) ensures Dropped(S, L, level, smallest, d) {
      assert d in All(L) && d.sn <= v.sn;
      assert d.sn == v.sn ==> d == v;
      assert d.sn < v.sn ==> Hidden(S, smallest, d);
    }
  }

  /** Below the next level there is nothing for an obsolete marker's key. */
  lemma BaseSilent(L: seq<set<File>>, level: nat, smallest: nat, k: UserKey, s: nat, v: Entry, l: nat)
    requires FilesOk(L) && Obsolete(L, level, smallest, v) && v.user == k && level + 2 <= l < |L|
    ensures !HasCandidate(EntriesIn(L[l]), k, s)
  {
    forall f, d | f in L[l] && d in f.entries ensures d.user != k {
      FileCovers(f, d);
    }
  }

  /** Next-level files left behind do not cover a key of the first inputs. */
  lemma LeftNextSilent(L: seq<set<File>>, level: nat, in0: set<File>, in1: set<File>, k: UserKey, s: nat, v: Entry)
    requires Layout(L) && level + 1 < NUM_LEVELS && Picked(L, level, in0, in1) && v in EntriesIn(in0) && v.user == k
    ensures !HasCandidate(EntriesIn(L[level + 1] - in1), k, s)
  {
    var f :| f in in0 && v in f.entries;
    FileCovers(f, v);
    forall g, d | g in L[level + 1] - in1 && d in g.entries ensures d.user != k {
      FileCovers(g, d);
      assert !MeetsHull(g, in0);
    }
  }

  lemma WorkEntries(L: seq<set<File>>, level: nat, in0: set<File>, in1: set<File>, outs: set<File>, smallest: nat,
        l: nat)
    requires Work(L, level, in0, in1, outs, smallest) && l < NUM_LEVELS
    ensures EntriesIn(Installed(L, level, in0, in1, outs)[l]) <= All(L)
  {
    InstalledEntries(L, level, in0, in1, outs);
    var L' := Installed(L, level, in0, in1, outs);
    assert EntriesIn(L'[l]) <= All(L');
  }

  /** A surviving version is found at the next level once everything above is
      silent. */
  lemma SurvivorFound(L: seq<set<File>>, level: nat, in0: set<File>, in1: set<File>, outs: set<File>, smallest: nat,
        k: UserKey, s: nat, v: Entry)
    requires Work(L, level, in0, in1, outs, smallest) && s >= smallest && IsVisible(All(L), k, s, v)
    requires v in EntriesIn(in0 + in1) && !Obsolete(L, level, smallest, v)
    requires forall l :: 0 <= l <= level ==> !HasCandidate(EntriesIn(Installed(L, level, in0, in1, outs)[l]), k, s)
    ensures LevelByLevel(Installed(L, level, in0, in1, outs), 0, k, s) == Some(v)
  {
    NotObsoleteSurvives(L, level, in0, in1, outs, smallest, k, s, v);
    UnionEntries(L[level + 1] - in1, outs);
    WorkEntries(L, level, in0, in1, outs, smallest, level + 1);
    FoundAt(L, Installed(L, level, in0, in1, outs), level + 1, k, s, v);
  }

  /** With an obsolete version gone the reader finds what the next level's files
      left behind answer. */
  lemma DroppedUncovers(L: seq<set<File>>, level: nat, in0: set<File>, in1: set<File>, outs: set<File>, smallest: nat,
        k: UserKey, s: nat, v: Entry)
    requires Work(L, level, in0, in1, outs, smallest) && s >= smallest && IsVisible(All(L), k, s, v)
    requires v in EntriesIn(in0 + in1) && Obsolete(L, level, smallest, v)
    requires forall l :: 0 <= l <= level ==> !HasCandidate(EntriesIn(Installed(L, level, in0, in1, outs)[l]), k, s)
    ensures AnswerOf(LevelByLevel(Installed(L, level, in0, in1, outs), 0, k, s)) == LeftAnswer(L[level + 1], in1, k, s)
  {
    ObsoleteLeavesNoOutput(L, level, in0, in1, outs, smallest, k, s, v);
    WorkEntries(L, level, in0, in1, outs, smallest, level + 1);
    NextLevelDecides(L, Installed(L, level, in0, in1, outs), level, L[level + 1] - in1, outs, smallest, k, s, v);
  }

  lemma NextLevelDecides(L: seq<set<File>>, L': seq<set<File>>, level: nat, left: set<File>, outs: set<File>,
        smallest: nat, k: UserKey, s: nat, v: Entry)
    requires FilesOk(L) && DistinctSeqs(All(L)) && |L'| == |L| && level + 1 < |L| && Obsolete(L, level, smallest, v)
             && v.user == k
    requires L'[level + 1] == left + outs && EntriesIn(L'[level + 1]) <= All(L) && !HasCandidate(EntriesIn(outs), k, s)
    requires forall l :: level + 2 <= l < |L| ==> L'[l] == L[l]
    requires forall l :: 0 <= l <= level ==> !HasCandidate(EntriesIn(L'[l]), k, s)
    ensures AnswerOf(LevelByLevel(L', 0, k, s)) == Read(EntriesIn(left), k, s)
  {
    UnionEntries(left, outs);
    VisibleNone(EntriesIn(left), k, s);
    if HasCandidate(EntriesIn(left), k, s) {
      SkipSilentLevels(L', 0, level + 1, k, s);
      SameVisible(EntriesIn(left), EntriesIn(L'[level + 1]), k, s);
    } else {
      AllSilentFrom(L, L', level, smallest, k, s, v);
    }
  }

  /** Levels above the version's own stay silent. */
  lemma SilentAbove(L: seq<set<File>>, level: nat, in0: set<File>, in1: set<File>, outs: set<File>, k: UserKey, s: nat,
        v: Entry, l: nat)
    requires Layout(L) && level + 1 < NUM_LEVELS && l <= level + 1 && v in EntriesIn(L[l]) && IsVisible(All(L), k, s, v)
    ensures forall i :: 0 <= i < l ==> !HasCandidate(EntriesIn(Installed(L, level, in0, in1, outs)[i]), k, s)
  {
    ShallowerSilent(L, l, k, s, v);
    forall i | 0 <= i < l ensures !HasCandidate(EntriesIn(Installed(L, level, in0, in1, outs)[i]), k, s) {
      SubsetFiles(Installed(L, level, in0, in1, outs)[i], L[i], k, s);
    }
  }

  /** The version sat in the inputs of the compacted level. */
  lemma FirstInputIff(L: seq<set<File>>, level: nat, in0: set<File>, in1: set<File>, outs: set<File>, smallest: nat,
        k: UserKey, s: nat, v: Entry)
    requires Work(L, level, in0, in1, outs, smallest) && s >= smallest && IsVisible(All(L), k, s, v)
             && v in EntriesIn(in0)
    ensures AnswerOf(LevelByLevel(Installed(L, level, in0, in1, outs), 0, k, s)) == AnswerOf(Some(v)) <==>
            (HasCandidate(EntriesIn(L[level] - in0), k, s) ==> LeftAnswer(L[level], in0, k, s) == AnswerOf(Some(v)))
  {
    var L' := Installed(L, level, in0, in1, outs);
    assert v in EntriesIn(L[level]);
    SilentAbove(L, level, in0, in1, outs, k, s, v, level);
    SkipSilentLevels(L', 0, level, k, s);
    assert L'[level] == L[level] - in0;
    if !HasCandidate(EntriesIn(L[level] - in0), k, s) {
      UnionEntries(in0, in1);
      if Obsolete(L, level, smallest, v) {
        DroppedUncovers(L, level, in0, in1, outs, smallest, k, s, v);
        LeftNextSilent(L, level, in0, in1, k, s, v);
        VisibleNone(EntriesIn(L[level + 1] - in1), k, s);
      } else {
        SurvivorFound(L, level, in0, in1, outs, smallest, k, s, v);
      }
    }
  }

  /** When the next level too has nothing, nothing is found. */
  lemma AllSilentFrom(L: seq<set<File>>, L': seq<set<File>>, level: nat, smallest: nat, k: UserKey, s: nat, v: Entry)
    requires FilesOk(L) && |L'| == |L| && level + 1 < |L| && Obsolete(L, level, smallest, v) && v.user == k
    requires forall l :: level + 2 <= l < |L| ==> L'[l] == L[l]
    requires forall l :: 0 <= l <= level + 1 ==> !HasCandidate(EntriesIn(L'[l]), k, s)
    ensures LevelByLevel(L', 0, k, s) == None
  {
    forall l | level + 2 <= l < |L'| ensures !HasCandidate(EntriesIn(L'[l]), k, s) {
      BaseSilent(L, level, smallest, k, s, v, l);
    }
    SkipSilentLevels(L', 0, |L'|, k, s);
  }

  /** The version sat in the inputs of the next level. */
  lemma SecondInputIff(L: seq<set<File>>, level: nat, in0: set<File>, in1: set<File>, outs: set<File>, smallest: nat,
        k: UserKey, s: nat, v: Entry)
    requires Work(L, level, in0, in1, outs, smallest) && s >= smallest && IsVisible(All(L), k, s, v)
             && v in EntriesIn(in1)
    ensures AnswerOf(LevelByLevel(Installed(L, level, in0, in1, outs), 0, k, s)) == AnswerOf(Some(v)) <==>
            (Obsolete(L, level, smallest, v) ==> LeftAnswer(L[level + 1], in1, k, s) == NotFound)
  {
    if Obsolete(L, level, smallest, v) {
      SecondInputDropped(L, level, in0, in1, outs, smallest, k, s, v);
    } else {
      assert v in EntriesIn(L[level + 1]);
      SilentAbove(L, level, in0, in1, outs, k, s, v, level + 1);
      UnionEntries(in0, in1);
      SurvivorFound(L, level, in0, in1, outs, smallest, k, s, v);
    }
  }

  lemma SecondInputDropped(L: seq<set<File>>, level: nat, in0: set<File>, in1: set<File>, outs: set<File>,
        smallest: nat, k: UserKey, s: nat, v: Entry)
    requires Work(L, level, in0, in1, outs, smallest) && s >= smallest && IsVisible(All(L), k, s, v)
             && v in EntriesIn(in1)
    requires Obsolete(L, level, smallest, v)
    ensures AnswerOf(LevelByLevel(Installed(L, level, in0, in1, outs), 0, k, s)) == LeftAnswer(L[level + 1], in1, k, s)
  {
    assert v in EntriesIn(L[level + 1]);
    SilentAbove(L, level, in0, in1, outs, k, s, v, level + 1);
    UnionEntries(in0, in1);
    DroppedUncovers(L, level, in0, in1, outs, smallest, k, s, v);
  }

  lemma SameVisible(A: set<Entry>, B: set<Entry>, k: UserKey, s: nat)
    requires A <= B && DistinctSeqs(B) && HasCandidate(A, k, s) && forall e :: e in B && Candidate(e, k, s) ==> e in A
    ensures Visible(B, k, s) == Visible(A, k, s)
  {
    VisibleExists(A, k, s);
    var e := Visible(A, k, s).value;
    assert IsVisible(A, k, s, e) && IsVisible(B, k, s, e);
    VisibleIs(B, k, s, e);
  }

  /** The version sat in a file the compaction leaves alone. */
  lemma LeftAloneFound(L: seq<set<File>>, level: nat, in0: set<File>, in1: set<File>, outs: set<File>, smallest: nat,
        k: UserKey, s: nat, v: Entry, l: nat)
    requires Work(L, level, in0, in1, outs, smallest) && s >= smallest && IsVisible(All(L), k, s, v)
    requires l < NUM_LEVELS && v in EntriesIn(Without(L, level, in0, in1)[l])
    ensures LevelByLevel(Installed(L, level, in0, in1, outs), 0, k, s) == Some(v)
  {
    var L', L0 := Installed(L, level, in0, in1, outs), Without(L, level, in0, in1);
    assert EntriesIn(L0[l]) <= EntriesIn(L[l]);
    ShallowerSilent(L, l, k, s, v);
    WorkEntries(L, level, in0, in1, outs, smallest, l);
    assert EntriesIn(L0[l]) <= EntriesIn(L'[l]);
    forall i | 0 <= i < l ensures !HasCandidate(EntriesIn(L'[i]), k, s) {
      if i == level + 1 {
        assert EntriesIn(in0) <= EntriesIn(L[level]) && EntriesIn(in1) <= EntriesIn(L[i]);
        UnionEntries(in0, in1);
        UnionEntries(L[i] - in1, outs);
        SubsetFiles(L[i] - in1, L[i], k, s);
      } else {
        SubsetFiles(L'[i], L[i], k, s);
      }
    }
    FoundAt(L, L', l, k, s, v);
  }

  /** What every reader finds after a compaction of picked inputs, closed on user
      keys or not: the answer it had, if and only if the version it saw stays
      covered. */
  lemma CompactionKeepsReadIff(L: seq<set<File>>, level: nat, in0: set<File>, in1: set<File>, outs: set<File>,
        smallest: nat, k: UserKey, s: nat)
    requires Work(L, level, in0, in1, outs, smallest) && s >= smallest
    ensures AnswerOf(LevelByLevel(Installed(L, level, in0, in1, outs), 0, k, s)) == Read(All(L), k, s) <==>
            forall v :: IsVisible(All(L), k, s, v) ==> StaysCovered(L, level, in0, in1, smallest, k, s, v)
  {
    var L' := Installed(L, level, in0, in1, outs);
    VisibleNone(All(L), k, s);
    if HasCandidate(All(L), k, s) {
      var v := Visible(All(L), k, s).value;
      assert IsVisible(All(L), k, s, v);
      forall w | IsVisible(All(L), k, s, w) ensures w == v {
        VisibleIs(All(L), k, s, w);
      }
      SeenVersionIff(L, level, in0, in1, outs, smallest, k, s, v);
    } else {
      forall l | 0 <= l < |L'| ensures !HasCandidate(EntriesIn(L'[l]), k, s) {
        WorkEntries(L, level, in0, in1, outs, smallest, l);
      }
      SkipSilentLevels(L', 0, |L'|, k, s);
    }
  }

  lemma SeenVersionIff(L: seq<set<File>>, level: nat, in0: set<File>, in1: set<File>, outs: set<File>, smallest: nat,
        k: UserKey, s: nat, v: Entry)
    requires Work(L, level, in0, in1, outs, smallest) && s >= smallest && IsVisible(All(L), k, s, v)
    ensures AnswerOf(LevelByLevel(Installed(L, level, in0, in1, outs), 0, k, s)) == AnswerOf(Some(v)) <==>
            StaysCovered(L, level, in0, in1, smallest, k, s, v)
  {
    InstalledEntries(L, level, in0, in1, outs);
    UnionEntries(in0, in1);
    if v in EntriesIn(in0) {
      InOneLevel(L, level, in0, in1, v);
      FirstInputIff(L, level, in0, in1, outs, smallest, k, s, v);
    } else if v in EntriesIn(in1) {
      SecondInputIff(L, level, in0, in1, outs, smallest, k, s, v);
    } else {
      var L0 := Without(L, level, in0, in1);
      assert v in All(L0);
      var l: int, f: File :| 0 <= l < |L0| && f in L0[l] && v in f.entries;
      assert v in EntriesIn(L0[l]);
      LeftAloneFound(L, level, in0, in1, outs, smallest, k, s, v, l);
    }
  }

  lemma InOneLevel(L: seq<set<File>>, level: nat, in0: set<File>, in1: set<File>, v: Entry)
    requires Layout(L) && level + 1 < NUM_LEVELS && in0 <= L[level] && in1 <= L[level + 1] && v in EntriesIn(in0)
    ensures v !in EntriesIn(in1)
  {
    assert v in EntriesIn(L[level]);
    assert Newer(EntriesIn(L[level]), EntriesIn(L[level + 1]));
    assert EntriesIn(in1) <= EntriesIn(L[level + 1]);
  }

  /** Inputs closed at both levels keep every version covered. */
  lemma ClosedStaysCovered(L: seq<set<File>>, level: nat, in0: set<File>, in1: set<File>, smallest: nat, k: UserKey,
        s: nat, v: Entry)
    requires Layout(L) && level + 1 < NUM_LEVELS && Picked(L, level, in0, in1) && IsVisible(All(L), k, s, v)
    requires KeyClosed(L[level], in0) && KeyClosed(L[level + 1], in1)
    ensures StaysCovered(L, level, in0, in1, smallest, k, s, v)
  {
    ClosedSilent(L[level], in0, k, s, v);
    ClosedSilent(L[level + 1], in1, k, s, v);
    VisibleNone(EntriesIn(L[level + 1] - in1), k, s);
  }

  lemma ClosedSilent(files: set<File>, taken: set<File>, k: UserKey, s: nat, v: Entry)
    requires KeyClosed(files, taken) && v.user == k
    ensures v in EntriesIn(taken) ==> !HasCandidate(EntriesIn(files - taken), k, s)
  {
    if v in EntriesIn(taken) {
      var f :| f in taken && v in f.entries;
      forall g, d | g in files - taken && d in g.entries ensures d.user != k {
        assert NoSharedKey(f, g);
      }
    }
  }

  // ---- A concrete loss ----

  const NEW := Entry(1.0, 2, Put, [2])
  const OLD := Entry(1.0, 1, Put, [1])
  const NEW_FILE := File(1, 1, KeyOf(NEW), KeyOf(NEW), [NEW])
  const OLD_FILE := File(2, 1, KeyOf(OLD), KeyOf(OLD), [OLD])

  /** One key, its versions 2 and 1 in adjacent files of level 1. */
  ghost function Split(): seq<set<File>> {
    [{}, {NEW_FILE, OLD_FILE}, {}, {}, {}, {}, {}]
  }

  lemma SplitEntries()
    ensures EntriesIn(Split()[1]) == {NEW, OLD} == All(Split())
    ensures forall l :: 0 <= l < 7 && l != 1 ==> EntriesIn(Split()[l]) == {}
    ensures EntriesIn({NEW_FILE}) == {NEW} && EntriesIn({OLD_FILE}) == {OLD}
  {
    var L := Split();
    assert NEW in NEW_FILE.entries && OLD in OLD_FILE.entries;
    assert NEW_FILE in L[1] && OLD_FILE in L[1];
  }

  lemma SplitFiles()
    ensures FilesOk(Split()) && NumberedByAge(Split()[0]) && LevelsDisjoint(Split())
  {
    assert DisjointFiles({NEW_FILE, OLD_FILE});
  }

  lemma SplitLayout()
    ensures Layout(Split())
  {
    SplitFiles();
    SplitEntries();
    var L := Split();
    forall i, j | 0 <= i < j < |L| ensures Newer(EntriesIn(L[i]), EntriesIn(L[j])) {
      assert i == 1 || EntriesIn(L[i]) == {};
      assert j == 1 || EntriesIn(L[j]) == {};
    }
    assert DistinctSeqs({NEW, OLD});
  }

  lemma SplitPicked()
    ensures Picked(Split(), 1, {NEW_FILE}, {}) && !KeyClosed(Split()[1], {NEW_FILE})
    ensures EntriesIn({NEW_FILE}) == Survivors(EntriesIn({NEW_FILE} + {}), Split(), 1, 2)
  {
    SplitEntries();
    assert NEW in NEW_FILE.entries && OLD in OLD_FILE.entries;
    assert !NoSharedKey(NEW_FILE, OLD_FILE);
    assert {NEW_FILE} + {} == {NEW_FILE};
    assert !Hidden({NEW}, 2, NEW);
  }

  lemma FoundAtLevelOne(L: seq<set<File>>, S: set<Entry>, k: UserKey, s: nat, e: Entry)
    requires |L| > 1 && EntriesIn(L[0]) == {} && EntriesIn(L[1]) == S
    requires DistinctSeqs(S) && IsVisible(S, k, s, e)
    ensures LevelByLevel(L, 0, k, s) == Some(e)
  {
    SkipSilentLevels(L, 0, 1, k, s);
    VisibleIs(S, k, s, e);
  }

  lemma ReadBeforeMove()
    ensures LevelByLevel(Split(), 0, 1.0, 2) == Some(NEW)
  {
    SplitEntries();
    assert IsVisible({NEW, OLD}, 1.0, 2, NEW);
    FoundAtLevelOne(Split(), {NEW, OLD}, 1.0, 2, NEW);
  }

  lemma ReadAfterMove()
    ensures LevelByLevel(Installed(Split(), 1, {NEW_FILE}, {}, {NEW_FILE}), 0, 1.0, 2) == Some(OLD)
  {
    SplitEntries();
    assert IsVisible({OLD}, 1.0, 2, OLD);
    var L' := Installed(Split(), 1, {NEW_FILE}, {}, {NEW_FILE});
    assert L'[0] == {} && L'[1] == {OLD_FILE};
    FoundAtLevelOne(L', {OLD}, 1.0, 2, OLD);
  }

  /** Version 2 of the key moves down past version 1 of it, and a reader at 2
      that saw [2] now finds [1]. */
  lemma UnclosedCompactionLosesWrite()
    ensures Layout(Split()) && Picked(Split(), 1, {NEW_FILE}, {}) && !KeyClosed(Split()[1], {NEW_FILE})
    ensures LevelByLevel(Split(), 0, 1.0, 2) == Some(NEW)
    ensures LevelByLevel(Installed(Split(), 1, {NEW_FILE}, {}, {NEW_FILE}), 0, 1.0, 2) == Some(OLD)
  {
    SplitLayout();
    SplitPicked();
    ReadBeforeMove();
    ReadAfterMove();
  }

  // ---- A deleted key that comes back ----

  /** One file at level 1 and two adjacent ones at level 2. */
  ghost predicate TwoLevels(L: seq<set<File>>, a: File, f: File, g: File) {
    && |L| == NUM_LEVELS && L[1] == {a} && L[2] == {f, g} && (forall l :: 0 <= l < |L| && l != 1 && l != 2 ==>
       L[l] == {})
    && FileOk(a) && FileOk(f) && FileOk(g) && Before(f.largest, g.smallest)
  }

  lemma TwoLevelsEntries(L: seq<set<File>>, a: File, f: File, g: File)
    requires TwoLevels(L, a, f, g)
    ensures EntriesIn(L[1]) == Contents(a) && EntriesIn(L[2]) == Contents(f) + Contents(g)
    ensures All(L) == Contents(a) + Contents(f) + Contents(g)
    ensures forall l :: 0 <= l < |L| && l != 1 && l != 2 ==> EntriesIn(L[l]) == {}
  {
    assert f in L[2] && g in L[2] && a in L[1];
  }

  lemma TwoLevelsFiles(L: seq<set<File>>, a: File, f: File, g: File)
    requires TwoLevels(L, a, f, g)
    ensures FilesOk(L) && NumberedByAge(L[0]) && LevelsDisjoint(L)
  {
    assert DisjointFiles({f, g}) && DisjointFiles({a}) && L[0] == {};
    forall l | 1 <= l < |L| ensures DisjointFiles(L[l]) {
      assert l == 1 || l == 2 || L[l] == {};
    }
  }

  lemma TwoLevelsOrdered(L: seq<set<File>>, A: set<Entry>, B: set<Entry>)
    requires |L| == NUM_LEVELS && EntriesIn(L[1]) == A && EntriesIn(L[2]) == B && Newer(A, B)
    requires forall l :: 0 <= l < |L| && l != 1 && l != 2 ==> EntriesIn(L[l]) == {}
    ensures LevelsOrdered(L)
  {
    forall i, j | 0 <= i < j < |L| ensures Newer(EntriesIn(L[i]), EntriesIn(L[j])) {
      assert (i == 1 && j == 2) || EntriesIn(L[i]) == {} || EntriesIn(L[j]) == {};
    }
  }

  /** Level 1 holds one bystander; at level 2 a marker for key k ends one file and
      the version it hides starts the next. */
  ghost predicate Hiding(L: seq<set<File>>, a: File, f: File, g: File, bystander: Entry, neighbour: Entry,
        marker: Entry, hidden: Entry)
  {
    && TwoLevels(L, a, f, g)
    && Contents(a) == {bystander} && Contents(f) == {neighbour, marker} && Contents(g) == {hidden}
    && neighbour.user < bystander.user < marker.user == hidden.user
    && bystander.sn > neighbour.sn > marker.sn > hidden.sn
    && bystander.kind.Put? && neighbour.kind.Put? && marker.kind.Deletion? && hidden.kind.Put?
    && f.smallest.user <= bystander.user && a.smallest.user == a.largest.user == bystander.user
       && g.smallest.user == hidden.user
  }

  lemma FourVersions(bystander: Entry, neighbour: Entry, marker: Entry, hidden: Entry)
    requires bystander.sn > neighbour.sn > marker.sn > hidden.sn
    ensures DistinctSeqs({bystander, neighbour, marker, hidden}) && Newer({bystander}, {neighbour, marker, hidden})
  {}

  lemma HidingEntries(L: seq<set<File>>, a: File, f: File, g: File, bystander: Entry, neighbour: Entry, marker: Entry,
        hidden: Entry)
    requires Hiding(L, a, f, g, bystander, neighbour, marker, hidden)
    ensures EntriesIn(L[1]) == {bystander} && EntriesIn(L[2]) == {neighbour, marker, hidden}
    ensures All(L) == {bystander, neighbour, marker, hidden}
    ensures forall l :: 0 <= l < |L| && l != 1 && l != 2 ==> EntriesIn(L[l]) == {}
  {
    TwoLevelsEntries(L, a, f, g);
  }

  lemma HidingLayout(L: seq<set<File>>, a: File, f: File, g: File, bystander: Entry, neighbour: Entry, marker: Entry,
        hidden: Entry)
    requires Hiding(L, a, f, g, bystander, neighbour, marker, hidden)
    ensures Layout(L)
  {
    HidingEntries(L, a, f, g, bystander, neighbour, marker, hidden);
    FourVersions(bystander, neighbour, marker, hidden);
    TwoLevelsFiles(L, a, f, g);
    TwoLevelsOrdered(L, {bystander}, {neighbour, marker, hidden});
  }

  lemma HidingPicked(L: seq<set<File>>, a: File, f: File, g: File, bystander: Entry, neighbour: Entry, marker: Entry,
        hidden: Entry)
    requires Hiding(L, a, f, g, bystander, neighbour, marker, hidden)
    ensures Picked(L, 1, {a}, {f}) && L[2] - {f} == {g} && KeyClosed(L[1], {a}) && !KeyClosed(L[2], {f})
  {
    assert marker in Contents(f) && hidden in Contents(g);
    FileCovers(f, marker);
    assert f.number != g.number || f != g by {
      assert hidden !in Contents(f);
    }
    assert a in {a} && MeetsHull(f, {a}) && !MeetsHull(g, {a});
    assert !NoSharedKey(f, g);
  }

  lemma HidingWork(L: seq<set<File>>, a: File, f: File, g: File, o: File, bystander: Entry, neighbour: Entry,
        marker: Entry, hidden: Entry)
    requires Hiding(L, a, f, g, bystander, neighbour, marker, hidden) && Contents(o) == {neighbour, bystander}
    ensures Work(L, 1, {a}, {f}, {o}, bystander.sn) && marker in EntriesIn({f})
    ensures Obsolete(L, 1, bystander.sn, marker)
  {
    HidingLayout(L, a, f, g, bystander, neighbour, marker, hidden);
    HidingPicked(L, a, f, g, bystander, neighbour, marker, hidden);
    TwoFiles(a, f, bystander, neighbour, marker);
    SingleFile(o);
    HidingSurvivors(L, bystander, neighbour, marker);
  }

  lemma TwoFiles(a: File, f: File, bystander: Entry, neighbour: Entry, marker: Entry)
    requires Contents(a) == {bystander} && Contents(f) == {neighbour, marker}
    ensures EntriesIn({a} + {f}) == {bystander, neighbour, marker} && EntriesIn({f}) == {neighbour, marker}
  {
    UnionEntries({a}, {f});
    SingleFile(a);
    SingleFile(f);
  }

  lemma HidingSurvivors(L: seq<set<File>>, bystander: Entry, neighbour: Entry, marker: Entry)
    requires neighbour.user < bystander.user < marker.user && bystander.sn > neighbour.sn > marker.sn
             && marker.kind.Deletion?
    requires forall l :: 3 <= l < |L| ==> L[l] == {}
    requires bystander.kind.Put? && neighbour.kind.Put?
    ensures Survivors({bystander, neighbour, marker}, L, 1, bystander.sn) == {neighbour, bystander}
    ensures Obsolete(L, 1, bystander.sn, marker)
  {
    var S := {bystander, neighbour, marker};
    assert !Hidden(S, bystander.sn, bystander) && !Hidden(S, bystander.sn, neighbour);
  }

  lemma SingleFile(f: File)
    ensures EntriesIn({f}) == Contents(f)
  {
    assert f in {f};
  }

  /** The level-1 input is closed on user keys, the level-2 input is not: the
      marker is dropped as obsolete and the reader finds what it hid. */
  lemma UnclosedNextLevelRevivesKey(L: seq<set<File>>, a: File, f: File, g: File, o: File, bystander: Entry,
        neighbour: Entry, marker: Entry, hidden: Entry)
    requires Hiding(L, a, f, g, bystander, neighbour, marker, hidden) && Contents(o) == {neighbour, bystander}
    ensures Work(L, 1, {a}, {f}, {o}, bystander.sn) && KeyClosed(L[1], {a}) && !KeyClosed(L[2], {f})
    ensures Read(All(L), hidden.user, bystander.sn) == NotFound
    ensures AnswerOf(LevelByLevel(Installed(L, 1, {a}, {f}, {o}), 0, hidden.user, bystander.sn)) == Found(hidden.value)
  {
    HidingEntries(L, a, f, g, bystander, neighbour, marker, hidden);
    FourVersions(bystander, neighbour, marker, hidden);
    HidingPicked(L, a, f, g, bystander, neighbour, marker, hidden);
    HidingWork(L, a, f, g, o, bystander, neighbour, marker, hidden);
    MarkerSeen(All(L), bystander, neighbour, marker, hidden);
    SecondInputDropped(L, 1, {a}, {f}, {o}, bystander.sn, hidden.user, bystander.sn, marker);
    OneVersionLeft(L[2], {f}, g, hidden.user, bystander.sn, hidden);
  }

  lemma MarkerSeen(S: set<Entry>, bystander: Entry, neighbour: Entry, marker: Entry, hidden: Entry)
    requires S == {bystander, neighbour, marker, hidden} && DistinctSeqs(S)
             && bystander.sn > neighbour.sn > marker.sn > hidden.sn
    requires neighbour.user < bystander.user < marker.user == hidden.user && marker.kind.Deletion?
    ensures IsVisible(S, hidden.user, bystander.sn, marker) && Read(S, hidden.user, bystander.sn) == NotFound
  {
    assert IsVisible(S, hidden.user, bystander.sn, marker);
    VisibleIs(S, hidden.user, bystander.sn, marker);
  }

  lemma OneVersionLeft(files: set<File>, taken: set<File>, g: File, k: UserKey, s: nat, e: Entry)
    requires files - taken == {g} && Contents(g) == {e} && Candidate(e, k, s) && e.kind.Put?
    ensures LeftAnswer(files, taken, k, s) == Found(e.value)
  {
    SingleFile(g);
    assert IsVisible({e}, k, s, e);
    VisibleIs({e}, k, s, e);
  }

  const BYSTANDER := Entry(0.5, 4, Put, [])
  const NEIGHBOUR := Entry(0.0, 3, Put, [])
  const MARKER := Entry(1.0, 2, Deletion, [])
  const TOP_FILE := File(3, 1, KeyOf(BYSTANDER), KeyOf(BYSTANDER), [BYSTANDER])
  const MARKER_FILE := File(1, 1, KeyOf(NEIGHBOUR), KeyOf(MARKER), [NEIGHBOUR, MARKER])

  /** Such a layout. */
  lemma HidingExists()
    ensures Hiding([{}, {TOP_FILE}, {MARKER_FILE, OLD_FILE}, {}, {}, {}, {}], TOP_FILE, MARKER_FILE, OLD_FILE,
            BYSTANDER, NEIGHBOUR, MARKER, OLD)
  {
    assert NEIGHBOUR in MARKER_FILE.entries && MARKER in MARKER_FILE.entries;
  }

  // ---- The code's outputs meet the state machine's steps ----

  lemma SortedIsDisjoint(files: seq<File>)
    requires SortedLevel(files)
    ensures DisjointFiles(FileSet(files))
  {
    forall f, g | f in FileSet(files) && g in FileSet(files) && f != g
      ensures Before(f.largest, g.smallest) || Before(g.largest, f.smallest)
    {
      var i :| 0 <= i < |files| && files[i] == f;
      var j :| 0 <= j < |files| && files[j] == g;
    }
  }

  /** DoCompactionWork over the merge of picked, closed inputs delivers outputs
      that the layout accepts and no reader notices. */
  lemma WorkIsSound(M: set<Entry>, L: seq<set<File>>, level: nat, in0: set<File>, in1: set<File>,
                    input: seq<Entry>, outputs: seq<File>, smallest: nat)
    requires Layout(L) && level + 1 < NUM_LEVELS && Picked(L, level, in0, in1)
    requires level > 0 ==> KeyClosed(L[level], in0)
    requires KeyClosed(L[level + 1], in1)
    requires Newer(M, All(L)) && DistinctSeqs(M + All(L))
    requires Elems(input) == EntriesIn(in0 + in1)
    requires Flatten(outputs) == Kept(input, |input|, L, level, smallest)
    requires SortedLevel(outputs) && forall f :: f in outputs ==> FileOk(f)
    ensures Layout(Installed(L, level, in0, in1, FileSet(outputs)))
    ensures SameAnswers(M + All(L), M + All(Installed(L, level, in0, in1, FileSet(outputs))), smallest)
  {
    var outs := FileSet(outputs);
    OutputsAreSurvivors(outputs, input, L, level, smallest);
    SortedIsDisjoint(outputs);
    if level == 0 {
      LevelZeroClosed(L, in0, in1);
    }
    assert Compacts(L, level, in0, in1, outs);
    InstallKeepsLayout(L, level, in0, in1, outs);
    CompactionKeepsReads(M, L, level, in0, in1, outs, smallest);
  }
}
