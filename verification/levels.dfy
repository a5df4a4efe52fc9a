/** Table files, levels and versions: the shape of the LSM tree. */
module Levels {
  import opened Keys
  import opened Mvcc

  const NUM_LEVELS := 7

  /** kMaxSequenceNumber: 56 bits, the low 8 bits of a tag hold the kind. */
  const MAX_SEQUENCE: nat := 0xFF_FFFF_FFFF_FFFF

  datatype InternalKey = InternalKey(user: UserKey, sn: nat, kind: Kind)

  /** PackSequenceAndType. */
  function Tag(k: InternalKey): nat {
    k.sn * 256 + if k.kind.Put? then 1 else 0
  }

  /** InternalKeyComparator: user key up, then tag down. */
  predicate Before(a: InternalKey, b: InternalKey) {
    a.user < b.user || (a.user == b.user && Tag(a) > Tag(b))
  }

  function KeyOf(e: Entry): InternalKey {
    InternalKey(e.user, e.sn, e.kind)
  }

  /** The internal key of a LookupKey: kValueTypeForSeek is the larger kind. */
  function LookupKey(k: UserKey, s: nat): InternalKey {
    InternalKey(k, s, Put)
  }

  /** FileMetaData together with the contents of the table it names. */
  datatype File = File(number: nat, size: nat, smallest: InternalKey, largest: InternalKey, entries: seq<Entry>)

  predicate SortedEntries(es: seq<Entry>) {
    forall i, j :: 0 <= i < j < |es| ==> Before(KeyOf(es[i]), KeyOf(es[j]))
  }

  ghost function Elems(es: seq<Entry>): set<Entry> {
    set e | e in es
  }

  ghost function Contents(f: File): set<Entry> {
    Elems(f.entries)
  }

  /** A table is a non-empty sorted run and its metadata names the two ends. */
  predicate FileOk(f: File) {
    && |f.entries| > 0
    && SortedEntries(f.entries)
    && f.smallest == KeyOf(f.entries[0])
    && f.largest == KeyOf(f.entries[|f.entries| - 1])
    && (forall e :: e in f.entries ==> e.sn <= MAX_SEQUENCE)
  }

  /** Whether the file's user-key range contains k. */
  predicate Covers(f: File, k: UserKey) {
    f.smallest.user <= k <= f.largest.user
  }

  lemma FileCovers(f: File, e: Entry)
    requires FileOk(f) && e in f.entries
    ensures Covers(f, e.user)
    ensures !Before(KeyOf(e), f.smallest) && !Before(f.largest, KeyOf(e))
  {
    var i :| 0 <= i < |f.entries| && f.entries[i] == e;
  }

  predicate SortedLevel(files: seq<File>) {
    forall i, j :: 0 <= i < j < |files| ==> Before(files[i].largest, files[j].smallest)
  }

  ghost function FileSet(files: seq<File>): set<File> {
    set f | f in files
  }

  ghost function EntriesIn(fs: set<File>): set<Entry> {
    set f, e | f in fs && e in f.entries :: e
  }

  ghost predicate DisjointFiles(fs: set<File>) {
    forall f, g :: f in fs && g in fs && f != g ==>
      Before(f.largest, g.smallest) || Before(g.largest, f.smallest)
  }

  /** Level-0 files may overlap; their numbers say which is newer. */
  ghost predicate NumberedByAge(fs: set<File>) {
    && (forall f, g :: f in fs && g in fs && f.number == g.number ==> f == g)
    && (forall f, g :: f in fs && g in fs && f.number > g.number ==> Newer(Contents(f), Contents(g)))
  }

  ghost function All(L: seq<set<File>>): set<Entry> {
    set l, f, e | 0 <= l < |L| && f in L[l] && e in f.entries :: e
  }

  ghost predicate FilesOk(L: seq<set<File>>) {
    forall l, f :: 0 <= l < |L| && f in L[l] ==> FileOk(f)
  }

  ghost predicate LevelsDisjoint(L: seq<set<File>>) {
    forall l :: 1 <= l < |L| ==> DisjointFiles(L[l])
  }

  /** "Entries never hop across levels": for each user key, shallower levels
      hold only newer entries. */
  ghost predicate LevelsOrdered(L: seq<set<File>>) {
    forall i, j :: 0 <= i < j < |L| ==> Newer(EntriesIn(L[i]), EntriesIn(L[j]))
  }

  /** The invariant of a Version. */
  ghost predicate Layout(L: seq<set<File>>) {
    && |L| == NUM_LEVELS
    && FilesOk(L)
    && NumberedByAge(L[0])
    && LevelsDisjoint(L)
    && LevelsOrdered(L)
    && DistinctSeqs(All(L))
  }

  ghost function LevelSets(levels: seq<seq<File>>): seq<set<File>> {
    seq(|levels|, i requires 0 <= i < |levels| => FileSet(levels[i]))
  }

  /** A version as the code stores it: levels above 0 are sorted vectors. */
  ghost predicate VersionOk(levels: seq<seq<File>>) {
    && Layout(LevelSets(levels))
    && forall l :: 1 <= l < NUM_LEVELS ==> SortedLevel(levels[l])
  }

  /** The part of it that concerns single files and levels. */
  predicate LevelsSorted(levels: seq<seq<File>>) {
    && |levels| == NUM_LEVELS
    && (forall l, f :: 0 <= l < NUM_LEVELS && f in levels[l] ==> FileOk(f))
    && (forall l :: 1 <= l < NUM_LEVELS ==> SortedLevel(levels[l]))
  }

  lemma VersionLevelsSorted(levels: seq<seq<File>>)
    requires VersionOk(levels)
    ensures LevelsSorted(levels)
  {
    forall l, f | 0 <= l < NUM_LEVELS && f in levels[l] ensures FileOk(f) {
      assert f in LevelSets(levels)[l];
    }
  }

  /** The position Table::InternalGet seeks to: the first entry at or after t. */
  function LowerBound(es: seq<Entry>, t: InternalKey): (i: nat)
    ensures i <= |es|
    ensures forall j :: 0 <= j < i ==> Before(KeyOf(es[j]), t)
    ensures i < |es| ==> !Before(KeyOf(es[i]), t)
  {
    if |es| == 0 || !Before(KeyOf(es[0]), t) then 0
    else
      assert forall j :: 0 < j < |es| ==> es[j] == es[1..][j - 1];
      1 + LowerBound(es[1..], t)
  }

  /** Seeking a sorted run to the lookup key and testing the user key there is
      a read of the run at the snapshot. */
  lemma SeekIsRead(es: seq<Entry>, k: UserKey, s: nat)
    requires SortedEntries(es)
    ensures var i := LowerBound(es, LookupKey(k, s));
            if i < |es| && es[i].user == k
            then IsVisible(Elems(es), k, s, es[i])
            else !HasCandidate(Elems(es), k, s)
  {
    var S := Elems(es);
    var i := LowerBound(es, LookupKey(k, s));
    forall e | e in S && Candidate(e, k, s)
      ensures i < |es| && es[i].user == k && e.sn <= es[i].sn
    {
      var j :| 0 <= j < |es| && es[j] == e;
      assert !Before(KeyOf(e), LookupKey(k, s));
      assert i <= j;
      assert i == j || Before(KeyOf(es[i]), KeyOf(es[j]));
    }
  }
}
