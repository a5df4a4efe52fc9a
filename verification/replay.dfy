/** Log replay at open: RecoverLogFile turns each log into level-0 tables, in
    order, flushing whenever the memtable is over its limit. */
module Replay {
  import opened Mvcc
  import opened Levels
  import opened Install

  /** One write batch as it sits in the log, with its sequence numbers. */
  type Group = seq<Entry>

  ghost function GroupSet(g: Group): set<Entry> {
    set e | e in g
  }

  ghost function LogSet(log: seq<Group>): set<Entry> {
    set g, e | g in log && e in g :: e
  }

  ghost function LogsSet(logs: seq<seq<Group>>): set<Entry> {
    set log, g, e | log in logs && g in log && e in g :: e
  }

  /** Everything in a is older than everything in b. */
  ghost predicate OlderThan(a: set<Entry>, b: set<Entry>) {
    forall d, e :: d in a && e in b ==> d.sn < e.sn
  }

  ghost predicate GroupOk(g: Group) {
    && (forall i, j :: 0 <= i < j < |g| ==> g[i].sn < g[j].sn)
    && (forall e :: e in g ==> e.sn <= MAX_SEQUENCE)
  }

  /** Sequence numbers rise along the log. */
  ghost predicate LogOk(log: seq<Group>) {
    && (forall g :: g in log ==> GroupOk(g))
    && (forall i, j :: 0 <= i < j < |log| ==> OlderThan(GroupSet(log[i]), GroupSet(log[j])))
  }

  ghost predicate LogsOk(logs: seq<seq<Group>>) {
    && (forall log :: log in logs ==> LogOk(log))
    && (forall i, j :: 0 <= i < j < |logs| ==> OlderThan(LogSet(logs[i]), LogSet(logs[j])))
  }

  /** MemTable::Add into the sorted list. */
  function InsertEntry(es: seq<Entry>, e: Entry): (r: seq<Entry>)
    requires SortedEntries(es) && forall d :: d in es ==> d.sn != e.sn
    ensures SortedEntries(r)
    ensures forall d :: d in r <==> d == e || d in es
  {
    if |es| == 0 || Before(KeyOf(e), KeyOf(es[0])) then
      [e] + es
    else
      assert es == [es[0]] + es[1..];
      var t := InsertEntry(es[1..], e);
      assert forall i :: 0 <= i < |t| ==> t[i] in t && Before(KeyOf(es[0]), KeyOf(t[i]));
      [es[0]] + t
  }

  /** InsertInto: the batch goes into the memtable entry by entry. */
  method InsertGroup(mem: seq<Entry>, g: Group) returns (mem': seq<Entry>)
    requires SortedEntries(mem) && GroupOk(g) && OlderThan(Elems(mem), GroupSet(g))
    ensures SortedEntries(mem') && Elems(mem') == Elems(mem) + GroupSet(g)
  {
    mem' := mem;
    for i := 0 to |g|
      invariant SortedEntries(mem')
      invariant Elems(mem') == Elems(mem) + set e | e in g[..i]
    {
      assert g[i] in GroupSet(g);
      assert forall d :: d in g[..i] ==> d.sn < g[i].sn;
      assert forall d :: d in mem' ==> d in Elems(mem');
      assert g[..i + 1] == g[..i] + [g[i]];
      mem' := InsertEntry(mem', g[i]);
    }
    assert g[..|g|] == g;
  }

  /** Files built so far from a log: numbered upwards from `low` and below `next`,
      each older than the one behind it. */
  ghost predicate FilesOkInOrder(files: seq<File>, low: nat, next: nat) {
    && low <= next && (forall i :: 0 <= i < |files| ==> FileOk(files[i]) && low <= files[i].number < next)
    && (forall i, j :: 0 <= i < j < |files| ==> files[i].number < files[j].number)
    && (forall i, j :: 0 <= i < j < |files| ==> OlderThan(Contents(files[i]), Contents(files[j])))
  }

  ghost function FilesSet(files: seq<File>): set<Entry> {
    set f, e | f in files && e in f.entries :: e
  }

  function TableOf(mem: seq<Entry>, number: nat, size: nat): (f: File)
    requires SortedEntries(mem) && |mem| > 0 && forall e :: e in mem ==> e.sn <= MAX_SEQUENCE
    ensures FileOk(f) && Contents(f) == Elems(mem) && f.number == number
  {
    File(number, size, KeyOf(mem[0]), KeyOf(mem[|mem| - 1]), mem)
  }

  lemma AppendedFile(files: seq<File>, f: File, low: nat, next: nat)
    requires FilesOkInOrder(files, low, next) && FileOk(f) && f.number == next
    requires OlderThan(FilesSet(files), Contents(f))
    ensures FilesOkInOrder(files + [f], low, next + 1)
    ensures FilesSet(files + [f]) == FilesSet(files) + Contents(f)
  {
    forall i | 0 <= i < |files| ensures OlderThan(Contents(files[i]), Contents(f)) {
      FileInFiles(files, i);
    }
  }

  lemma FileInFiles(files: seq<File>, i: nat)
    requires i < |files|
    ensures Contents(files[i]) <= FilesSet(files)
  {
    assert files[i] in files;
  }

  /** WriteLevel0Table with no base version: always level 0.  An empty memtable
      leaves no file, but its number is spent. */
  function WriteTable(files: seq<File>, mem: seq<Entry>, ghost low: nat, number: nat, size: nat): (r: seq<File>)
    requires FilesOkInOrder(files, low, number) && SortedEntries(mem)
    requires OlderThan(FilesSet(files), Elems(mem)) && forall e :: e in mem ==> e.sn <= MAX_SEQUENCE
    ensures FilesOkInOrder(r, low, number + 1)
    ensures FilesSet(r) == FilesSet(files) + Elems(mem)
  {
    if |mem| == 0 then files
    else
      var f := TableOf(mem, number, size);
      AppendedFile(files, f, low, number);
      files + [f]
  }

  /** The replay of a log: tables written, the memtable if there is one, and the
      next file number. */
  datatype Replay = Replay(files: seq<File>, mem: Option<seq<Entry>>, next: nat)

  function MemOf(r: Replay): seq<Entry> {
    if r.mem.Some? then r.mem.value else []
  }

  /** What has been read so far is in the tables written and in the memtable. */
  ghost predicate Progress(r: Replay, read: set<Entry>, low: nat) {
    && SortedEntries(MemOf(r)) && FilesOkInOrder(r.files, low, r.next)
    && FilesSet(r.files) + Elems(MemOf(r)) == read
    && OlderThan(FilesSet(r.files), Elems(MemOf(r)))
    && (forall e :: e in MemOf(r) ==> e.sn <= MAX_SEQUENCE)
  }

  /** One record: insert it, and write the memtable out when it is too big. */
  method ReplayRecord(r: Replay, g: Group, usage: seq<Entry> -> nat, bufferSize: nat, ghost read: set<Entry>,
        ghost low: nat)
    returns (r': Replay)
    requires Progress(r, read, low) && GroupOk(g) && OlderThan(read, GroupSet(g))
    ensures Progress(r', read + GroupSet(g), low)
  {
    assert forall e :: e in FilesSet(r.files) || e in Elems(MemOf(r)) ==> e in read;
    var mem := InsertGroup(MemOf(r), g);
    assert forall e :: e in mem ==> e in Elems(mem);
    r' := Replay(r.files, Some(mem), r.next);
    if usage(mem) > bufferSize {
      r' := WriteMem(r', usage(mem), read + GroupSet(g), low);
    }
  }

  /** The memtable, if there is one, goes into a table under the next number. */
  method WriteMem(r: Replay, size: nat, ghost read: set<Entry>, ghost low: nat) returns (r': Replay)
    requires Progress(r, read, low)
    ensures Progress(r', read, low) && r'.mem.None?
  {
    r' := r;
    if r.mem.Some? {
      r' := Replay(WriteTable(r.files, r.mem.value, low, r.next, size), None, r.next + 1);
    }
  }

  /** The largest sequence number so far, counting from `start`. */
  ghost predicate IsMax(m: nat, start: nat, S: set<Entry>) {
    && m >= start && (forall e :: e in S ==> e.sn <= m)
    && (m == start || exists e :: e in S && e.sn == m)
  }

  function LastOf(g: Group, m: nat): nat {
    if |g| > 0 && g[|g| - 1].sn > m then g[|g| - 1].sn else m
  }

  lemma LastIsMax(g: Group, m: nat, start: nat, S: set<Entry>)
    requires GroupOk(g) && IsMax(m, start, S)
    ensures IsMax(LastOf(g, m), start, S + GroupSet(g))
  {
    if |g| > 0 {
      assert g[|g| - 1] in GroupSet(g);
    }
    if m != start {
      var e :| e in S && e.sn == m;
      assert e in S + GroupSet(g);
    }
  }

  /** DBImpl::RecoverLogFile, with the memory usage left to the caller. */
  method RecoverLogFile(log: seq<Group>, files0: seq<File>, next0: nat, maxSeq0: nat, usage: seq<Entry> -> nat,
        bufferSize: nat,
                        ghost low: nat)
    returns (files: seq<File>, next: nat, maxSeq: nat)
    requires LogOk(log) && FilesOkInOrder(files0, low, next0) && OlderThan(FilesSet(files0), LogSet(log))
    ensures FilesOkInOrder(files, low, next)
    ensures FilesSet(files) == FilesSet(files0) + LogSet(log)
    ensures IsMax(maxSeq, maxSeq0, LogSet(log))
  {
    var r := Replay(files0, None, next0);
    maxSeq := maxSeq0;
    ghost var replayed: set<Entry> := {};
    for i := 0 to |log|
      invariant Progress(r, FilesSet(files0) + replayed, low)
      invariant replayed == LogSet(log[..i])
      invariant IsMax(maxSeq, maxSeq0, replayed)
    {
      LogStep(log, i);
      r := ReplayRecord(r, log[i], usage, bufferSize, FilesSet(files0) + replayed, low);
      LastIsMax(log[i], maxSeq, maxSeq0, replayed);
      maxSeq := LastOf(log[i], maxSeq);
      UnionShift(FilesSet(files0), replayed, GroupSet(log[i]));
      replayed := replayed + GroupSet(log[i]);
    }
    assert log[..|log|] == log;
    r := WriteMem(r, usage(MemOf(r)), FilesSet(files0) + replayed, low);
    files, next := r.files, r.next;
  }

  lemma UnionShift(a: set<Entry>, b: set<Entry>, c: set<Entry>)
    ensures (a + b) + c == a + (b + c)
  {}

  /** One more record of the log. */
  lemma LogStep(log: seq<Group>, i: nat)
    requires LogOk(log) && i < |log|
    ensures LogSet(log[..i + 1]) == LogSet(log[..i]) + GroupSet(log[i])
    ensures OlderThan(LogSet(log[..i]), GroupSet(log[i]))
    ensures GroupSet(log[i]) <= LogSet(log) && GroupOk(log[i])
  {
    assert log[..i + 1] == log[..i] + [log[i]];
    assert log[i] in log;
    forall d, e | d in LogSet(log[..i]) && e in GroupSet(log[i]) ensures d.sn < e.sn {
      var g :| g in log[..i] && d in g;
      var j :| 0 <= j < i && log[..i][j] == g;
      assert OlderThan(GroupSet(log[j]), GroupSet(log[i]));
      assert d in GroupSet(log[j]);
    }
  }

  /** DBImpl::Recover's loop over the logs, in the order they were generated. */
  method RecoverLogs(logs: seq<seq<Group>>, nextFile: nat, usage: seq<Entry> -> nat, bufferSize: nat)
    returns (files: seq<File>, next: nat, maxSeq: nat)
    requires LogsOk(logs)
    ensures FilesOkInOrder(files, nextFile, next)
    ensures FilesSet(files) == LogsSet(logs)
    ensures IsMax(maxSeq, 0, LogsSet(logs))
  {
    files, next, maxSeq := [], nextFile, 0;
    for i := 0 to |logs|
      invariant FilesOkInOrder(files, nextFile, next)
      invariant FilesSet(files) == LogsSet(logs[..i])
      invariant IsMax(maxSeq, 0, LogsSet(logs[..i]))
    {
      LogsStep(logs, i);
      ghost var before := maxSeq;
      files, next, maxSeq := RecoverLogFile(logs[i], files, next, maxSeq, usage, bufferSize, nextFile);
      MaxOfTwo(before, maxSeq, LogsSet(logs[..i]), LogSet(logs[i]));
    }
    assert logs[..|logs|] == logs;
  }

  lemma MaxOfTwo(m: nat, m': nat, S: set<Entry>, T: set<Entry>)
    requires IsMax(m, 0, S) && IsMax(m', m, T)
    ensures IsMax(m', 0, S + T)
  {
    if m' == m && m != 0 {
      var e :| e in S && e.sn == m;
      assert e in S + T;
    } else if m' != m {
      var e :| e in T && e.sn == m';
      assert e in S + T;
    }
  }

  lemma LogsStep(logs: seq<seq<Group>>, i: nat)
    requires LogsOk(logs) && i < |logs|
    ensures LogsSet(logs[..i + 1]) == LogsSet(logs[..i]) + LogSet(logs[i])
    ensures OlderThan(LogsSet(logs[..i]), LogSet(logs[i]))
    ensures LogSet(logs[i]) <= LogsSet(logs) && LogOk(logs[i])
  {
    assert logs[..i + 1] == logs[..i] + [logs[i]];
    assert logs[i] in logs;
    forall d, e | d in LogsSet(logs[..i]) && e in LogSet(logs[i]) ensures d.sn < e.sn {
      var log, g :| log in logs[..i] && g in log && d in g;
      var j :| 0 <= j < i && logs[..i][j] == log;
      assert OlderThan(LogSet(logs[j]), LogSet(logs[i]));
      assert d in LogSet(logs[j]);
    }
  }

  // ---- The recovered version ----

  /** The first n replayed tables, all at level 0. */
  ghost function WithFiles(L: seq<set<File>>, files: seq<File>, n: nat): (r: seq<set<File>>)
    requires |L| == NUM_LEVELS && n <= |files|
    ensures |r| == NUM_LEVELS
  {
    if n == 0 then L else AddFile(WithFiles(L, files, n - 1), 0, files[n - 1])
  }

  ghost function FirstFiles(files: seq<File>, n: nat): set<Entry>
    requires n <= |files|
  {
    set i, e | 0 <= i < n && e in files[i].entries :: e
  }

  ghost predicate OwnSeqs(f: File) {
    forall d, e :: d in f.entries && e in f.entries && d.sn == e.sn ==> d == e
  }

  lemma NextIsNewer(L: seq<set<File>>, files: seq<File>, n: nat)
    requires n < |files| && OlderThan(All(L), FilesSet(files)) && OwnSeqs(files[n])
    requires forall i, j :: 0 <= i < j < |files| ==> OlderThan(Contents(files[i]), Contents(files[j]))
    requires DistinctSeqs(All(L) + FirstFiles(files, n))
    ensures Newer(Contents(files[n]), All(L) + FirstFiles(files, n))
    ensures DistinctSeqs(All(L) + FirstFiles(files, n) + Contents(files[n]))
    ensures FirstFiles(files, n + 1) == FirstFiles(files, n) + Contents(files[n])
  {
    var f := files[n];
    assert f in files;
    forall d, e | d in All(L) + FirstFiles(files, n) && e in Contents(f) ensures d.sn < e.sn {
      assert e in FilesSet(files);
      if d in FirstFiles(files, n) {
        var i :| 0 <= i < n && d in files[i].entries;
        assert d in Contents(files[i]);
        assert OlderThan(Contents(files[i]), Contents(files[n]));
      }
    }
  }

  /** Above the numbers of the first n tables. */
  function PastNumbers(files: seq<File>, n: nat, low: nat): nat
    requires n <= |files|
  {
    if n == 0 then low else files[n - 1].number + 1
  }

  /** The version with the first n tables is in order and has their entries. */
  ghost predicate Replayed(L: seq<set<File>>, files: seq<File>, n: nat, low: nat)
    requires |L| == NUM_LEVELS && n <= |files|
  {
    var L' := WithFiles(L, files, n);
    Layout(L') && All(L') == All(L) + FirstFiles(files, n) && Numbers(L', PastNumbers(files, n, low))
  }

  lemma ReplayOne(L: seq<set<File>>, files: seq<File>, n: nat, low: nat, next: nat)
    requires |L| == NUM_LEVELS && FilesOkInOrder(files, low, next) && n < |files|
    requires OlderThan(All(L), FilesSet(files)) && OwnSeqs(files[n])
    requires Replayed(L, files, n, low)
    ensures Replayed(L, files, n + 1, low)
  {
    var L1 := WithFiles(L, files, n);
    NextIsNewer(L, files, n);
    assert PastNumbers(files, n, low) <= files[n].number;
    FlushKeepsLayout(L1, 0, files[n]);
    AddFileEntries(L1, 0, files[n]);
  }

  lemma ReplayNone(L: seq<set<File>>, files: seq<File>, low: nat)
    requires Layout(L) && Numbers(L, low)
    ensures Replayed(L, files, 0, low)
  {
    assert FirstFiles(files, 0) == {};
  }

  /** Replay keeps the layout: the tables are newer than everything in it, and
      each is newer than those replayed before. */
  lemma ReplayKeepsLayout(L: seq<set<File>>, files: seq<File>, low: nat, next: nat)
    requires Layout(L) && Numbers(L, low) && FilesOkInOrder(files, low, next)
    requires OlderThan(All(L), FilesSet(files)) && forall f :: f in files ==> OwnSeqs(f)
    ensures var L' := WithFiles(L, files, |files|);
            Layout(L') && All(L') == All(L) + FilesSet(files) && Numbers(L', next)
  {
    ReplayNone(L, files, low);
    for n := 0 to |files|
      invariant Replayed(L, files, n, low)
    {
      ReplayOne(L, files, n, low, next);
    }
    FirstFilesAll(files);
    NumbersBelow(WithFiles(L, files, |files|), PastNumbers(files, |files|, low), next);
  }

  lemma NumbersBelow(L: seq<set<File>>, below: nat, next: nat)
    requires Numbers(L, below) && below <= next
    ensures Numbers(L, next)
  {}

  lemma FirstFilesAll(files: seq<File>)
    ensures FirstFiles(files, |files|) == FilesSet(files)
  {
    forall e ensures e in FirstFiles(files, |files|) <==> e in FilesSet(files) {
      if e in FilesSet(files) {
        var f :| f in files && e in f.entries;
        var i :| 0 <= i < |files| && files[i] == f;
      }
    }
  }
}
