/** Durability: what is on disk after every step of writing, switching,
    flushing, compacting, deleting and recovering, and that a process crash at
    any of them loses nothing that was acknowledged. */
module Recovery {
  import opened Keys
  import opened Mvcc
  import opened Levels
  import opened Compactions
  import opened Install
  import opened Replay

  // ---- The disk ----

  /** The log files by number, the state the manifest replays to, and which
      table files exist. */
  datatype Disk = Disk(logs: map<nat, seq<Group>>, L: seq<set<File>>, logNumber: nat, lastSeq: nat, nextFile: nat,
      tables: set<nat>)

  /** What the logs from number lo up to hi hold. */
  ghost function LogRange(logs: map<nat, seq<Group>>, lo: nat, hi: nat): set<Entry> {
    set n, g, e | n in logs && lo <= n < hi && g in logs[n] && e in g :: e
  }

  /** The logs recovery will replay: every log not older than the manifest's. */
  ghost function LogEntries(d: Disk): set<Entry> {
    set n, g, e | n in d.logs && d.logNumber <= n && g in d.logs[n] && e in g :: e
  }

  /** Everything a recovery finds. */
  ghost function OnDisk(d: Disk): set<Entry> {
    LogEntries(d) + All(d.L)
  }

  ghost predicate DiskLogsOk(d: Disk) {
    && (forall n :: n in d.logs && d.logNumber <= n ==> LogOk(d.logs[n]))
    && (forall n, m :: n in d.logs && m in d.logs && d.logNumber <= n < m ==>
       OlderThan(LogSet(d.logs[n]), LogSet(d.logs[m])))
  }

  ghost predicate Present(L: seq<set<File>>, tables: set<nat>) {
    forall l, f :: 0 <= l < |L| && f in L[l] ==> f.number in tables
  }

  /** The disk alone answers every read at `floor` or later as the history
      does, and nothing it refers to is missing. */
  ghost predicate DiskOk(d: Disk, hist: set<Entry>, floor: nat) {
    && Layout(d.L) && Numbers(d.L, d.nextFile) && Present(d.L, d.tables)
    && DiskLogsOk(d) && OlderThan(All(d.L), LogEntries(d))
    && DistinctSeqs(hist) && OnDisk(d) <= hist
    && SameAnswers(OnDisk(d), hist, floor)
    && floor <= d.lastSeq && (forall e :: e in hist ==> e.sn <= d.lastSeq || e in LogEntries(d))
  }

  // ---- The process ----

  datatype Write = NoWrite | Pending(group: Group) | Logged(group: Group)

  /** Background work whose files are written; `committed` says whether the
      manifest record is. */
  datatype Job = Idle | Flushing(level: nat, f: File, committed: bool)
               | Compacting(level: nat, in0: set<File>, in1: set<File>, outs: set<File>, smallest: nat, committed: bool)

  datatype Process = Down
    | Up(mem: set<Entry>, imm: Option<set<Entry>>, L: seq<set<File>>, logNum: nat, installed: nat,
         lastSeq: nat, nextFile: nat, write: Write, job: Job, pinned: multiset<seq<set<File>>>)

  /** `history` lists the groups ever logged, `acked` those acknowledged, and
      `interrupted` those that were logged but not acknowledged at a crash. */
  datatype State = State(disk: Disk, proc: Process, history: seq<Group>, acked: seq<Group>, interrupted: seq<Group>,
      floor: nat)

  ghost function ImmSet(p: Process): set<Entry>
    requires p.Up?
  {
    if p.imm.Some? then p.imm.value else {}
  }

  ghost function InFlight(p: Process): set<Entry>
    requires p.Up?
  {
    if p.write.Logged? then GroupSet(p.write.group) else {}
  }

  ghost predicate Committed(j: Job) {
    !j.Idle? && j.committed
  }

  /** The manifest, relative to the version in memory. */
  ghost predicate ManifestOk(d: Disk, p: Process)
    requires p.Up?
  {
    match p.job
    case Idle => d.L == p.L && d.logNumber == p.installed
    case Flushing(level, f, committed) =>
      level < |p.L| &&
      if committed then d.L == AddFile(p.L, level, f) && d.logNumber == p.logNum
      else d.L == p.L && d.logNumber == p.installed
    case Compacting(level, in0, in1, outs, smallest, committed) =>
      level + 1 < |p.L| && d.logNumber == p.installed &&
      d.L == if committed then Installed(p.L, level, in0, in1, outs) else p.L
  }

  /** Which logs hold what is only in memory. */
  ghost predicate LogsMatch(d: Disk, p: Process)
    requires p.Up?
  {
    && p.logNum in d.logs && d.logNumber <= p.logNum && (forall n :: n in d.logs ==> n <= p.logNum)
    && LogSet(d.logs[p.logNum]) == p.mem + InFlight(p)
    && LogRange(d.logs, d.logNumber, p.logNum) == if p.job.Flushing? && p.job.committed then {} else ImmSet(p)
  }

  /** Background work that may be committed. */
  ghost predicate JobOk(d: Disk, p: Process)
    requires p.Up?
  {
    match p.job
    case Idle => true
    case Flushing(level, f, committed) =>
      && p.imm.Some? && FileOk(f) && Contents(f) == p.imm.value && level < NUM_LEVELS && FlushTarget(p.L, level, f)
      && Numbers(p.L, f.number) && f.number < p.nextFile && f.number in d.tables
    case Compacting(level, in0, in1, outs, smallest, committed) =>
      && Compacts(p.L, level, in0, in1, outs)
      && EntriesIn(outs) == Survivors(EntriesIn(in0 + in1), p.L, level, smallest)
      && smallest <= p.lastSeq
      && forall f :: f in outs ==> f.number < p.nextFile && f.number in d.tables
  }

  ghost predicate CountersOk(d: Disk, p: Process, hist: set<Entry>)
    requires p.Up?
  {
    && p.installed <= d.logNumber && d.nextFile <= p.nextFile && p.logNum < p.nextFile
    && Numbers(p.L, p.nextFile) && d.lastSeq <= p.lastSeq
    && (forall e :: e in hist ==> e.sn <= p.lastSeq || e in InFlight(p))
    && (p.write.Pending? || p.write.Logged? ==> GroupOk(p.write.group) && forall e :: e in p.write.group ==>
       e.sn > p.lastSeq)
  }

  ghost predicate UpOk(d: Disk, p: Process, hist: set<Entry>)
    requires p.Up?
  {
    && ManifestOk(d, p) && LogsMatch(d, p) && JobOk(d, p) && CountersOk(d, p, hist)
    && Present(p.L, d.tables) && (forall L :: L in p.pinned ==> Present(L, d.tables))
  }

  ghost function Hist(s: State): set<Entry> {
    LogSet(s.history)
  }

  ghost predicate Inv(s: State) {
    && DiskOk(s.disk, Hist(s), s.floor)
    && (s.proc.Up? ==> UpOk(s.disk, s.proc, Hist(s)))
    && LedgerOk(s)
  }

  /** The history is exactly the acknowledged and the interrupted groups and
      the one in flight. */
  ghost predicate LedgerOk(s: State) {
    forall g :: g in s.history <==> g in s.acked || g in s.interrupted || (s.proc.Up? && s.proc.write == Logged(g))
  }

  // ---- Steps ----

  ghost predicate BeginWrite(s: State, s': State, g: Group) {
    && s.proc.Up? && s.proc.write.NoWrite?
    && GroupOk(g) && (forall e :: e in g ==> e.sn > s.proc.lastSeq)
    && s' == s.(proc := s.proc.(write := Pending(g)))
  }

  /** log_->AddRecord: the whole record, or nothing a reader accepts. */
  ghost predicate AppendLog(s: State, s': State) {
    && s.proc.Up? && s.proc.write.Pending? && s.proc.logNum in s.disk.logs
    && var g := s.proc.write.group;
       && s'.disk == s.disk.(logs := s.disk.logs[s.proc.logNum := s.disk.logs[s.proc.logNum] + [g]])
       && s'.proc == s.proc.(write := Logged(g))
       && s'.history == s.history + [g] && s'.acked == s.acked && s'.interrupted == s.interrupted && s'.floor == s.floor
  }

  /** The memtable has the group, LastSequence moves, the writers return. */
  ghost predicate Acknowledge(s: State, s': State) {
    && s.proc.Up? && s.proc.write.Logged?
    && var g := s.proc.write.group;
       s' == s.(proc := s.proc.(mem := s.proc.mem + GroupSet(g), write := NoWrite,
           lastSeq := LastOf(g, s.proc.lastSeq)),
                acked := s.acked + [g])
  }

  /** MakeRoomForWrite: a new log, and the memtable becomes immutable. */
  ghost predicate Switch(s: State, s': State) {
    && s.proc.Up? && s.proc.imm.None? && s.proc.write.NoWrite?
    && var n := s.proc.nextFile;
       s' == s.(disk := s.disk.(logs := s.disk.logs[n := []]),
                proc := s.proc.(mem := {}, imm := Some(s.proc.mem), logNum := n, nextFile := n + 1))
  }

  /** WriteLevel0Table has built the table for the immutable memtable. */
  ghost predicate BuildFlush(s: State, s': State, level: nat, f: File) {
    && s.proc.Up? && s.proc.imm.Some? && s.proc.job.Idle?
    && FileOk(f) && Contents(f) == s.proc.imm.value && level < NUM_LEVELS && FlushTarget(s.proc.L, level, f)
    && f.number == s.proc.nextFile
    && s' == s.(disk := s.disk.(tables := s.disk.tables + {f.number}),
                proc := s.proc.(job := Flushing(level, f, false), nextFile := f.number + 1))
  }

  /** An empty immutable memtable leaves no table; only the log number moves. */
  ghost predicate FlushEmpty(s: State, s': State) {
    && s.proc.Up? && s.proc.imm == Some({}) && s.proc.job.Idle?
    && s' == s.(disk := s.disk.(logNumber := s.proc.logNum, lastSeq := s.proc.lastSeq, nextFile := s.proc.nextFile),
                proc := s.proc.(imm := None, installed := s.proc.logNum))
  }

  /** DoCompactionWork has built its outputs. */
  ghost predicate BuildCompaction(s: State, s': State, level: nat, in0: set<File>, in1: set<File>, outs: set<File>,
        smallest: nat, nextFile: nat)
  {
    && s.proc.Up? && s.proc.job.Idle? && Compacts(s.proc.L, level, in0, in1, outs)
    && EntriesIn(outs) == Survivors(EntriesIn(in0 + in1), s.proc.L, level, smallest) && smallest <= s.proc.lastSeq
    && s.proc.nextFile <= nextFile && (forall f :: f in outs ==> f.number < nextFile)
    && s' == s.(disk := s.disk.(tables := s.disk.tables + set f | f in outs :: f.number),
                proc := s.proc.(job := Compacting(level, in0, in1, outs, smallest, false), nextFile := nextFile))
  }

  /** LogAndApply appends the edit to the manifest. */
  ghost predicate CommitFlush(s: State, s': State) {
    && s.proc.Up? && s.proc.job.Flushing? && !s.proc.job.committed && s.proc.job.level < |s.proc.L|
    && s' == s.(disk := s.disk.(L := AddFile(s.proc.L, s.proc.job.level, s.proc.job.f), logNumber := s.proc.logNum,
                                lastSeq := s.proc.lastSeq, nextFile := s.proc.nextFile),
                proc := s.proc.(job := Flushing(s.proc.job.level, s.proc.job.f, true)))
  }

  ghost predicate CommitCompaction(s: State, s': State) {
    && s.proc.Up? && s.proc.job.Compacting? && !s.proc.job.committed && s.proc.job.level + 1 < |s.proc.L|
    && var j := s.proc.job;
       s' == s.(disk := s.disk.(L := Installed(s.proc.L, j.level, j.in0, j.in1, j.outs),
                                lastSeq := s.proc.lastSeq, nextFile := s.proc.nextFile),
                proc := s.proc.(job := Compacting(j.level, j.in0, j.in1, j.outs, j.smallest, true)),
                floor := if s.floor < j.smallest then j.smallest else s.floor)
  }

  /** AppendVersion: the committed edit becomes the current version; a flush
      drops the immutable memtable. */
  ghost predicate InstallEdit(s: State, s': State) {
    && s.proc.Up? && Committed(s.proc.job)
    && s' == s.(proc := s.proc.(L := s.disk.L, installed := s.disk.logNumber, job := Idle,
                                imm := if s.proc.job.Flushing? then None else s.proc.imm))
  }

  /** DeleteObsoleteFiles: a log below the installed log number ... */
  ghost predicate DeleteLog(s: State, s': State, n: nat) {
    && s.proc.Up? && n < s.proc.installed
    && s' == s.(disk := s.disk.(logs := s.disk.logs - {n}))
  }

  /** ... or a table in no live version, between two pieces of work. */
  ghost predicate DeleteTable(s: State, s': State, n: nat) {
    && s.proc.Up? && s.proc.job.Idle?
    && Unused(s.proc.L, n) && (forall L :: L in s.proc.pinned ==> Unused(L, n))
    && s' == s.(disk := s.disk.(tables := s.disk.tables - {n}))
  }

  ghost predicate Unused(L: seq<set<File>>, n: nat) {
    forall l, f :: 0 <= l < |L| && f in L[l] ==> f.number != n
  }

  /** A reader pins the current version, or lets go of one it has pinned. */
  ghost predicate Pin(s: State, s': State) {
    s.proc.Up? && s' == s.(proc := s.proc.(pinned := s.proc.pinned + multiset{s.proc.L}))
  }

  ghost predicate Unpin(s: State, s': State, L: seq<set<File>>) {
    s.proc.Up? && L in s.proc.pinned && s' == s.(proc := s.proc.(pinned := s.proc.pinned - multiset{L}))
  }

  ghost function Crashed(s: State): State {
    s.(proc := Down,
       interrupted := if s.proc.Up? && s.proc.write.Logged? then s.interrupted + [s.proc.write.group]
           else s.interrupted)
  }

  ghost predicate Crash(s: State, s': State) {
    s' == Crashed(s)
  }

  /** What a recovery that did not get as far as its manifest leaves behind:
      table files nothing refers to, and an empty log. */
  ghost predicate AbandonRecovery(s: State, s': State, tables: set<nat>, n: nat) {
    && s.proc.Down? && (forall m :: m in s.disk.logs ==> m < n)
    && s' == s.(disk := s.disk.(tables := s.disk.tables + tables, logs := s.disk.logs[n := []]))
  }

  /** The disk after DB::Open: the needed logs replayed into level-0 tables, a
      new log started and a new manifest written. */
  ghost function RecoveredDisk(d: Disk, files: seq<File>, maxSeq: nat, n: nat): Disk
    requires |d.L| == NUM_LEVELS
  {
    Disk(d.logs[n := []], WithFiles(d.L, files, |files|), n, if d.lastSeq < maxSeq then maxSeq else d.lastSeq, n + 1,
         d.tables + set f | f in files :: f.number)
  }

  ghost function Opened(d: Disk): Process {
    Up({}, None, d.L, d.logNumber, d.logNumber, d.lastSeq, d.nextFile, NoWrite, Idle, multiset{})
  }

  ghost predicate Recover(s: State, s': State, files: seq<File>, maxSeq: nat, n: nat) {
    var d := s.disk;
    && s.proc.Down? && |d.L| == NUM_LEVELS
    && FilesOkInOrder(files, d.nextFile + 1, n) && FilesSet(files) == LogEntries(d) && IsMax(maxSeq, 0, LogEntries(d))
    && n >= d.logNumber && (forall m :: m in d.logs ==> m < n)
    && s' == s.(disk := RecoveredDisk(d, files, maxSeq, n), proc := Opened(RecoveredDisk(d, files, maxSeq, n)))
  }

  ghost predicate Next(s: State, s': State) {
    || (exists g :: BeginWrite(s, s', g)) || AppendLog(s, s') || Acknowledge(s, s') || Switch(s, s')
    || (exists level, f :: BuildFlush(s, s', level, f)) || FlushEmpty(s, s')
    || (exists level, in0, in1, outs, smallest, nextFile ::
       BuildCompaction(s, s', level, in0, in1, outs, smallest, nextFile))
    || CommitFlush(s, s') || CommitCompaction(s, s') || InstallEdit(s, s')
    || (exists n :: DeleteLog(s, s', n)) || (exists n :: DeleteTable(s, s', n))
    || Pin(s, s') || (exists L :: Unpin(s, s', L)) || Crash(s, s')
    || (exists tables, n :: AbandonRecovery(s, s', tables, n))
    || (exists files, maxSeq, n :: Recover(s, s', files, maxSeq, n))
  }

  /** A database just created: an empty manifest and no log. */
  ghost predicate Init(s: State) {
    s == State(Disk(map[], seq(NUM_LEVELS, _ => {}), 0, 0, 2, {}), Down, [], [], [], 0)
  }

  // ---- The logs as sets ----

  lemma LogSplit(d: Disk, at: nat)
    requires d.logNumber <= at && at in d.logs && forall n :: n in d.logs ==> n <= at
    ensures LogEntries(d) == LogRange(d.logs, d.logNumber, at) + LogSet(d.logs[at])
  {
    forall e ensures e in LogEntries(d) <==> e in LogRange(d.logs, d.logNumber, at) + LogSet(d.logs[at]) {
      if e in LogEntries(d) {
        var n: nat, g: Group :| n in d.logs && d.logNumber <= n && g in d.logs[n] && e in g;
        assert n < at || n == at;
      }
    }
  }

  lemma LogSetAppend(log: seq<Group>, g: Group)
    ensures LogSet(log + [g]) == LogSet(log) + GroupSet(g)
  {}

  /** A group newer than both sides keeps them indistinguishable. */
  lemma SameAnswersGroup(G: set<Entry>, S: set<Entry>, T: set<Entry>, floor: nat)
    requires SameAnswers(S, T, floor) && DistinctSeqs(G + S) && DistinctSeqs(G + T)
    requires OlderThan(S, G) && OlderThan(T, G)
    ensures SameAnswers(G + S, G + T, floor)
  {
    forall k: UserKey, s: nat | s >= floor ensures Read(G + S, k, s) == Read(G + T, k, s) {
      assert Read(S, k, s) == Read(T, k, s);
      ReadLayers(G, S, k, s);
      ReadLayers(G, T, k, s);
    }
  }

  lemma GroupDistinct(g: Group, S: set<Entry>)
    requires GroupOk(g) && DistinctSeqs(S) && OlderThan(S, GroupSet(g))
    ensures DistinctSeqs(GroupSet(g) + S)
  {
    forall d, e | d in GroupSet(g) && e in GroupSet(g) && d.sn == e.sn ensures d == e {
      var i :| 0 <= i < |g| && g[i] == d;
      var j :| 0 <= j < |g| && g[j] == e;
    }
  }

  /** Disks with the same entries, logs and counters are equally good. */
  lemma DiskSame(d: Disk, d': Disk, hist: set<Entry>, floor: nat)
    requires DiskOk(d, hist, floor)
    requires Layout(d'.L) && Numbers(d'.L, d'.nextFile) && Present(d'.L, d'.tables)
    requires DiskLogsOk(d') && OlderThan(All(d'.L), LogEntries(d'))
    requires OnDisk(d') == OnDisk(d) && d.lastSeq <= d'.lastSeq
    requires forall e :: e in LogEntries(d) ==> e in LogEntries(d') || e.sn <= d'.lastSeq
    ensures DiskOk(d', hist, floor)
  {}

  /** New logs at the end, and extra tables, change nothing. */
  lemma DiskGrows(d: Disk, d': Disk, hist: set<Entry>, floor: nat, n: nat)
    requires DiskOk(d, hist, floor) && (forall m :: m in d.logs ==> m < n)
    requires d' == d.(logs := d.logs[n := []], tables := d'.tables) && d.tables <= d'.tables
    ensures DiskOk(d', hist, floor)
  {
    EmptyLogAdded(d, d', n);
  }

  lemma EmptyLogAdded(d: Disk, d': Disk, n: nat)
    requires n !in d.logs && d'.logs == d.logs[n := []] && d'.logNumber == d.logNumber
    requires DiskLogsOk(d)
    ensures LogEntries(d') == LogEntries(d) && DiskLogsOk(d')
    ensures forall lo, hi :: LogRange(d'.logs, lo, hi) == LogRange(d.logs, lo, hi)
  {
    assert LogSet([]) == {};
    forall e ensures e in LogEntries(d') <==> e in LogEntries(d) {
      if e in LogEntries(d) {
        var m: nat, g: Group :| m in d.logs && d.logNumber <= m && g in d.logs[m] && e in g;
        assert d'.logs[m] == d.logs[m];
      }
    }
    forall lo: nat, hi: nat ensures LogRange(d'.logs, lo, hi) == LogRange(d.logs, lo, hi) {
      RangeSame(d.logs, d'.logs, n, lo, hi);
    }
  }

  lemma RangeSame(a: map<nat, seq<Group>>, b: map<nat, seq<Group>>, n: nat, lo: nat, hi: nat)
    requires n !in a && b == a[n := []]
    ensures LogRange(b, lo, hi) == LogRange(a, lo, hi)
  {
    forall e ensures e in LogRange(b, lo, hi) <==> e in LogRange(a, lo, hi) {
      if e in LogRange(a, lo, hi) {
        var m: nat, g: Group :| m in a && lo <= m < hi && g in a[m] && e in g;
        assert b[m] == a[m];
      }
    }
  }

  // ---- Preservation: writes ----

  lemma BeginWriteInv(s: State, s': State, g: Group)
    requires Inv(s) && BeginWrite(s, s', g)
    ensures Inv(s')
  {
    assert InFlight(s'.proc) == InFlight(s.proc);
  }

  lemma AppendDisk(d: Disk, d': Disk, at: nat, g: Group, hist: set<Entry>, floor: nat)
    requires DiskOk(d, hist, floor) && at in d.logs && d.logNumber <= at && (forall n :: n in d.logs ==> n <= at)
    requires d' == d.(logs := d.logs[at := d.logs[at] + [g]])
    requires GroupOk(g) && OlderThan(hist, GroupSet(g))
    ensures DiskOk(d', GroupSet(g) + hist, floor)
    ensures LogEntries(d') == LogEntries(d) + GroupSet(g)
  {
    AppendEntries(d, d', at, g);
    AppendLogsOk(d, d', at, g);
    assert OnDisk(d') == GroupSet(g) + OnDisk(d);
    GroupDistinct(g, hist);
    GroupDistinct(g, OnDisk(d));
    SameAnswersGroup(GroupSet(g), OnDisk(d), hist, floor);
  }

  lemma AppendEntries(d: Disk, d': Disk, at: nat, g: Group)
    requires at in d.logs && d.logNumber <= at && (forall n :: n in d.logs ==> n <= at)
    requires d' == d.(logs := d.logs[at := d.logs[at] + [g]])
    ensures LogEntries(d') == LogEntries(d) + GroupSet(g)
    ensures LogRange(d'.logs, d.logNumber, at) == LogRange(d.logs, d.logNumber, at)
  {
    LogSplit(d, at);
    LogSplit(d', at);
    LogSetAppend(d.logs[at], g);
    forall e ensures e in LogRange(d'.logs, d.logNumber, at) <==> e in LogRange(d.logs, d.logNumber, at) {
      if e in LogRange(d.logs, d.logNumber, at) {
        var n: nat, h: Group :| n in d.logs && d.logNumber <= n < at && h in d.logs[n] && e in h;
        assert d'.logs[n] == d.logs[n];
      }
    }
  }

  lemma AppendLogsOk(d: Disk, d': Disk, at: nat, g: Group)
    requires DiskLogsOk(d) && at in d.logs && d.logNumber <= at && (forall n :: n in d.logs ==> n <= at)
    requires d' == d.(logs := d.logs[at := d.logs[at] + [g]])
    requires GroupOk(g) && OlderThan(LogEntries(d), GroupSet(g))
    ensures DiskLogsOk(d')
  {
    LogSetAppend(d.logs[at], g);
    forall n | n in d.logs && d.logNumber <= n ensures LogSet(d.logs[n]) <= LogEntries(d) {}
    AppendedLogOk(d.logs[at], g);
  }

  lemma AppendedLogOk(log: seq<Group>, g: Group)
    requires LogOk(log) && GroupOk(g) && OlderThan(LogSet(log), GroupSet(g))
    ensures LogOk(log + [g])
  {
    forall h | h in log ensures OlderThan(GroupSet(h), GroupSet(g)) {
      assert GroupSet(h) <= LogSet(log);
    }
  }

  lemma AppendLogInv(s: State, s': State)
    requires Inv(s) && AppendLog(s, s')
    ensures Inv(s')
  {
    var g, p := s.proc.write.group, s.proc;
    LogSetAppend(s.history, g);
    assert OlderThan(Hist(s), GroupSet(g));
    AppendDisk(s.disk, s'.disk, p.logNum, g, Hist(s), s.floor);
    assert Hist(s') == GroupSet(g) + Hist(s);
    AppendUp(s.disk, s'.disk, p, s'.proc, g, Hist(s));
  }

  lemma AppendUp(d: Disk, d': Disk, p: Process, p': Process, g: Group, hist: set<Entry>)
    requires p.Up? && UpOk(d, p, hist) && p.write == Pending(g)
    requires d' == d.(logs := d.logs[p.logNum := d.logs[p.logNum] + [g]]) && p' == p.(write := Logged(g))
    ensures UpOk(d', p', GroupSet(g) + hist)
  {
    AppendEntries(d, d', p.logNum, g);
    LogSetAppend(d.logs[p.logNum], g);
    assert InFlight(p) == {} && InFlight(p') == GroupSet(g);
    assert LogSet(d'.logs[p.logNum]) == p.mem + InFlight(p');
    assert LogsMatch(d', p');
  }

  lemma AcknowledgeInv(s: State, s': State)
    requires Inv(s) && Acknowledge(s, s')
    ensures Inv(s')
  {
    AcknowledgeUp(s.disk, s.proc, s'.proc, s.proc.write.group, Hist(s));
    AcknowledgeLedger(s, s');
  }

  lemma AcknowledgeUp(d: Disk, p: Process, p': Process, g: Group, hist: set<Entry>)
    requires p.Up? && UpOk(d, p, hist) && p.write == Logged(g)
    requires p' == p.(mem := p.mem + GroupSet(g), write := NoWrite, lastSeq := LastOf(g, p.lastSeq))
    ensures UpOk(d, p', hist)
  {
    assert p.mem + InFlight(p) == p'.mem + InFlight(p');
    LastCovers(g, p.lastSeq);
    assert ManifestOk(d, p') && JobOk(d, p');
    assert LogsMatch(d, p');
    assert CountersOk(d, p', hist);
  }

  lemma AcknowledgeLedger(s: State, s': State)
    requires LedgerOk(s) && Acknowledge(s, s')
    ensures LedgerOk(s')
  {}

  lemma LastCovers(g: Group, m: nat)
    requires GroupOk(g)
    ensures LastOf(g, m) >= m && forall e :: e in g ==> e.sn <= LastOf(g, m)
  {}

  // ---- Preservation: switch and flush ----

  lemma SwitchLogs(d: Disk, d': Disk, p: Process, p': Process)
    requires p.Up? && LogsMatch(d, p) && p.imm.None? && p.write.NoWrite? && !p.job.Flushing? && DiskLogsOk(d)
    requires p.logNum < p.nextFile && d' == d.(logs := d.logs[p.nextFile := []])
    requires p' == p.(mem := {}, imm := Some(p.mem), logNum := p.nextFile, nextFile := p.nextFile + 1)
    ensures LogsMatch(d', p')
  {
    var n := p.nextFile;
    EmptyLogAdded(d, d', n);
    assert LogSet([]) == {};
    assert InFlight(p) == {} && InFlight(p') == {};
    LogSplit(d, p.logNum);
    assert LogRange(d.logs, d.logNumber, n) == LogEntries(d) by {
      forall e ensures e in LogRange(d.logs, d.logNumber, n) <==> e in LogEntries(d) {
        if e in LogEntries(d) {
          var m: nat, g: Group :| m in d.logs && d.logNumber <= m && g in d.logs[m] && e in g;
          assert m < n;
        }
      }
    }
    assert LogRange(d'.logs, d.logNumber, n) == p.mem;
  }

  lemma SwitchInv(s: State, s': State)
    requires Inv(s) && Switch(s, s')
    ensures Inv(s')
  {
    DiskGrows(s.disk, s'.disk, Hist(s), s.floor, s.proc.nextFile);
    SwitchLogs(s.disk, s'.disk, s.proc, s'.proc);
    assert InFlight(s'.proc) == InFlight(s.proc) == {};
    assert CountersOk(s'.disk, s'.proc, Hist(s'));
  }

  lemma MoreTables(d: Disk, d': Disk, hist: set<Entry>, floor: nat)
    requires DiskOk(d, hist, floor) && d' == d.(tables := d'.tables) && d.tables <= d'.tables
    ensures DiskOk(d', hist, floor)
  {
    assert LogEntries(d') == LogEntries(d);
  }

  lemma BuildFlushInv(s: State, s': State, level: nat, f: File)
    requires Inv(s) && BuildFlush(s, s', level, f)
    ensures Inv(s')
  {
    MoreTables(s.disk, s'.disk, Hist(s), s.floor);
    assert InFlight(s'.proc) == InFlight(s.proc);
    assert LogsMatch(s'.disk, s'.proc);
    assert JobOk(s'.disk, s'.proc);
    assert CountersOk(s'.disk, s'.proc, Hist(s'));
  }

  /** Moving the manifest's log number past logs whose entries are in tables. */
  lemma RaiseLogNumber(d: Disk, d': Disk, at: nat)
    requires DiskLogsOk(d) && d.logNumber <= at && at in d.logs && (forall n :: n in d.logs ==> n <= at)
    requires d'.logs == d.logs && d'.logNumber == at
    ensures DiskLogsOk(d') && LogEntries(d') == LogSet(d.logs[at])
    ensures LogRange(d'.logs, at, at) == {}
    ensures OlderThan(LogRange(d.logs, d.logNumber, at), LogSet(d.logs[at]))
  {
    LogSplit(d', at);
    forall x, e | x in LogRange(d.logs, d.logNumber, at) && e in LogSet(d.logs[at]) ensures x.sn < e.sn {
      var n: nat, g: Group :| n in d.logs && d.logNumber <= n < at && g in d.logs[n] && x in g;
      assert x in LogSet(d.logs[n]);
    }
  }

  lemma FlushEmptyInv(s: State, s': State)
    requires Inv(s) && FlushEmpty(s, s')
    ensures Inv(s')
  {
    var d, d', p := s.disk, s'.disk, s.proc;
    LogSplit(d, p.logNum);
    RaiseLogNumber(d, d', p.logNum);
    assert LogEntries(d') == LogEntries(d);
    DiskSame(d, d', Hist(s), s.floor);
    assert InFlight(s'.proc) == InFlight(p);
    assert LogsMatch(d', s'.proc);
    assert CountersOk(d', s'.proc, Hist(s'));
  }

  lemma CommitFlushDisk(d: Disk, d': Disk, p: Process, hist: set<Entry>, floor: nat)
    requires DiskOk(d, hist, floor) && p.Up? && UpOk(d, p, hist) && p.job.Flushing? && !p.job.committed
    requires d' == d.(L := AddFile(p.L, p.job.level, p.job.f), logNumber := p.logNum, lastSeq := p.lastSeq,
             nextFile := p.nextFile)
    ensures DiskOk(d', hist, floor)
    ensures LogEntries(d') == p.mem + InFlight(p) && LogRange(d'.logs, d'.logNumber, p.logNum) == {}
  {
    var f, level := p.job.f, p.job.level;
    LogSplit(d, p.logNum);
    RaiseLogNumber(d, d', p.logNum);
    AddFileEntries(p.L, level, f);
    assert OnDisk(d') == OnDisk(d);
    assert Contents(f) <= LogEntries(d);
    assert DistinctSeqs(All(p.L) + Contents(f)) by {
      assert All(p.L) + Contents(f) <= OnDisk(d);
    }
    FlushKeepsLayout(p.L, level, f);
    CommitFlushFiles(p.L, level, f, p.nextFile, d.tables);
    DiskSame(d, d', hist, floor);
  }

  lemma CommitFlushFiles(L: seq<set<File>>, level: nat, f: File, n: nat, tables: set<nat>)
    requires level < |L| && Numbers(L, n) && f.number < n && Present(L, tables) && f.number in tables
    ensures Numbers(AddFile(L, level, f), n) && Present(AddFile(L, level, f), tables)
  {
    var L' := AddFile(L, level, f);
    forall l: nat, g: File | l < |L'| && g in L'[l] ensures g == f || g in L[l] {}
  }

  lemma CommitFlushInv(s: State, s': State)
    requires Inv(s) && CommitFlush(s, s')
    ensures Inv(s')
  {
    var d, d', p, p' := s.disk, s'.disk, s.proc, s'.proc;
    CommitFlushDisk(d, d', p, Hist(s), s.floor);
    assert InFlight(p') == InFlight(p);
    assert LogsMatch(d', p');
    assert CountersOk(d', p', Hist(s'));
    LedgerSame(s, s');
  }

  lemma LedgerSame(s: State, s': State)
    requires LedgerOk(s) && s.proc.Up? && s'.proc.Up? && s'.proc.write == s.proc.write
    requires s'.history == s.history && s'.acked == s.acked && s'.interrupted == s.interrupted
    ensures LedgerOk(s')
  {}

  // ---- Preservation: compaction ----

  lemma BuildCompactionInv(s: State, s': State, level: nat, in0: set<File>, in1: set<File>, outs: set<File>,
        smallest: nat, nextFile: nat)
    requires Inv(s) && BuildCompaction(s, s', level, in0, in1, outs, smallest, nextFile)
    ensures Inv(s')
  {
    MoreTables(s.disk, s'.disk, Hist(s), s.floor);
    assert InFlight(s'.proc) == InFlight(s.proc);
    assert LogsMatch(s'.disk, s'.proc);
    assert JobOk(s'.disk, s'.proc);
    assert CountersOk(s'.disk, s'.proc, Hist(s'));
  }

  lemma InstalledFiles(L: seq<set<File>>, level: nat, in0: set<File>, in1: set<File>, outs: set<File>, n: nat,
        tables: set<nat>)
    requires level + 1 < |L| && Numbers(L, n) && Present(L, tables)
    requires forall f :: f in outs ==> f.number < n && f.number in tables
    ensures Numbers(Installed(L, level, in0, in1, outs), n) && Present(Installed(L, level, in0, in1, outs), tables)
  {
    var L' := Installed(L, level, in0, in1, outs);
    forall l: nat, g: File | l < |L'| && g in L'[l] ensures g in outs || g in L[l] {}
  }

  lemma CommitCompactionReads(d: Disk, d': Disk, p: Process, hist: set<Entry>, floor: nat)
    requires DiskOk(d, hist, floor) && p.Up? && UpOk(d, p, hist) && p.job.Compacting? && !p.job.committed
    requires d' == d.(L := Installed(p.L, p.job.level, p.job.in0, p.job.in1, p.job.outs), lastSeq := p.lastSeq,
             nextFile := p.nextFile)
    ensures LogEntries(d') == LogEntries(d) && All(d'.L) <= All(d.L)
    ensures SameAnswers(OnDisk(d'), hist, if floor < p.job.smallest then p.job.smallest else floor)
  {
    var j := p.job;
    assert LogEntries(d') == LogEntries(d);
    InstalledEntries(p.L, j.level, j.in0, j.in1, j.outs);
    CompactionKeepsReads(LogEntries(d), p.L, j.level, j.in0, j.in1, j.outs, j.smallest);
    SameAnswersTrans(OnDisk(d), OnDisk(d'), hist, floor, j.smallest);
  }

  lemma CommitCompactionDisk(d: Disk, d': Disk, p: Process, hist: set<Entry>, floor: nat)
    requires DiskOk(d, hist, floor) && p.Up? && UpOk(d, p, hist) && p.job.Compacting? && !p.job.committed
    requires d' == d.(L := Installed(p.L, p.job.level, p.job.in0, p.job.in1, p.job.outs), lastSeq := p.lastSeq,
             nextFile := p.nextFile)
    ensures DiskOk(d', hist, if floor < p.job.smallest then p.job.smallest else floor)
  {
    var j := p.job;
    CommitCompactionReads(d, d', p, hist, floor);
    InstallKeepsLayout(p.L, j.level, j.in0, j.in1, j.outs);
    InstalledFiles(p.L, j.level, j.in0, j.in1, j.outs, p.nextFile, d.tables);
    assert DiskLogsOk(d');
  }

  lemma CommitCompactionInv(s: State, s': State)
    requires Inv(s) && CommitCompaction(s, s')
    ensures Inv(s')
  {
    var d, d', p, p' := s.disk, s'.disk, s.proc, s'.proc;
    CommitCompactionDisk(d, d', p, Hist(s), s.floor);
    assert InFlight(p') == InFlight(p);
    assert LogsMatch(d', p');
    assert CountersOk(d', p', Hist(s'));
  }

  lemma InstallEditInv(s: State, s': State)
    requires Inv(s) && InstallEdit(s, s')
    ensures Inv(s')
  {
    var d, p, p' := s.disk, s.proc, s'.proc;
    assert InFlight(p') == InFlight(p);
    assert LogsMatch(d, p');
    InstallNumbers(d, p);
    assert CountersOk(d, p', Hist(s'));
  }

  lemma InstallNumbers(d: Disk, p: Process)
    requires Numbers(d.L, d.nextFile) && p.Up? && d.nextFile <= p.nextFile
    ensures Numbers(d.L, p.nextFile)
  {}

  // ---- Preservation: deletion, pinning, crash ----

  lemma DeleteLogDisk(d: Disk, d': Disk, n: nat, hist: set<Entry>, floor: nat)
    requires DiskOk(d, hist, floor) && n < d.logNumber && d' == d.(logs := d.logs - {n})
    ensures DiskOk(d', hist, floor)
    ensures forall hi :: LogRange(d'.logs, d.logNumber, hi) == LogRange(d.logs, d.logNumber, hi)
  {
    forall e ensures e in LogEntries(d') <==> e in LogEntries(d) {
      if e in LogEntries(d) {
        var m: nat, g: Group :| m in d.logs && d.logNumber <= m && g in d.logs[m] && e in g;
        assert m in d'.logs;
      }
    }
    forall hi: nat ensures LogRange(d'.logs, d.logNumber, hi) == LogRange(d.logs, d.logNumber, hi) {
      RangeWithout(d.logs, d'.logs, n, d.logNumber, hi);
    }
    assert DiskLogsOk(d');
    DiskSame(d, d', hist, floor);
  }

  lemma RangeWithout(a: map<nat, seq<Group>>, b: map<nat, seq<Group>>, n: nat, lo: nat, hi: nat)
    requires n < lo && b == a - {n}
    ensures LogRange(b, lo, hi) == LogRange(a, lo, hi)
  {
    forall e ensures e in LogRange(b, lo, hi) <==> e in LogRange(a, lo, hi) {
      if e in LogRange(a, lo, hi) {
        var m: nat, g: Group :| m in a && lo <= m < hi && g in a[m] && e in g;
        assert m in b;
      }
    }
  }

  lemma DeleteLogInv(s: State, s': State, n: nat)
    requires Inv(s) && DeleteLog(s, s', n)
    ensures Inv(s')
  {
    DeleteLogDisk(s.disk, s'.disk, n, Hist(s), s.floor);
    assert LogsMatch(s'.disk, s'.proc);
  }

  lemma DeleteTableInv(s: State, s': State, n: nat)
    requires Inv(s) && DeleteTable(s, s', n)
    ensures Inv(s')
  {
    assert LogEntries(s'.disk) == LogEntries(s.disk);
    DeletePresent(s.proc.L, s.disk.tables, n);
    forall L | L in s.proc.pinned ensures Present(L, s'.disk.tables) {
      DeletePresent(L, s.disk.tables, n);
    }
    DiskSame(s.disk, s'.disk, Hist(s), s.floor);
    assert LogsMatch(s'.disk, s'.proc);
  }

  lemma DeletePresent(L: seq<set<File>>, tables: set<nat>, n: nat)
    requires Present(L, tables) && Unused(L, n)
    ensures Present(L, tables - {n})
  {}

  lemma PinInv(s: State, s': State)
    requires Inv(s) && (Pin(s, s') || exists L :: Unpin(s, s', L))
    ensures Inv(s')
  {
    assert InFlight(s'.proc) == InFlight(s.proc) && ImmSet(s'.proc) == ImmSet(s.proc);
  }

  // ---- Preservation: recovery ----

  lemma AbandonInv(s: State, s': State, tables: set<nat>, n: nat)
    requires Inv(s) && AbandonRecovery(s, s', tables, n)
    ensures Inv(s')
  {
    DiskGrows(s.disk, s'.disk, Hist(s), s.floor, n);
  }

  lemma ReplayedOwnSeqs(files: seq<File>, hist: set<Entry>)
    requires FilesSet(files) <= hist && DistinctSeqs(hist)
    ensures forall f :: f in files ==> OwnSeqs(f)
  {
    forall f | f in files ensures OwnSeqs(f) {
      forall d, e | d in f.entries && e in f.entries && d.sn == e.sn ensures d == e {
        assert d in FilesSet(files) && e in FilesSet(files);
      }
    }
  }

  /** The recovered version: in order, and with exactly what was on disk. */
  lemma RecoveredVersion(d: Disk, files: seq<File>, n: nat, hist: set<Entry>, floor: nat)
    requires DiskOk(d, hist, floor) && FilesOkInOrder(files, d.nextFile + 1, n) && FilesSet(files) == LogEntries(d)
    ensures var L := WithFiles(d.L, files, |files|);
            Layout(L) && All(L) == OnDisk(d) && Numbers(L, n)
  {
    ReplayedVersion(d.L, files, LogEntries(d), d.nextFile, n, hist);
  }

  lemma ReplayedVersion(L: seq<set<File>>, files: seq<File>, logged: set<Entry>, nextFile: nat, n: nat,
        hist: set<Entry>)
    requires Layout(L) && Numbers(L, nextFile) && FilesOkInOrder(files, nextFile + 1, n) && FilesSet(files) == logged
    requires OlderThan(All(L), logged) && All(L) + logged <= hist && DistinctSeqs(hist)
    ensures var L' := WithFiles(L, files, |files|);
            Layout(L') && All(L') == All(L) + logged && Numbers(L', n)
  {
    ReplayedOwnSeqs(files, hist);
    NumbersBelow(L, nextFile, nextFile + 1);
    ReplayKeepsLayout(L, files, nextFile + 1, n);
  }

  lemma {:induction false} ReplayedPresent(L: seq<set<File>>, files: seq<File>, n: nat, tables: set<nat>)
    requires |L| == NUM_LEVELS && n <= |files| && Present(L, tables) && forall f :: f in files ==> f.number in tables
    ensures Present(WithFiles(L, files, n), tables)
  {
    if n > 0 {
      ReplayedPresent(L, files, n - 1, tables);
      var L1, L' := WithFiles(L, files, n - 1), WithFiles(L, files, n);
      forall l: nat, g: File | l < |L'| && g in L'[l] ensures g in L1[l] || g == files[n - 1] {}
    }
  }

  lemma OnlyEmptyLog(d: Disk, d': Disk, n: nat)
    requires (forall m :: m in d.logs ==> m < n) && d'.logs == d.logs[n := []] && d'.logNumber == n
    ensures LogEntries(d') == {} && DiskLogsOk(d') && LogRange(d'.logs, n, n) == {} && LogSet(d'.logs[n]) == {}
  {}

  lemma RecoverDisk(s: State, s': State, files: seq<File>, maxSeq: nat, n: nat)
    requires DiskOk(s.disk, Hist(s), s.floor) && Recover(s, s', files, maxSeq, n)
    ensures DiskOk(s'.disk, Hist(s), s.floor)
  {
    var d, d' := s.disk, s'.disk;
    RecoveredVersion(d, files, n, Hist(s), s.floor);
    ReplayedPresent(d.L, files, |files|, d'.tables);
    OnlyEmptyLog(d, d', n);
    assert OnDisk(d') == OnDisk(d);
    DiskSame(d, d', Hist(s), s.floor);
  }

  /** A process that has just opened a disk whose logs are all empty. */
  lemma FreshUp(d: Disk, hist: set<Entry>)
    requires Numbers(d.L, d.nextFile) && Present(d.L, d.tables) && d.logNumber < d.nextFile
    requires d.logNumber in d.logs && (forall m :: m in d.logs ==> m <= d.logNumber)
    requires LogRange(d.logs, d.logNumber, d.logNumber) == {} && LogSet(d.logs[d.logNumber]) == {}
    requires forall e :: e in hist ==> e.sn <= d.lastSeq
    ensures UpOk(d, Opened(d), hist)
  {
    var p := Opened(d);
    assert InFlight(p) == {} && ImmSet(p) == {};
  }

  lemma RecoverInv(s: State, s': State, files: seq<File>, maxSeq: nat, n: nat)
    requires Inv(s) && Recover(s, s', files, maxSeq, n)
    ensures Inv(s')
  {
    RecoverDisk(s, s', files, maxSeq, n);
    RecoverUp(s, s', files, maxSeq, n);
  }

  lemma RecoverUp(s: State, s': State, files: seq<File>, maxSeq: nat, n: nat)
    requires Recover(s, s', files, maxSeq, n) && DiskOk(s'.disk, Hist(s), s.floor)
    ensures UpOk(s'.disk, s'.proc, Hist(s))
  {
    OnlyEmptyLog(s.disk, s'.disk, n);
    FreshUp(s'.disk, Hist(s));
  }

  // ---- Whole runs ----

  lemma InitInv(s: State)
    requires Init(s)
    ensures Inv(s)
  {
    assert All(s.disk.L) == {} && LogEntries(s.disk) == {} && Hist(s) == {};
    assert OnDisk(s.disk) == {};
  }

  lemma WriteStepsInv(s: State, s': State)
    requires Inv(s) && ((exists g :: BeginWrite(s, s', g)) || AppendLog(s, s') || Acknowledge(s, s') || Switch(s, s'))
    ensures Inv(s')
  {
    if g :| BeginWrite(s, s', g) {
      BeginWriteInv(s, s', g);
    } else if AppendLog(s, s') {
      AppendLogInv(s, s');
    } else if Acknowledge(s, s') {
      AcknowledgeInv(s, s');
    } else {
      SwitchInv(s, s');
    }
  }

  ghost predicate BackgroundStep(s: State, s': State) {
    || (exists level, f :: BuildFlush(s, s', level, f)) || FlushEmpty(s, s')
    || (exists level, in0, in1, outs, smallest, nextFile ::
       BuildCompaction(s, s', level, in0, in1, outs, smallest, nextFile))
    || CommitFlush(s, s') || CommitCompaction(s, s') || InstallEdit(s, s')
  }

  lemma BackgroundStepsInv(s: State, s': State)
    requires Inv(s) && BackgroundStep(s, s')
    ensures Inv(s')
  {
    if level, f :| BuildFlush(s, s', level, f) {
      BuildFlushInv(s, s', level, f);
    } else if FlushEmpty(s, s') {
      FlushEmptyInv(s, s');
    } else if level, in0, in1, outs, smallest, nextFile :| BuildCompaction(s, s', level, in0, in1, outs, smallest,
        nextFile) {
      BuildCompactionInv(s, s', level, in0, in1, outs, smallest, nextFile);
    } else if CommitFlush(s, s') {
      CommitFlushInv(s, s');
    } else if CommitCompaction(s, s') {
      CommitCompactionInv(s, s');
    } else {
      InstallEditInv(s, s');
    }
  }

  lemma NextInv(s: State, s': State)
    requires Inv(s) && Next(s, s')
    ensures Inv(s')
  {
    if BackgroundStep(s, s') {
      BackgroundStepsInv(s, s');
    } else if n :| DeleteLog(s, s', n) {
      DeleteLogInv(s, s', n);
    } else if n :| DeleteTable(s, s', n) {
      DeleteTableInv(s, s', n);
    } else if Pin(s, s') || exists L :: Unpin(s, s', L) {
      PinInv(s, s');
    } else if Crash(s, s') {
    } else if tables, n :| AbandonRecovery(s, s', tables, n) {
      AbandonInv(s, s', tables, n);
    } else if files, maxSeq, n :| Recover(s, s', files, maxSeq, n) {
      RecoverInv(s, s', files, maxSeq, n);
    } else {
      WriteStepsInv(s, s');
    }
  }

  ghost predicate Run(trace: seq<State>) {
    && |trace| > 0 && Init(trace[0])
    && forall i :: 0 <= i < |trace| - 1 ==> Next(trace[i], trace[i + 1])
  }

  lemma {:induction false} RunInv(trace: seq<State>, n: nat)
    requires Run(trace) && n < |trace|
    ensures Inv(trace[n])
  {
    if n == 0 {
      InitInv(trace[0]);
    } else {
      RunInv(trace, n - 1);
      NextInv(trace[n - 1], trace[n]);
    }
  }

  /** The crash theorem.  Let the process die at any moment of any run, however
      many crashes and recoveries came before.  Then no table the manifest
      names is missing, the sequence number recovery restores is at least that
      of every group ever logged, and the recovered database answers every key
      exactly as all the logged groups do: the acknowledged ones, and of one
      that was in flight either the whole group or nothing. */
  lemma CrashLosesNothing(trace: seq<State>, n: nat, s': State, files: seq<File>, maxSeq: nat, log: nat, k: UserKey)
    requires Run(trace) && n < |trace|
    requires Recover(Crashed(trace[n]), s', files, maxSeq, log)
    ensures Present(trace[n].disk.L, trace[n].disk.tables)
    ensures s'.proc.Up? && Layout(s'.proc.L)
    ensures forall e :: e in Hist(trace[n]) ==> e.sn <= s'.proc.lastSeq
    ensures Read(All(s'.proc.L), k, s'.proc.lastSeq) == Read(LogSet(trace[n].history), k, s'.proc.lastSeq)
    ensures forall g :: g in trace[n].history <==> g in s'.acked || g in s'.interrupted
    ensures s'.acked == trace[n].acked
    ensures s'.interrupted == Crashed(trace[n]).interrupted
  {
    RunInv(trace, n);
    CrashedDisk(trace[n]);
    RecoverReads(Crashed(trace[n]), s', files, maxSeq, log, k);
    RecoverSequences(Crashed(trace[n]), s', files, maxSeq, log);
    RecoverLedger(trace[n], s', files, maxSeq, log);
  }

  lemma CrashedDisk(s: State)
    requires Inv(s)
    ensures Present(s.disk.L, s.disk.tables)
    ensures DiskOk(Crashed(s).disk, Hist(Crashed(s)), Crashed(s).floor) && Hist(Crashed(s)) == Hist(s)
  {}

  lemma RecoverSequences(s: State, s': State, files: seq<File>, maxSeq: nat, log: nat)
    requires DiskOk(s.disk, Hist(s), s.floor) && Recover(s, s', files, maxSeq, log)
    ensures s'.proc.Up? && forall e :: e in Hist(s) ==> e.sn <= s'.proc.lastSeq
  {}

  lemma RecoverLedger(s: State, s': State, files: seq<File>, maxSeq: nat, log: nat)
    requires LedgerOk(s) && Recover(Crashed(s), s', files, maxSeq, log)
    ensures forall g :: g in s.history <==> g in s'.acked || g in s'.interrupted
    ensures s'.acked == s.acked && s'.interrupted == Crashed(s).interrupted
  {
    assert LedgerOk(Crashed(s));
  }

  lemma RecoverReads(s: State, s': State, files: seq<File>, maxSeq: nat, log: nat, k: UserKey)
    requires DiskOk(s.disk, Hist(s), s.floor) && Recover(s, s', files, maxSeq, log)
    ensures s'.proc.Up? && Layout(s'.proc.L) && s'.proc.lastSeq >= s.floor
    ensures Read(All(s'.proc.L), k, s'.proc.lastSeq) == Read(Hist(s), k, s'.proc.lastSeq)
  {
    RecoveredVersion(s.disk, files, log, Hist(s), s.floor);
    assert s'.proc.lastSeq >= s.floor;
    assert Read(OnDisk(s.disk), k, s'.proc.lastSeq) == Read(Hist(s), k, s'.proc.lastSeq);
  }

  /** No table a live reader may open is ever deleted. */
  lemma PinnedTablesPresent(trace: seq<State>, n: nat, L: seq<set<File>>)
    requires Run(trace) && n < |trace| && trace[n].proc.Up? && (L in trace[n].proc.pinned || L == trace[n].proc.L)
    ensures Present(L, trace[n].disk.tables)
  {
    RunInv(trace, n);
  }

  /** The logs in the order recovery replays them. */
  ghost predicate ReplayOrder(d: Disk, order: seq<nat>, logs: seq<seq<Group>>) {
    && |order| == |logs|
    && (forall i, j :: 0 <= i < j < |order| ==> order[i] < order[j])
    && (forall n :: n in order <==> n in d.logs && d.logNumber <= n)
    && (forall i :: 0 <= i < |order| ==> order[i] in d.logs && d.logNumber <= order[i] && logs[i] == d.logs[order[i]])
  }

  lemma ReplaySet(d: Disk, order: seq<nat>, logs: seq<seq<Group>>)
    requires ReplayOrder(d, order, logs)
    ensures LogsSet(logs) == LogEntries(d)
  {
    forall e ensures e in LogsSet(logs) <==> e in LogEntries(d) {
      if e in LogEntries(d) {
        var n: nat, g: Group :| n in d.logs && d.logNumber <= n && g in d.logs[n] && e in g;
        assert n in order;
        var i :| 0 <= i < |order| && order[i] == n;
        assert logs[i] in logs;
      }
      if e in LogsSet(logs) {
        var log, g :| log in logs && g in log && e in g;
        var i :| 0 <= i < |logs| && logs[i] == log;
      }
    }
  }

  /** What the replay code computes is what the Recover step asks for. */
  lemma ReplayMeetsRecover(d: Disk, order: seq<nat>, logs: seq<seq<Group>>)
    requires DiskLogsOk(d) && ReplayOrder(d, order, logs)
    ensures LogsOk(logs) && LogsSet(logs) == LogEntries(d)
  {
    ReplaySet(d, order, logs);
    forall i, j | 0 <= i < j < |logs| ensures OlderThan(LogSet(logs[i]), LogSet(logs[j])) {
      assert order[i] < order[j];
    }
  }
}
