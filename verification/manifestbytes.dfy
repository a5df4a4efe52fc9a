/** The manifest as a file: encoded edits in a log, read back by Recover. */
module ManifestBytes {
  import opened Keys
  import opened Mvcc
  import opened Levels
  import opened Coding
  import opened Comparators
  import opened DbFormat
  import E = Edits
  import opened Log
  import P = LogPrefix
  import opened Manifest
  import opened ManifestRun

  // ---- From bytes to edits ----

  function KeyFrom(b: Bytes): InternalKey {
    Ranked(DecodeKey(b))
  }

  /** What the table files hold, by number. */
  type Tables = nat -> seq<Entry>

  function FileFrom(tables: Tables, m: E.Meta): File {
    File(m.number, m.size, KeyFrom(m.smallest), KeyFrom(m.largest), tables(m.number))
  }

  function EditFrom(tables: Tables, e: E.Edit): Edit {
    Edit(e.comparator, e.logNumber, e.prevLogNumber, e.nextFile, e.lastSequence,
         seq(|e.pointers|, i requires 0 <= i < |e.pointers| => (e.pointers[i].0, KeyFrom(e.pointers[i].1))),
         e.deleted,
         seq(|e.newFiles|, i requires 0 <= i < |e.newFiles| => (e.newFiles[i].0, FileFrom(tables, e.newFiles[i].1))))
  }

  const EMPTY: E.Edit := E.Edit(None, None, None, None, None, [], {}, [])

  function DecodeRecord(record: Bytes): E.Decoded {
    E.DecodeFields(record, EMPTY)
  }

  ghost predicate AllDecode(records: seq<Bytes>) {
    forall i :: 0 <= i < |records| ==> DecodeRecord(records[i]).Ok?
  }

  ghost function EditsFrom(tables: Tables, records: seq<Bytes>): seq<Edit>
    requires AllDecode(records)
  {
    seq(|records|, i requires 0 <= i < |records| => EditFrom(tables, DecodeRecord(records[i]).edit))
  }

  predicate LevelIn(f: E.Field) {
    match f
    case CompactPointer(level, _) => level < NUM_LEVELS
    case DeletedFile(level, _) => level < NUM_LEVELS
    case NewFile(level, _) => level < NUM_LEVELS
    case _ => true
  }

  /** GetLevel refuses levels out of range. */
  lemma FieldLevel(input: Bytes)
    requires E.NextField(input).Good?
    ensures LevelIn(E.NextField(input).field)
  {
    var tag, body := GetVarint32(input).value, GetVarint32(input).rest;
    assert E.DecodeBody(tag, body).Good? ==> LevelIn(E.DecodeBody(tag, body).field);
  }

  lemma SetLevel(e: E.Edit, f: E.Field)
    requires LevelsIn(e) && LevelIn(f)
    ensures LevelsIn(E.SetField(e, f))
  {}

  lemma {:induction false} DecodedLevels(input: Bytes, e: E.Edit)
    requires E.DecodeFields(input, e).Ok? && LevelsIn(e)
    ensures LevelsIn(E.DecodeFields(input, e).edit)
    decreases |input|
  {
    var next := E.NextField(input);
    if next.Good? {
      FieldLevel(input);
      SetLevel(e, next.field);
      DecodedLevels(next.rest, E.SetField(e, next.field));
    }
  }

  ghost predicate LevelsIn(e: E.Edit) {
    && (forall p :: p in e.pointers ==> p.0 < NUM_LEVELS)
    && (forall d :: d in e.deleted ==> d.0 < NUM_LEVELS)
    && (forall f :: f in e.newFiles ==> f.0 < NUM_LEVELS)
  }

  lemma RecordLevels(tables: Tables, record: Bytes)
    requires DecodeRecord(record).Ok?
    ensures EditLevels(EditFrom(tables, DecodeRecord(record).edit))
  {
    DecodedLevels(record, EMPTY);
    var e := DecodeRecord(record).edit;
    assert LevelsIn(e);
    forall i | 0 <= i < |e.pointers| ensures e.pointers[i].0 < NUM_LEVELS {
      assert e.pointers[i] in e.pointers;
    }
    forall i | 0 <= i < |e.newFiles| ensures e.newFiles[i].0 < NUM_LEVELS {
      assert e.newFiles[i] in e.newFiles;
    }
  }

  // ---- Reading the file ----

  datatype Read = ReadOk(edits: seq<Edit>) | ReadError(msg: string)

  /** The reading loop of VersionSet::Recover. */
  method ReadManifest(crc: Checksum, file: Bytes, tables: Tables) returns (r: Read)
    ensures var all := P.ReadAll(crc, file, Cursor(0, [], false), [], []);
            if AllDecode(all.0) && all.1 == []
            then r == ReadOk(EditsFrom(tables, all.0)) && forall e :: e in r.edits ==> EditLevels(e)
            else r.ReadError?
  {
    var reader := new Reader(crc, file);
    ghost var all := P.ReadAll(crc, file, reader.Now(), [], []);
    ghost var got: seq<Bytes> := [];
    var edits: seq<Edit> := [];
    var more := true;
    while more
      invariant reader.Valid() && reader.file == file && reader.crc == crc && fresh(reader)
      invariant more ==> all == P.ReadAll(crc, file, reader.Now(), got, reader.reports)
      invariant !more ==> all == (got, reader.reports)
      invariant AllDecode(got) && edits == EditsFrom(tables, got) && forall e :: e in edits ==> EditLevels(e)
      decreases more, Left(file, reader.Now())
    {
      ghost var l := ReadLogical(crc, file, reader.Now(), None, reader.reports);
      var record := reader.ReadRecord();
      if record.None? {
        more := false;
      } else {
        var decoded := E.DecodeFrom(record.value, EMPTY);
        if decoded.Corruption? {
          Undecoded(crc, file, reader.Now(), got + [record.value], reader.reports, |got|);
          return ReadError(decoded.msg);
        }
        RecordLevels(tables, record.value);
        edits := edits + [EditFrom(tables, decoded.edit)];
        got := got + [record.value];
      }
    }
    if reader.reports != [] {
      return ReadError("corruption in descriptor");
    }
    r := ReadOk(edits);
  }

  /** Records once read stay in the list. */
  lemma {:induction false} Undecoded(crc: Checksum, file: Bytes, c: Cursor, got: seq<Bytes>, said: seq<nat>, i: nat)
    requires c.taken <= |file| && i < |got| && !DecodeRecord(got[i]).Ok?
    ensures !AllDecode(P.ReadAll(crc, file, c, got, said).0)
    decreases Left(file, c)
  {
    var l := ReadLogical(crc, file, c, None, said);
    if l.record.Some? {
      Undecoded(crc, file, l.next, got + [l.record.value], l.reports, i);
    }
  }

  /** VersionSet::Recover on the bytes of the manifest. */
  method RecoverFile(crc: Checksum, file: Bytes, tables: Tables, name: Bytes)
        returns (r: Recovered, ghost edits: seq<Edit>)
    ensures var all := P.ReadAll(crc, file, Cursor(0, [], false), [], []);
            if AllDecode(all.0) && all.1 == [] then edits == EditsFrom(tables, all.0) else r.RecoverError?
    ensures r.RecoveredSet? ==> (forall e :: e in edits ==> EditLevels(e)) && Recovers(edits, name, r)
    ensures AllDecode(P.ReadAll(crc, file, Cursor(0, [], false), [], []).0)
            && P.ReadAll(crc, file, Cursor(0, [], false), [], []).1 == [] ==>
              (r.RecoverError? <==> Refused(edits, name))
  {
    var read := ReadManifest(crc, file, tables);
    if read.ReadError? {
      return RecoverError(read.msg), [];
    }
    edits := read.edits;
    r := Recover(read.edits, name);
  }

  ghost predicate Refused(edits: seq<Edit>, name: Bytes) {
    || (exists e :: e in edits && Mismatch(e, name))
    || Latest(edits, |edits|, NextFileOf).None? || Latest(edits, |edits|, LogNumberOf).None?
       || Latest(edits, |edits|, LastSequenceOf).None?
  }

  /** What Recover promises of a list of edits it accepts. */
  ghost predicate Recovers(edits: seq<Edit>, name: Bytes, r: Recovered)
    requires r.RecoveredSet? && forall e :: e in edits ==> EditLevels(e)
  {
    && !Refused(edits, name)
    && Some(r.logNumber) == Latest(edits, |edits|, LogNumberOf)
       && Some(r.lastSequence) == Latest(edits, |edits|, LastSequenceOf)
    && Some(r.manifestNumber) == Latest(edits, |edits|, NextFileOf) && r.nextFile == r.manifestNumber + 1
    && r.prevLogNumber == (match Latest(edits, |edits|, PrevLogNumberOf) case None => 0 case Some(n) => n)
    && r.pointers == PointersThrough(NoPointers(), edits, |edits|)
    && (NoReentry(Nothing(), edits, |edits|) ==> Rebuilt(Nothing(), edits, r.levels))
  }

  // ---- What was written ----

  /** How the edits went into the file: the stored form of each, and the order in
      which its deletions were written. */
  datatype Stored = Stored(edit: E.Edit, listing: seq<(nat, nat)>)

  ghost predicate StoredOk(s: Stored) {
    E.EditOk(s.edit) && E.Lists(s.listing, s.edit.deleted)
  }

  ghost function RecordOf(s: Stored): Bytes
    requires StoredOk(s)
  {
    E.EditFieldsOk(s.edit, s.listing);
    E.Encode(E.Fields(s.edit, s.listing))
  }

  lemma RecordDecodes(s: Stored)
    requires StoredOk(s)
    ensures DecodeRecord(RecordOf(s)) == E.Ok(s.edit)
  {
    E.EditRoundTrip(s.edit, s.listing, EMPTY);
    assert E.Clear(EMPTY) == EMPTY;
  }

  ghost function RecordsOf(ss: seq<Stored>): seq<Bytes>
    requires forall s :: s in ss ==> StoredOk(s)
  {
    seq(|ss|, i requires 0 <= i < |ss| => RecordOf(ss[i]))
  }

  /** The manifest of the version set, stored. */
  ghost predicate Stores(tables: Tables, ss: seq<Stored>, es: seq<Edit>) {
    && (forall s :: s in ss ==> StoredOk(s))
    && |ss| == |es| && forall i :: 0 <= i < |es| ==> EditFrom(tables, ss[i].edit) == es[i]
  }

  lemma PrefixDecodes(tables: Tables, ss: seq<Stored>, es: seq<Edit>, m: nat)
    requires Stores(tables, ss, es) && m <= |es|
    ensures AllDecode(RecordsOf(ss)[..m]) && EditsFrom(tables, RecordsOf(ss)[..m]) == es[..m]
  {
    var rs := RecordsOf(ss)[..m];
    forall i | 0 <= i < m ensures DecodeRecord(rs[i]) == E.Ok(ss[i].edit) {
      assert ss[i] in ss && rs[i] == RecordOf(ss[i]);
      RecordDecodes(ss[i]);
    }
  }

  // ---- The manifest of every prefix is that of an earlier state ----

  lemma {:induction false} PrefixState(trace: seq<VersionSet>, name: Bytes, n: nat, m: nat) returns (k: nat)
    requires Run(trace, name) && n < |trace| && 2 <= m <= |trace[n].manifest|
    ensures k <= n && trace[k].manifest == trace[n].manifest[..m]
  {
    var es := trace[n].manifest;
    if m == |es| {
      assert es[..m] == es;
      k := n;
    } else {
      assert n > 0;
      var vs, vs' := trace[n - 1], trace[n];
      assert Next(vs, vs', name);
      StepGrows(vs, vs', name);
      k := PrefixState(trace, name, n - 1, m);
      assert vs.manifest[..m] == es[..m];
    }
  }

  /** A step appends one record, or two to an empty manifest, or none. */
  lemma StepGrows(vs: VersionSet, vs': VersionSet, name: Bytes)
    requires Next(vs, vs', name)
    ensures |vs.manifest| <= |vs'.manifest| && vs'.manifest[..|vs.manifest|] == vs.manifest
    ensures |vs'.manifest| <= |vs.manifest| + 1 || (vs.manifest == [] && |vs'.manifest| == 2)
  {
    if e :| LogAndApply(vs, vs', e, name) {
      assert |vs'.manifest[|vs.manifest|..]| <= 2;
    }
  }

  /** With one record or none, a snapshot at most, the counters are missing. */
  lemma {:induction false} FirstIsSnapshot(trace: seq<VersionSet>, name: Bytes, n: nat)
    requires Run(trace, name) && n < |trace| && trace[n].manifest != []
    ensures Latest(trace[n].manifest[..1], 1, NextFileOf).None? && |trace[n].manifest| >= 2
  {
    assert n > 0;
    var vs, vs' := trace[n - 1], trace[n];
    assert Next(vs, vs', name);
    StepGrows(vs, vs', name);
    if vs.manifest != [] {
      FirstIsSnapshot(trace, name, n - 1);
      assert vs'.manifest[..1] == vs.manifest[..1];
    } else {
      var e :| LogAndApply(vs, vs', e, name);
      assert vs'.manifest[0..] == vs'.manifest;
      assert IsSnapshot(vs'.manifest[0], vs.levels, PointersAfter(vs.pointers, e.pointers, |e.pointers|), name);
      assert vs'.manifest[..1][0] == vs'.manifest[0];
      assert Latest(vs'.manifest[..1], 0, NextFileOf).None?;
    }
  }

  /** What a reopening gives back of a state. */
  ghost predicate GivesBack(r: Recovered, vs: VersionSet, name: Bytes) {
    && r.RecoveredSet?
    && r.levels == vs.levels && r.pointers == vs.pointers
    && r.logNumber == vs.logNumber && r.prevLogNumber == vs.prevLogNumber
    && r.manifestNumber <= vs.nextFile && r.lastSequence <= vs.lastSequence
    && Run([Reopened(r)], name)
  }

  lemma RecoversState(vs: VersionSet, name: Bytes, r: Recovered)
    requires Inv(vs, name) && vs.manifest != [] && r.RecoveredSet? && Recovers(vs.manifest, name, r)
    ensures GivesBack(r, vs, name)
  {
    SameLevels(vs.manifest, r.levels, vs.levels);
    StartsAgain(vs, r, name);
  }

  /** An unrefused manifest: the state's own counters are in it. */
  lemma NotRefused(vs: VersionSet, name: Bytes)
    requires Inv(vs, name) && vs.manifest != []
    ensures !Refused(vs.manifest, name)
  {}

  /** Reading a cut file gives the edits whose records are whole. */
  lemma ReadsPrefix(tables: Tables, ss: seq<Stored>, es: seq<Edit>, crc: Checksum, file: Bytes) returns (m: nat)
    requires ChecksumOk(crc) && Stores(tables, ss, es) && file <= P.Written(crc, RecordsOf(ss), |ss|)
    ensures m == P.Ended(crc, RecordsOf(ss), |ss|, |file|) && m <= |es|
    ensures file == P.Written(crc, RecordsOf(ss), |ss|) ==> m == |es|
    ensures var all := P.ReadAll(crc, file, Cursor(0, [], false), [], []);
            AllDecode(all.0) && all.1 == [] && EditsFrom(tables, all.0) == es[..m]
  {
    var rs := RecordsOf(ss);
    m := P.Ended(crc, rs, |rs|, |file|);
    P.CrashPrefix(crc, rs, file, Cursor(0, [], false));
    PrefixDecodes(tables, ss, es, m);
  }

  /** What Recover does with a prefix of the manifest of a run. */
  lemma PrefixRecovers(trace: seq<VersionSet>, name: Bytes, n: nat, m: nat, r: Recovered) returns (k: nat)
    requires Run(trace, name) && n < |trace| && trace[n].manifest != [] && m <= |trace[n].manifest|
    requires r.RecoverError? <==> Refused(trace[n].manifest[..m], name)
    requires r.RecoveredSet? ==> (forall e :: e in trace[n].manifest[..m] ==> EditLevels(e))
                                 && Recovers(trace[n].manifest[..m], name, r)
    ensures r.RecoverError? <==> m < 2
    ensures m >= 2 ==> k <= n && trace[k].manifest == trace[n].manifest[..m] && GivesBack(r, trace[k], name)
  {
    var es := trace[n].manifest;
    k := 0;
    FirstIsSnapshot(trace, name, n);
    if m >= 2 {
      k := PrefixState(trace, name, n, m);
      RunInv(trace, name, k);
      NotRefused(trace[k], name);
      RecoversState(trace[k], name, r);
    } else {
      assert m == 0 ==> es[..m] == [];
      assert Latest(es[..m], m, NextFileOf).None?;
    }
  }

  /** The manifest theorem on bytes.  Cut the manifest file of any run anywhere: if
      at least the first logged edit is whole, reopening gives back the version of an
      earlier state of the run, namely the one whose manifest holds exactly the
      whole records; otherwise it is refused.  Uncut, it is the current version. */
  method ReopenFile(ghost trace: seq<VersionSet>, ghost n: nat, ghost ss: seq<Stored>, crc: Checksum, file: Bytes,
        tables: Tables, name: Bytes)
      returns (r: Recovered, ghost m: nat, ghost k: nat)
    requires Run(trace, name) && n < |trace| && trace[n].manifest != [] && ChecksumOk(crc)
    requires Stores(tables, ss, trace[n].manifest)
    requires file <= P.Written(crc, RecordsOf(ss), |ss|)
    ensures m == P.Ended(crc, RecordsOf(ss), |ss|, |file|)
    ensures file == P.Written(crc, RecordsOf(ss), |ss|) ==> m == |trace[n].manifest|
    ensures r.RecoverError? <==> m < 2
    ensures m >= 2 ==> k <= n && m <= |trace[n].manifest| && trace[k].manifest == trace[n].manifest[..m]
                       && GivesBack(r, trace[k], name)
    ensures m == |trace[n].manifest| ==> GivesBack(r, trace[n], name)
  {
    m := ReadsPrefix(tables, ss, trace[n].manifest, crc, file);
    ghost var edits;
    r, edits := RecoverFile(crc, file, tables, name);
    k := PrefixRecovers(trace, name, n, m, r);
    if m == |trace[n].manifest| {
      WholeRecovers(trace, name, n, r);
    }
  }

  lemma WholeRecovers(trace: seq<VersionSet>, name: Bytes, n: nat, r: Recovered)
    requires Run(trace, name) && n < |trace| && trace[n].manifest != []
    requires var es := trace[n].manifest; r.RecoverError? <==> Refused(es[..|es|], name)
    requires var es := trace[n].manifest; r.RecoveredSet? ==> (forall e :: e in es[..|es|] ==> EditLevels(e))
                                                              && Recovers(es[..|es|], name, r)
    ensures GivesBack(r, trace[n], name)
  {
    var es := trace[n].manifest;
    assert es[..|es|] == es;
    RunInv(trace, name, n);
    NotRefused(trace[n], name);
    RecoversState(trace[n], name, r);
  }
}
