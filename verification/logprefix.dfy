/** Reading back what was logged: every record that ends inside the file, for
    every point at which the file may have been cut. */
module LogPrefix {
  import opened Keys
  import opened Mvcc
  import opened Coding
  import opened Log

  // ---- One physical record ----

  /** The cursor c is at position p of the file, in the block from `start`. */
  ghost predicate StandsAt(file: Bytes, c: Cursor, p: nat, start: int) {
    && start % BLOCK == 0 && start <= p <= start + BLOCK && p <= c.taken <= |file|
    && c.taken == (if |file| < start + BLOCK then |file| else start + BLOCK)
    && c.buffer == file[p..c.taken]
    && (c.eof <==> |file| < start + BLOCK)
  }

  /** The cursor of a new reader. */
  ghost predicate Fresh(c: Cursor) {
    c.taken == 0 && c.buffer == [] && !c.eof
  }

  /** The checksum of an intact chunk agrees. */
  lemma ChunkFields(crc: Checksum, t: Byte, payload: Bytes)
    requires ChecksumOk(crc) && |payload| < 65536
    ensures var k := Chunk(crc, t, payload);
            && LengthField(k[4], k[5]) == |payload| && k[6] == t && k[HEADER..] == payload
            && FromFixed(k[..4]) == crc(k[6..])
  {
    var k := Chunk(crc, t, payload);
    var sum := crc([t] + payload);
    assert k[..4] == Fixed32(sum);
    Fixed32RoundTrip(sum);
    assert k[6..] == [t] + payload;
  }

  /** A buffer that starts with a whole chunk yields its payload. */
  lemma ParseWhole(crc: Checksum, t: Byte, payload: Bytes, buffer: Bytes, eof: bool)
    requires ChecksumOk(crc) && |payload| < 65536 && t != 0
    requires HEADER + |payload| <= |buffer| && buffer[..HEADER + |payload|] == Chunk(crc, t, payload)
    ensures ParseBuffer(crc, buffer, eof) == Parse(Fragment(t, payload), HEADER + |payload|, [])
  {
    var k := Chunk(crc, t, payload);
    ChunkFields(crc, t, payload);
    assert buffer[4] == k[4] && buffer[5] == k[5] && buffer[6] == k[6];
    assert buffer[..4] == k[..4] && buffer[6..HEADER + |payload|] == k[6..]
           && buffer[HEADER..HEADER + |payload|] == k[HEADER..];
  }

  /** A torn chunk at the end of the file is the end. */
  lemma ParseTorn(crc: Checksum, t: Byte, payload: Bytes, buffer: Bytes)
    requires ChecksumOk(crc) && |payload| < 65536
    requires HEADER <= |buffer| < HEADER + |payload| && buffer == Chunk(crc, t, payload)[..|buffer|]
    ensures ParseBuffer(crc, buffer, true) == Parse(Eof, |buffer|, [])
  {
    var k := Chunk(crc, t, payload);
    ChunkFields(crc, t, payload);
    assert buffer[4] == k[4] && buffer[5] == k[5];
  }

  /** Reading a chunk that the file holds whole. */
  lemma ReadWhole(crc: Checksum, file: Bytes, c: Cursor, p: nat, start: int, t: Byte, payload: Bytes)
    requires ChecksumOk(crc) && StandsAt(file, c, p, start) && t != 0
    requires p + HEADER + |payload| <= start + BLOCK && p + HEADER + |payload| <= |file|
    requires file[p..p + HEADER + |payload|] == Chunk(crc, t, payload)
    ensures var o := ReadPhysical(crc, file, c);
            && o.what == Fragment(t, payload) && o.reports == []
            && StandsAt(file, o.next, p + HEADER + |payload|, start)
  {
    var n := HEADER + |payload|;
    assert c.buffer[..n] == file[p..p + n];
    ParseWhole(crc, t, payload, c.buffer, c.eof);
    assert c.buffer[n..] == file[p + n..c.taken];
  }

  /** Reading a chunk the file ends inside. */
  lemma ReadTorn(crc: Checksum, file: Bytes, c: Cursor, p: nat, start: int, t: Byte, payload: Bytes)
    requires ChecksumOk(crc) && StandsAt(file, c, p, start) && t != 0
    requires |file| < p + HEADER + |payload| <= start + BLOCK
    requires file[p..] == Chunk(crc, t, payload)[..|file| - p]
    ensures var o := ReadPhysical(crc, file, c);
            o.what == Eof && o.reports == []
  {
    assert c.buffer == file[p..];
    if |c.buffer| >= HEADER {
      ParseTorn(crc, t, payload, c.buffer);
    }
  }

  /** Skipping the trailer of a block. */
  lemma ReadTrailer(crc: Checksum, file: Bytes, c: Cursor, p: nat, start: int)
    requires StandsAt(file, c, p, start) && start + BLOCK - p < HEADER
    ensures c.eof ==> ReadPhysical(crc, file, c).what == Eof && ReadPhysical(crc, file, c).reports == []
    ensures !c.eof ==>
              && StandsAt(file, NextBlock(file, c.taken), start + BLOCK, start + BLOCK)
              && ReadPhysical(crc, file, c) == ReadPhysical(crc, file, NextBlock(file, c.taken))
  {}

  // ---- One record ----

  /** What reading a record whose bytes end at e should give. */
  ghost predicate Reads(file: Bytes, r: Logical, e: nat, record: Bytes, said: seq<nat>) {
    && r.reports == said
    && (if e <= |file| then r.record == Some(record)
       && exists start: int :: StandsAt(file, r.next, e, start) else r.record.None?)
  }

  ghost function Whole(part: Option<Bytes>, data: Bytes): Bytes {
    if part.Some? then part.value + data else data
  }

  lemma WholeSplit(part: Option<Bytes>, data: Bytes, n: nat)
    requires n <= |data|
    ensures Whole(Some(Whole(part, data[..n])), data[n..]) == Whole(part, data)
  {
    assert data == data[..n] + data[n..];
  }

  /** The file is cut somewhere in, or goes on after, the bytes w. */
  ghost predicate CutOf(file: Bytes, w: Bytes) {
    file <= w || w <= file
  }

  /** The next chunk as the reader finds it. */
  lemma ReadChunk(crc: Checksum, dest: Bytes, t: Byte, payload: Bytes, file: Bytes, c: Cursor, start: int)
    requires ChecksumOk(crc) && t != 0 && |payload| < 65536 && |dest| + HEADER + |payload| <= start + BLOCK
    requires |dest| <= |file| && CutOf(file, dest + Chunk(crc, t, payload)) && StandsAt(file, c, |dest|, start)
    ensures var o := ReadPhysical(crc, file, c);
            && o.reports == []
            && (|file| < |dest| + HEADER + |payload| ==> o.what == Eof)
            && (|file| >= |dest| + HEADER + |payload| ==>
                  o.what == Fragment(t, payload) && StandsAt(file, o.next, |dest| + HEADER + |payload|, start))
  {
    var k := Chunk(crc, t, payload);
    if |file| < |dest| + |k| {
      assert file[|dest|..] == k[..|file| - |dest|];
      ReadTorn(crc, file, c, |dest|, start, t, payload);
    } else {
      assert file[|dest|..|dest| + |k|] == k;
      ReadWhole(crc, file, c, |dest|, start, t, payload);
    }
  }

  lemma StepDone(crc: Checksum, file: Bytes, c: Cursor, part: Option<Bytes>, said: seq<nat>, record: Option<Bytes>)
    requires c.taken <= |file|
    requires var o := ReadPhysical(crc, file, c); o.reports == [] && Gather(part, o.what) == Done(record, [])
    ensures ReadLogical(crc, file, c, part, said) == Logical(record, ReadPhysical(crc, file, c).next, said)
  {
    assert said + [] + [] == said;
  }

  lemma StepMore(crc: Checksum, file: Bytes, c: Cursor, part: Option<Bytes>, said: seq<nat>, part': Option<Bytes>)
    requires c.taken <= |file|
    requires var o := ReadPhysical(crc, file, c); o.reports == [] && Gather(part, o.what) == More(part', [])
    ensures ReadLogical(crc, file, c, part, said) == ReadLogical(crc, file, ReadPhysical(crc, file, c).next, part',
            said)
  {
    assert said + [] + [] == said;
  }

  lemma SameRead(crc: Checksum, file: Bytes, c: Cursor, c': Cursor, part: Option<Bytes>, said: seq<nat>)
    requires c.taken <= |file| && c'.taken <= |file| && ReadPhysical(crc, file, c) == ReadPhysical(crc, file, c')
    ensures ReadLogical(crc, file, c, part, said) == ReadLogical(crc, file, c', part, said)
  {}

  /** The head of what Appended lays down. */
  lemma AppendedHead(crc: Checksum, dest: Bytes, data: Bytes, begin: bool, off: nat)
    requires ChecksumOk(crc) && off + HEADER <= BLOCK
    ensures var n := Min(|data|, BLOCK - off - HEADER);
            var head := dest + Chunk(crc, FragmentType(begin, n == |data|), data[..n]);
            && head <= Appended(crc, dest, data, begin, off)
            && Appended(crc, dest, data, begin, off) == if n == |data| then head
               else Appended(crc, head, data[n..], false, off + HEADER + n)
  {}

  lemma AppendedPad(crc: Checksum, dest: Bytes, data: Bytes, begin: bool, off: nat)
    requires ChecksumOk(crc) && off <= BLOCK < off + HEADER
    ensures Appended(crc, dest, data, begin, off) == Appended(crc, dest + Zeros(BLOCK - off), data, begin, 0)
  {}

  lemma GatherFragment(part: Option<Bytes>, begin: bool, end: bool, payload: Bytes)
    requires begin <==> part.None?
    ensures Gather(part, Fragment(FragmentType(begin, end), payload)) ==
            if end then Done(Some(Whole(part, payload)), []) else More(Some(Whole(part, payload)), [])
  {}

  /** The last fragment of a record, or the one the file is cut in. */
  lemma LastFragment(crc: Checksum, dest: Bytes, data: Bytes, begin: bool, off: nat,
                     file: Bytes, c: Cursor, start: int, part: Option<Bytes>, said: seq<nat>)
    requires ChecksumOk(crc) && off + HEADER <= BLOCK && |dest| == start + off && (begin <==> part.None?)
    requires |dest| <= |file| && CutOf(file, Appended(crc, dest, data, begin, off)) && StandsAt(file, c, |dest|, start)
    requires var n := Min(|data|, BLOCK - off - HEADER); n == |data| || |file| < |dest| + HEADER + n
    ensures Reads(file, ReadLogical(crc, file, c, part, said), |Appended(crc, dest, data, begin, off)|,
            Whole(part, data), said)
  {
    var n := Min(|data|, BLOCK - off - HEADER);
    AppendedHead(crc, dest, data, begin, off);
    ReadChunk(crc, dest, FragmentType(begin, n == |data|), data[..n], file, c, start);
    if |file| < |dest| + HEADER + n {
      StepDone(crc, file, c, part, said, None);
    } else {
      assert data[..n] == data;
      GatherFragment(part, begin, true, data);
      StepDone(crc, file, c, part, said, Some(Whole(part, data)));
    }
  }

  /** A fragment with more to come. */
  lemma MoreFragments(crc: Checksum, dest: Bytes, data: Bytes, begin: bool, off: nat,
                      file: Bytes, c: Cursor, start: int, part: Option<Bytes>, said: seq<nat>, n: nat)
    requires ChecksumOk(crc) && off + HEADER <= BLOCK && |dest| == start + off && (begin <==> part.None?)
    requires |dest| <= |file| && CutOf(file, Appended(crc, dest, data, begin, off)) && StandsAt(file, c, |dest|, start)
    requires n == BLOCK - off - HEADER < |data| && |file| >= |dest| + HEADER + n
    ensures var next := ReadPhysical(crc, file, c).next;
            && StandsAt(file, next, |dest| + HEADER + n, start)
            && ReadLogical(crc, file, c, part, said) == ReadLogical(crc, file, next, Some(Whole(part, data[..n])), said)
  {
    AppendedHead(crc, dest, data, begin, off);
    ReadChunk(crc, dest, FragmentType(begin, false), data[..n], file, c, start);
    GatherFragment(part, begin, false, data[..n]);
    StepMore(crc, file, c, part, said, Some(Whole(part, data[..n])));
  }

  lemma ReadsAlike(file: Bytes, r: Logical, r': Logical, e: nat, record: Bytes, record': Bytes, said: seq<nat>)
    requires r == r' && record == record' && Reads(file, r, e, record, said)
    ensures Reads(file, r', e, record', said)
  {}

  lemma {:induction false} ReadsBack(crc: Checksum, dest: Bytes, data: Bytes, begin: bool, off: nat,
                                     file: Bytes, c: Cursor, start: int, part: Option<Bytes>, said: seq<nat>)
    requires ChecksumOk(crc) && off <= BLOCK && |dest| == start + off && (begin <==> part.None?)
    requires |dest| <= |file| && CutOf(file, Appended(crc, dest, data, begin, off)) && StandsAt(file, c, |dest|, start)
    ensures Reads(file, ReadLogical(crc, file, c, part, said), |Appended(crc, dest, data, begin, off)|,
            Whole(part, data), said)
    decreases |data|, if BLOCK - off < HEADER then 1 else if BLOCK - off == HEADER then 2 else 0
  {
    if BLOCK - off < HEADER {
      PaddedReadsBack(crc, dest, data, begin, off, file, c, start, part, said);
    } else {
      var n := Min(|data|, BLOCK - off - HEADER);
      if n == |data| || |file| < |dest| + HEADER + n {
        LastFragment(crc, dest, data, begin, off, file, c, start, part, said);
      } else {
        SplitReadsBack(crc, dest, data, begin, off, file, c, start, part, said, n);
      }
    }
  }

  lemma {:induction false} PaddedReadsBack(crc: Checksum, dest: Bytes, data: Bytes, begin: bool, off: nat,
                                           file: Bytes, c: Cursor, start: int, part: Option<Bytes>, said: seq<nat>)
    requires ChecksumOk(crc) && off <= BLOCK < off + HEADER && |dest| == start + off && (begin <==> part.None?)
    requires |dest| <= |file| && CutOf(file, Appended(crc, dest, data, begin, off)) && StandsAt(file, c, |dest|, start)
    ensures Reads(file, ReadLogical(crc, file, c, part, said), |Appended(crc, dest, data, begin, off)|,
            Whole(part, data), said)
    decreases |data|, 1, 0
  {
    ReadTrailer(crc, file, c, |dest|, start);
    AppendedPad(crc, dest, data, begin, off);
    if c.eof {
      StepDone(crc, file, c, part, said, None);
    } else {
      var c', dest' := NextBlock(file, c.taken), dest + Zeros(BLOCK - off);
      SameRead(crc, file, c, c', part, said);
      ReadsBack(crc, dest', data, begin, 0, file, c', start + BLOCK, part, said);
      ReadsAlike(file, ReadLogical(crc, file, c', part, said), ReadLogical(crc, file, c, part, said),
                 |Appended(crc, dest, data, begin, off)|, Whole(part, data), Whole(part, data), said);
    }
  }

  lemma {:induction false} SplitReadsBack(crc: Checksum, dest: Bytes, data: Bytes, begin: bool, off: nat,
                                          file: Bytes, c: Cursor, start: int, part: Option<Bytes>, said: seq<nat>,
                                              n: nat)
    requires ChecksumOk(crc) && off + HEADER <= BLOCK && |dest| == start + off && (begin <==> part.None?)
    requires |dest| <= |file| && CutOf(file, Appended(crc, dest, data, begin, off)) && StandsAt(file, c, |dest|, start)
    requires n == BLOCK - off - HEADER < |data| && |file| >= |dest| + HEADER + n
    ensures Reads(file, ReadLogical(crc, file, c, part, said), |Appended(crc, dest, data, begin, off)|,
            Whole(part, data), said)
    decreases |data|, if n == 0 then 2 else 0, 0
  {
    MoreFragments(crc, dest, data, begin, off, file, c, start, part, said, n);
    AppendedHead(crc, dest, data, begin, off);
    var head := dest + Chunk(crc, FragmentType(begin, false), data[..n]);
    var next, part' := ReadPhysical(crc, file, c).next, Some(Whole(part, data[..n]));
    ReadsBack(crc, head, data[n..], false, off + HEADER + n, file, next, start, part', said);
    WholeSplit(part, data, n);
    ReadsAlike(file, ReadLogical(crc, file, next, part', said), ReadLogical(crc, file, c, part, said),
               |Appended(crc, dest, data, begin, off)|, Whole(part', data[n..]), Whole(part, data), said);
  }

  // ---- Whole files ----

  /** The file after logging the first n records, however often the writer was
      closed and resumed in between. */
  ghost function Written(crc: Checksum, rs: seq<Bytes>, n: nat): Bytes
    requires ChecksumOk(crc) && n <= |rs|
  {
    if n == 0 then []
    else
      var before := Written(crc, rs, n - 1);
      Appended(crc, before, rs[n - 1], true, |before| % BLOCK)
  }

  /** Reading until the reader says there is no more. */
  function ReadAll(crc: Checksum, file: Bytes, c: Cursor, got: seq<Bytes>, said: seq<nat>): (r: (seq<Bytes>, seq<nat>))
    requires c.taken <= |file|
    decreases Left(file, c)
  {
    var l := ReadLogical(crc, file, c, None, said);
    if l.record.None? then (got, l.reports) else ReadAll(crc, file, l.next, got + [l.record.value], l.reports)
  }

  /** How many of the first n records end within the first P bytes. */
  ghost function Ended(crc: Checksum, rs: seq<Bytes>, n: nat, P: nat): (m: nat)
    requires ChecksumOk(crc) && n <= |rs|
    ensures m <= n && |Written(crc, rs, m)| <= P
    ensures m < n ==> P < |Written(crc, rs, m + 1)|
  {
    if n == 0 || |Written(crc, rs, n)| <= P then n else Ended(crc, rs, n - 1, P)
  }

  lemma {:induction false} WrittenGrows(crc: Checksum, rs: seq<Bytes>, i: nat, n: nat)
    requires ChecksumOk(crc) && i <= n <= |rs|
    ensures Written(crc, rs, i) <= Written(crc, rs, n)
  {
    if i < n {
      WrittenGrows(crc, rs, i, n - 1);
    }
  }

  /** At the end of everything there is no record. */
  lemma NothingLeft(crc: Checksum, file: Bytes, c: Cursor, start: int, said: seq<nat>)
    requires StandsAt(file, c, |file|, start)
    ensures var l := ReadLogical(crc, file, c, None, said); l.record == None && l.reports == said
  {
    assert NextBlock(file, c.taken).buffer == [] || c.eof;
    StepDone(crc, file, c, None, said, None);
  }

  /** The record after the first i. */
  lemma NextRecord(crc: Checksum, rs: seq<Bytes>, file: Bytes, i: nat, c: Cursor, start: int, said: seq<nat>)
    requires ChecksumOk(crc) && i < |rs| && CutOf(file, Written(crc, rs, i + 1))
    requires |Written(crc, rs, i)| <= |file| && StandsAt(file, c, |Written(crc, rs, i)|, start)
    ensures Reads(file, ReadLogical(crc, file, c, None, said), |Written(crc, rs, i + 1)|, rs[i], said)
  {
    var before := Written(crc, rs, i);
    var off := |before| - start;
    BoundaryOffset(crc, before, rs[i], start, off);
    ReadsBack(crc, before, rs[i], true, off, file, c, start, None, said);
  }

  ghost predicate EndsAt(crc: Checksum, rs: seq<Bytes>, P: nat, m: nat)
    requires ChecksumOk(crc)
  {
    m <= |rs| && |Written(crc, rs, m)| <= P && (m < |rs| ==> P < |Written(crc, rs, m + 1)|)
  }

  lemma ReadAllStep(crc: Checksum, file: Bytes, c: Cursor, got: seq<Bytes>)
    requires c.taken <= |file| && ReadLogical(crc, file, c, None, []).reports == []
    ensures var l := ReadLogical(crc, file, c, None, []);
            ReadAll(crc, file, c, got, []) == if l.record.None? then (got, [])
                else ReadAll(crc, file, l.next, got + [l.record.value], [])
  {}

  lemma {:induction false} ReadFrom(crc: Checksum, rs: seq<Bytes>, file: Bytes, i: nat, m: nat, c: Cursor, start: int)
    requires ChecksumOk(crc) && file <= Written(crc, rs, |rs|) && i <= m && EndsAt(crc, rs, |file|, m)
    requires |Written(crc, rs, i)| <= |file| && StandsAt(file, c, |Written(crc, rs, i)|, start)
    ensures ReadAll(crc, file, c, rs[..i], []) == (rs[..m], [])
    decreases m - i
  {
    if i == |rs| {
      NothingLeft(crc, file, c, start, []);
      ReadAllStep(crc, file, c, rs[..i]);
    } else {
      WrittenGrows(crc, rs, i + 1, |rs|);
      NextRecord(crc, rs, file, i, c, start, []);
      ReadAllStep(crc, file, c, rs[..i]);
      if i < m {
        WrittenGrows(crc, rs, i + 1, m);
        TakeNext(rs, i);
        var l := ReadLogical(crc, file, c, None, []);
        var end := |Written(crc, rs, i + 1)|;
        assert l.record == Some(rs[i]);
        var start' :| StandsAt(file, l.next, end, start');
        ReadFrom(crc, rs, file, i + 1, m, l.next, start');
      }
    }
  }

  lemma TakeNext(rs: seq<Bytes>, i: nat)
    requires i < |rs|
    ensures rs[..i] + [rs[i]] == rs[..i + 1]
  {}

  lemma Beginning(file: Bytes, c: Cursor) returns (start: int)
    requires Fresh(c)
    ensures StandsAt(file, c, 0, start)
  {
    start := 0 - BLOCK as int;
    assert start % BLOCK == 0;
    assert c.buffer == file[0..0];
  }

  /** The log theorem.  Cut the log anywhere: reading it returns exactly the
      records that end before the cut, in order, and reports no corruption. */
  lemma CrashPrefix(crc: Checksum, rs: seq<Bytes>, file: Bytes, c: Cursor)
    requires ChecksumOk(crc) && file <= Written(crc, rs, |rs|) && Fresh(c)
    ensures ReadAll(crc, file, c, [], []) == (rs[..Ended(crc, rs, |rs|, |file|)], [])
  {
    assert rs[..0] == [];
    var start := Beginning(file, c);
    ReadFrom(crc, rs, file, 0, Ended(crc, rs, |rs|, |file|), c, start);
  }

  /** Uncut, every record comes back. */
  lemma RoundTrip(crc: Checksum, rs: seq<Bytes>, c: Cursor)
    requires ChecksumOk(crc) && Fresh(c)
    ensures ReadAll(crc, Written(crc, rs, |rs|), c, [], []) == (rs, [])
  {
    CrashPrefix(crc, rs, Written(crc, rs, |rs|), c);
    assert rs[..|rs|] == rs;
  }
}
