/** The record log: Writer splits records into fragments that never straddle a
    32 KB block, Reader puts them together again. */
module Log {
  import opened Keys
  import opened Mvcc
  import opened Coding

  const BLOCK: nat := 32768
  const HEADER: nat := 7

  const FULL: Byte := 1
  const FIRST: Byte := 2
  const MIDDLE: Byte := 3
  const LAST: Byte := 4

  // The reader's own values for "end of file" and "bad record", which a type byte
  // on file can carry too.
  const EOF_TYPE: Byte := 5
  const BAD_TYPE: Byte := 6

  /** The masked checksum stored for a type byte and its payload. */
  type Checksum = Bytes -> nat

  ghost predicate ChecksumOk(crc: Checksum) {
    forall s: Bytes :: crc(s) < TWO32
  }

  // ---- What the writer leaves in the file ----

  /** EmitPhysicalRecord: checksum, length, type, payload. */
  ghost function Chunk(crc: Checksum, t: Byte, payload: Bytes): (r: Bytes)
    requires ChecksumOk(crc) && |payload| < 65536
    ensures |r| == HEADER + |payload|
  {
    Fixed32(crc([t] + payload)) + [|payload| % 256, |payload| / 256, t] + payload
  }

  function Zeros(n: nat): (r: Bytes)
    ensures |r| == n
  {
    seq(n, _ => 0)
  }

  function FragmentType(begin: bool, end: bool): Byte {
    if begin && end then FULL else if begin then FIRST else if end then LAST else MIDDLE
  }

  function Min(a: nat, b: nat): nat {
    if a < b then a else b
  }

  /** The file `dest` after (the rest of) one record is laid behind it, `off`
      being where in its block `dest` ends. */
  ghost function Appended(crc: Checksum, dest: Bytes, data: Bytes, begin: bool, off: nat): (r: Bytes)
    requires ChecksumOk(crc) && off <= BLOCK
    ensures |dest| < |r| && r[..|dest|] == dest
    decreases |data|, if BLOCK - off < HEADER then 1 else if BLOCK - off == HEADER then 2 else 0
  {
    if BLOCK - off < HEADER then
      Appended(crc, dest + Zeros(BLOCK - off), data, begin, 0)
    else
      var n := Min(|data|, BLOCK - off - HEADER);
      var head := dest + Chunk(crc, FragmentType(begin, n == |data|), data[..n]);
      if n == |data| then head else Appended(crc, head, data[n..], false, off + HEADER + n)
  }

  // ---- Writer ----

  class Writer {
    const crc: Checksum
    var dest: Bytes          // the file
    var blockOffset: nat     // where in its block the file ends
    ghost var start: nat     // where that block starts

    ghost predicate Valid()
      reads this
    {
      ChecksumOk(crc) && blockOffset <= BLOCK && start % BLOCK == 0 && |dest| == start + blockOffset
    }

    constructor (crc: Checksum)
      requires ChecksumOk(crc)
      ensures Valid() && dest == [] && this.crc == crc
    {
      this.crc, dest, blockOffset, start := crc, [], 0, 0;
    }

    /** A writer on a file that already holds bytes. */
    constructor Resume(crc: Checksum, dest: Bytes, length: nat)
      requires ChecksumOk(crc) && length == |dest|
      ensures Valid() && this.dest == dest && this.crc == crc
    {
      this.crc, this.dest, blockOffset, start := crc, dest, length % BLOCK, length - length % BLOCK;
    }

    method EmitPhysicalRecord(t: Byte, payload: Bytes)
      requires Valid() && blockOffset + HEADER + |payload| <= BLOCK
      modifies this
      ensures Valid() && blockOffset == old(blockOffset) + HEADER + |payload|
      ensures dest == old(dest) + Chunk(crc, t, payload)
    {
      dest := dest + Fixed32(crc([t] + payload)) + [|payload| % 256, |payload| / 256, t];
      dest := dest + payload;
      blockOffset := blockOffset + HEADER + |payload|;
    }

    method SwitchBlock()
      requires Valid() && BLOCK - blockOffset < HEADER
      modifies this
      ensures Valid() && blockOffset == 0 && dest == old(dest) + Zeros(BLOCK - old(blockOffset))
    {
      var leftover := BLOCK - blockOffset;
      dest := dest + Zeros(leftover);
      blockOffset, start := 0, start + BLOCK;
    }

    /** The new bytes depend on the file only through its length: a writer
        resumed at the file's length goes on as the one that was closed. */
    method AddRecord(slice: Bytes)
      requires Valid()
      modifies this
      ensures Valid()
      ensures dest == Appended(crc, old(dest), slice, true, |old(dest)| % BLOCK)
    {
      BoundaryOffset(crc, dest, slice, start, blockOffset);
      ghost var all := Appended(crc, dest, slice, true, blockOffset);
      var data, begin, more := slice, true, true;
      while more
        invariant Valid()
        invariant all == if more then Appended(crc, dest, data, begin, blockOffset) else dest
        decreases more, |data|, if BLOCK - blockOffset < HEADER then 1 else if BLOCK - blockOffset == HEADER then 2
                  else 0
      {
        if BLOCK - blockOffset < HEADER {
          SwitchBlock();
        }
        var n := Min(|data|, BLOCK - blockOffset - HEADER);
        var end := n == |data|;
        EmitPhysicalRecord(FragmentType(begin, end), data[..n]);
        data, begin, more := data[n..], false, !end;
      }
    }
  }

  lemma ModBlock(start: int, off: nat)
    requires off <= BLOCK && start % BLOCK == 0
    ensures (start + off) % BLOCK == if off == BLOCK then 0 else off
  {}

  /** A block offset of BLOCK and one of 0 mean the same. */
  lemma BoundaryOffset(crc: Checksum, dest: Bytes, data: Bytes, start: int, off: nat)
    requires ChecksumOk(crc) && off <= BLOCK && start % BLOCK == 0
    ensures Appended(crc, dest, data, true, off) == Appended(crc, dest, data, true, (start + off) % BLOCK)
  {
    ModBlock(start, off);
    if off == BLOCK {
      assert dest + Zeros(0) == dest;
    }
  }

  // ---- What the reader makes of a file ----

  /** Where reading stands: the bytes taken from the file so far, what is left
      of the last block taken, and whether that block was short. */
  datatype Cursor = Cursor(taken: nat, buffer: Bytes, eof: bool)

  /** How much there is still to read. */
  function Left(file: Bytes, c: Cursor): int {
    |file| - c.taken + |c.buffer|
  }

  datatype Physical = Eof | BadRecord | Fragment(t: Byte, payload: Bytes)

  /** What a physical read yields, where it leaves the reader, and the sizes it
      reports as dropped. */
  datatype Outcome = Outcome(what: Physical, next: Cursor, reports: seq<nat>)

  function LengthField(low: int, high: int): int {
    low + 256 * high
  }

  datatype Parse = Parse(what: Physical, used: nat, reports: seq<nat>)

  /** Reading one physical record off a buffer. */
  function ParseBuffer(crc: Checksum, buffer: Bytes, eof: bool): (r: Parse)
    requires |buffer| >= HEADER
    ensures 0 < r.used <= |buffer|
  {
    var n, t := LengthField(buffer[4], buffer[5]), buffer[6];
    if HEADER + n > |buffer| then
      if eof then Parse(Eof, |buffer|, []) else Parse(BadRecord, |buffer|, [|buffer|])
    else if t == 0 && n == 0 then
      Parse(BadRecord, |buffer|, [])
    else if FromFixed(buffer[..4]) != crc(buffer[6..HEADER + n]) then
      Parse(BadRecord, |buffer|, [|buffer|])
    else
      Parse(Fragment(t, buffer[HEADER..HEADER + n]), HEADER + n, [])
  }

  function NextBlock(file: Bytes, taken: nat): Cursor
    requires taken <= |file|
  {
    var n := Min(|file| - taken, BLOCK);
    Cursor(taken + n, file[taken..taken + n], n < BLOCK)
  }

  /** ReadPhysicalRecord. */
  function ReadPhysical(crc: Checksum, file: Bytes, c: Cursor): (r: Outcome)
    requires c.taken <= |file|
    ensures r.next.taken <= |file|
    ensures Left(file, r.next) <= Left(file, c) && (!r.what.Eof? ==> Left(file, r.next) < Left(file, c))
    decreases !c.eof, |file| - c.taken
  {
    if |c.buffer| < HEADER then
      if c.eof then Outcome(Eof, c.(buffer := []), []) else ReadPhysical(crc, file, NextBlock(file, c.taken))
    else
      var o := ParseBuffer(crc, c.buffer, c.eof);
      Outcome(o.what, c.(buffer := c.buffer[o.used..]), o.reports)
  }

  /** What ReadRecord does with one physical record, `part` being the fragments
      gathered so far: finish, or go on with new fragments. */
  datatype Gathered = Done(record: Option<Bytes>, reports: seq<nat>) | More(part: Option<Bytes>, reports: seq<nat>)

  function Gather(part: Option<Bytes>, what: Physical): Gathered {
    var unfinished := if part.Some? && part.value != [] then [|part.value|] else [];
    var dropped := if part.Some? then [|part.value|] else [];
    match what
    case Eof => Done(None, [])
    case BadRecord => More(None, dropped)
    case Fragment(t, payload) =>
      if t == FULL then Done(Some(payload), unfinished)
      else if t == FIRST then More(Some(payload), unfinished)
      else if t == MIDDLE then
        if part.None? then More(None, [|payload|]) else More(Some(part.value + payload), [])
      else if t == LAST then
        if part.None? then More(None, [|payload|]) else Done(Some(part.value + payload), [])
      else if t == EOF_TYPE then Done(None, [])
      else if t == BAD_TYPE then More(None, dropped)
      else More(None, [|payload| + if part.Some? then |part.value| else 0])
  }

  datatype Logical = Logical(record: Option<Bytes>, next: Cursor, reports: seq<nat>)

  /** ReadRecord, `said` being the sizes reported so far. */
  function ReadLogical(crc: Checksum, file: Bytes, c: Cursor, part: Option<Bytes>, said: seq<nat>): (r: Logical)
    requires c.taken <= |file|
    ensures r.next.taken <= |file| && (r.record.Some? ==> Left(file, r.next) < Left(file, c))
    decreases Left(file, c)
  {
    var o := ReadPhysical(crc, file, c);
    match Gather(part, o.what)
    case Done(record, reports) => Logical(record, o.next, said + o.reports + reports)
    case More(part', reports) => ReadLogical(crc, file, o.next, part', said + o.reports + reports)
  }

  // ---- Reader ----

  class Reader {
    const crc: Checksum
    const file: Bytes          // the sequential file
    var offset: nat            // bytes taken from it
    var buffer: Bytes          // the rest of the block last taken
    var eof: bool
    var reports: seq<nat>      // sizes passed to the corruption reporter

    ghost predicate Valid()
      reads this
    {
      offset <= |file|
    }

    ghost function Now(): Cursor
      reads this
    {
      Cursor(offset, buffer, eof)
    }

    constructor (crc: Checksum, file: Bytes)
      ensures Valid() && Now() == Cursor(0, [], false) && reports == [] && this.file == file && this.crc == crc
    {
      this.crc, this.file := crc, file;
      offset, buffer, eof, reports := 0, [], false, [];
    }

    /** file_->Read of the next block. */
    method Refill()
      requires Valid() && !eof
      modifies this`buffer, this`offset, this`eof
      ensures Valid() && Now() == NextBlock(file, old(offset))
    {
      var n := Min(|file| - offset, BLOCK);
      buffer := file[offset..offset + n];
      offset := offset + n;
      if |buffer| < BLOCK {
        eof := true;
      }
    }

    method ReadPhysicalRecord() returns (r: Physical)
      requires Valid()
      modifies this
      ensures Valid()
      ensures var o := ReadPhysical(crc, file, old(Now()));
              r == o.what && Now() == o.next && reports == old(reports) + o.reports
    {
      ghost var o := ReadPhysical(crc, file, Now());
      while |buffer| < HEADER
        invariant Valid() && reports == old(reports)
        invariant o == ReadPhysical(crc, file, Now())
        decreases !eof, |file| - offset
      {
        if !eof {
          Refill();
        } else {
          buffer := [];
          return Eof;
        }
      }
      r := ParseHeader();
    }

    method ParseHeader() returns (r: Physical)
      requires |buffer| >= HEADER
      modifies this`buffer, this`reports
      ensures var o := ParseBuffer(crc, old(buffer), eof);
              r == o.what && buffer == old(buffer)[o.used..] && reports == old(reports) + o.reports
    {
      var n, t := LengthField(buffer[4], buffer[5]), buffer[6];
      if HEADER + n > |buffer| {
        var drop := |buffer|;
        buffer := [];
        if !eof {
          reports := reports + [drop];
          return BadRecord;
        }
        return Eof;
      }
      if t == 0 && n == 0 {
        buffer := [];
        return BadRecord;
      }
      if FromFixed(buffer[..4]) != crc(buffer[6..HEADER + n]) {
        reports := reports + [|buffer|];
        buffer := [];
        return BadRecord;
      }
      r := Fragment(t, buffer[HEADER..HEADER + n]);
      buffer := buffer[HEADER + n..];
    }

    /** The switch on the record type. */
    method HandleFragment(f: Physical, scratch: Bytes, inFragmentedRecord: bool)
      returns (done: bool, record: Option<Bytes>, scratch': Bytes, inFragmentedRecord': bool)
      requires !inFragmentedRecord ==> scratch == []
      modifies this`reports
      ensures !inFragmentedRecord' ==> scratch' == []
      ensures var g := Gather(if inFragmentedRecord then Some(scratch) else None, f);
              && reports == old(reports) + g.reports
              && (done <==> g.Done?)
              && (done ==> record == g.record)
              && (!done ==> g.part == if inFragmentedRecord' then Some(scratch') else None)
    {
      done, record, scratch', inFragmentedRecord' := false, None, scratch, inFragmentedRecord;
      match f {
        case Eof =>
          done := true;
        case BadRecord =>
          if inFragmentedRecord {
            reports := reports + [|scratch|];
            inFragmentedRecord', scratch' := false, [];
          }
        case Fragment(t, payload) =>
          if t == FULL {
            if inFragmentedRecord && scratch != [] {
              reports := reports + [|scratch|];
            }
            done, record := true, Some(payload);
          } else if t == FIRST {
            if inFragmentedRecord && scratch != [] {
              reports := reports + [|scratch|];
            }
            scratch', inFragmentedRecord' := payload, true;
          } else if t == MIDDLE {
            if !inFragmentedRecord {
              reports := reports + [|payload|];
            } else {
              scratch' := scratch + payload;
            }
          } else if t == LAST {
            if !inFragmentedRecord {
              reports := reports + [|payload|];
            } else {
              done, record := true, Some(scratch + payload);
            }
          } else if t == EOF_TYPE {
            done := true;
          } else if t == BAD_TYPE {
            if inFragmentedRecord {
              reports := reports + [|scratch|];
              inFragmentedRecord', scratch' := false, [];
            }
          } else {
            reports := reports + [|payload| + if inFragmentedRecord then |scratch| else 0];
            inFragmentedRecord', scratch' := false, [];
          }
      }
    }

    method ReadFragment(scratch: Bytes, inFragmentedRecord: bool)
      returns (done: bool, record: Option<Bytes>, scratch': Bytes, inFragmentedRecord': bool)
      requires Valid() && (!inFragmentedRecord ==> scratch == [])
      modifies this
      ensures Valid() && (!inFragmentedRecord' ==> scratch' == [])
      ensures var o := ReadPhysical(crc, file, old(Now()));
              var g := Gather(if inFragmentedRecord then Some(scratch) else None, o.what);
              && Now() == o.next && reports == old(reports) + o.reports + g.reports
              && (done <==> g.Done?)
              && (done ==> record == g.record)
              && (!done ==> Left(file, Now()) < Left(file, old(Now()))
                            && g.part == if inFragmentedRecord' then Some(scratch') else None)
    {
      var f := ReadPhysicalRecord();
      done, record, scratch', inFragmentedRecord' := HandleFragment(f, scratch, inFragmentedRecord);
    }

    /** ReadRecord: the next record, or None at the end. */
    method ReadRecord() returns (record: Option<Bytes>)
      requires Valid()
      modifies this
      ensures Valid()
      ensures Logical(record, Now(), reports) == ReadLogical(crc, file, old(Now()), None, old(reports))
    {
      var scratch: Bytes, inFragmentedRecord, done := [], false, false;
      record := None;
      ghost var l := ReadLogical(crc, file, Now(), None, reports);
      while !done
        invariant Valid() && (!inFragmentedRecord ==> scratch == [])
        invariant !done ==> l == ReadLogical(crc, file, Now(), if inFragmentedRecord then Some(scratch)
                            else None, reports)
        invariant done ==> l == Logical(record, Now(), reports)
        decreases !done, Left(file, Now())
      {
        done, record, scratch, inFragmentedRecord := ReadFragment(scratch, inFragmentedRecord);
      }
    }
  }
}
