/** VersionEdit: the records of the manifest and their encoding. */
module Edits {
  import opened Keys
  import opened Mvcc
  import opened Coding
  import Levels

  /** FileMetaData as stored: the end keys are encoded internal keys. */
  datatype Meta = Meta(number: nat, size: nat, smallest: Bytes, largest: Bytes)

  datatype Edit = Edit(
    comparator: Option<Bytes>,
    logNumber: Option<nat>,
    prevLogNumber: Option<nat>,
    nextFile: Option<nat>,
    lastSequence: Option<nat>,
    pointers: seq<(nat, Bytes)>,
    deleted: set<(nat, nat)>,
    newFiles: seq<(nat, Meta)>)

  /** One tagged field of a record. */
  datatype Field =
    | ComparatorName(name: Bytes)
    | LogNumber(n: nat)
    | PrevLogNumber(n: nat)
    | NextFileNumber(n: nat)
    | LastSequence(n: nat)
    | CompactPointer(level: nat, key: Bytes)
    | DeletedFile(level: nat, number: nat)
    | NewFile(level: nat, file: Meta)

  predicate Fits(s: Bytes) {
    |s| < TWO32
  }

  predicate MetaOk(f: Meta) {
    f.number < TWO64 && f.size < TWO64 && Fits(f.smallest) && Fits(f.largest)
  }

  /** What the C++ types and the seven levels guarantee of a field. */
  predicate FieldOk(f: Field) {
    match f
    case ComparatorName(name) => Fits(name)
    case LogNumber(n) => n < TWO64
    case PrevLogNumber(n) => n < TWO64
    case NextFileNumber(n) => n < TWO64
    case LastSequence(n) => n < TWO64
    case CompactPointer(level, key) => level < Levels.NUM_LEVELS && Fits(key)
    case DeletedFile(level, number) => level < Levels.NUM_LEVELS && number < TWO64
    case NewFile(level, file) => level < Levels.NUM_LEVELS && MetaOk(file)
  }

  // ---- Encoding ----

  function TagOf(f: Field): nat {
    match f
    case ComparatorName(_) => 1
    case LogNumber(_) => 2
    case PrevLogNumber(_) => 9
    case NextFileNumber(_) => 3
    case LastSequence(_) => 4
    case CompactPointer(_, _) => 5
    case DeletedFile(_, _) => 6
    case NewFile(_, _) => 7
  }

  function EncodeBody(f: Field): Bytes
    requires FieldOk(f)
  {
    match f
    case ComparatorName(name) => Prefixed(name)
    case LogNumber(n) => Varint(n)
    case PrevLogNumber(n) => Varint(n)
    case NextFileNumber(n) => Varint(n)
    case LastSequence(n) => Varint(n)
    case CompactPointer(level, key) => Varint(level) + Prefixed(key)
    case DeletedFile(level, number) => Varint(level) + Varint(number)
    case NewFile(level, file) => Varint(level) + EncodeMeta(file)
  }

  function EncodeMeta(f: Meta): Bytes
    requires MetaOk(f)
  {
    Varint(f.number) + (Varint(f.size) + (Prefixed(f.smallest) + Prefixed(f.largest)))
  }

  function EncodeField(f: Field): Bytes
    requires FieldOk(f)
  {
    Varint(TagOf(f)) + EncodeBody(f)
  }

  predicate FieldsOk(fs: seq<Field>) {
    forall f :: f in fs ==> FieldOk(f)
  }

  function Encode(fs: seq<Field>): Bytes
    requires FieldsOk(fs)
  {
    if |fs| == 0 then [] else Encode(fs[..|fs| - 1]) + EncodeField(fs[|fs| - 1])
  }

  // ---- Decoding ----

  datatype Next = End | Bad(msg: string) | Good(field: Field, rest: Bytes)

  function NumberField(tag: nat, input: Bytes): (r: Next)
    requires tag in {2, 9, 3, 4}
    ensures r.Good? ==> |r.rest| < |input|
  {
    match GetVarint64(input)
    case Fail =>
      Bad(if tag == 2 then "log number" else if tag == 9 then "previous log number"
          else if tag == 3 then "next file number" else "last sequence number")
    case Parsed(n, rest) => Good(NumberOf(tag, n), rest)
  }

  function NumberOf(tag: nat, n: nat): Field
    requires tag in {2, 9, 3, 4}
  {
    if tag == 2 then LogNumber(n) else if tag == 9 then PrevLogNumber(n)
    else if tag == 3 then NextFileNumber(n) else LastSequence(n)
  }

  function GetLevel(input: Bytes): (r: Parsed<nat>)
    ensures r.Parsed? ==> |r.rest| < |input|
  {
    match GetVarint32(input)
    case Fail => Fail
    case Parsed(v, rest) => if v < Levels.NUM_LEVELS then Parsed(v, rest) else Fail
  }

  function PointerField(input: Bytes): (r: Next)
    ensures r.Good? ==> |r.rest| < |input|
  {
    match GetLevel(input)
    case Fail => Bad("compaction pointer")
    case Parsed(level, rest) =>
      match GetPrefixed(rest)
      case Fail => Bad("compaction pointer")
      case Parsed(key, rest) => Good(CompactPointer(level, key), rest)
  }

  function DeletedField(input: Bytes): (r: Next)
    ensures r.Good? ==> |r.rest| < |input|
  {
    match GetLevel(input)
    case Fail => Bad("deleted file")
    case Parsed(level, rest) =>
      match GetVarint64(rest)
      case Fail => Bad("deleted file")
      case Parsed(number, rest) => Good(DeletedFile(level, number), rest)
  }

  function GetMeta(input: Bytes): (r: Parsed<Meta>)
    ensures r.Parsed? ==> |r.rest| < |input|
  {
    match GetVarint64(input)
    case Fail => Fail
    case Parsed(number, rest) =>
      match GetVarint64(rest)
      case Fail => Fail
      case Parsed(size, rest) =>
        match GetPrefixed(rest)
        case Fail => Fail
        case Parsed(smallest, rest) =>
          match GetPrefixed(rest)
          case Fail => Fail
          case Parsed(largest, rest) => Parsed(Meta(number, size, smallest, largest), rest)
  }

  function NewFileField(input: Bytes): (r: Next)
    ensures r.Good? ==> |r.rest| < |input|
  {
    match GetLevel(input)
    case Fail => Bad("new-file entry")
    case Parsed(level, rest) =>
      match GetMeta(rest)
      case Fail => Bad("new-file entry")
      case Parsed(f, rest) => Good(NewFile(level, f), rest)
  }

  function NameField(input: Bytes): (r: Next)
    ensures r.Good? ==> |r.rest| < |input|
  {
    match GetPrefixed(input)
    case Fail => Bad("comparator name")
    case Parsed(name, rest) => Good(ComparatorName(name), rest)
  }

  function DecodeBody(tag: nat, input: Bytes): (r: Next)
    ensures !r.End? && (r.Good? ==> |r.rest| < |input|)
  {
    if tag == 1 then NameField(input)
    else if tag in {2, 9, 3, 4} then NumberField(tag, input)
    else if tag == 5 then PointerField(input)
    else if tag == 6 then DeletedField(input)
    else if tag == 7 then NewFileField(input)
    else Bad("unknown tag")
  }

  /** One turn of the decode loop: a tag, then what the tag announces. */
  function NextField(input: Bytes): (r: Next)
    ensures r.Good? ==> |r.rest| < |input|
  {
    match GetVarint32(input)
    case Fail => if |input| == 0 then End else Bad("invalid tag")
    case Parsed(tag, rest) => DecodeBody(tag, rest)
  }

  function SetField(e: Edit, f: Field): Edit {
    match f
    case ComparatorName(name) => e.(comparator := Some(name))
    case LogNumber(n) => e.(logNumber := Some(n))
    case PrevLogNumber(n) => e.(prevLogNumber := Some(n))
    case NextFileNumber(n) => e.(nextFile := Some(n))
    case LastSequence(n) => e.(lastSequence := Some(n))
    case CompactPointer(level, key) => e.(pointers := e.pointers + [(level, key)])
    case DeletedFile(level, number) => e.(deleted := e.deleted + {(level, number)})
    case NewFile(level, file) => e.(newFiles := e.newFiles + [(level, file)])
  }

  /** VersionEdit::Clear, which leaves the compaction pointers alone. */
  function Clear(e: Edit): Edit {
    Edit(None, None, None, None, None, e.pointers, {}, [])
  }

  datatype Decoded = Ok(edit: Edit) | Corruption(msg: string)

  function DecodeFields(input: Bytes, e: Edit): Decoded
    decreases |input|
  {
    match NextField(input)
    case End => Ok(e)
    case Bad(msg) => Corruption(msg)
    case Good(field, rest) => DecodeFields(rest, SetField(e, field))
  }

  /** VersionEdit::DecodeFrom on the object `into`. */
  method DecodeFrom(src: Bytes, into: Edit) returns (r: Decoded)
    ensures r == DecodeFields(src, Clear(into))
  {
    var input, e := src, Clear(into);
    while true
      invariant DecodeFields(input, e) == DecodeFields(src, Clear(into))
      decreases |input|
    {
      var next := NextField(input);
      match next {
        case End => return Ok(e);
        case Bad(msg) => return Corruption(msg);
        case Good(field, rest) => input, e := rest, SetField(e, field);
      }
    }
  }

  // ---- Each field comes back ----

  lemma TagRoundTrip(tag: nat, body: Bytes, rest: Bytes)
    requires tag < TWO32
    ensures GetVarint32(Varint(tag) + body + rest) == Parsed(tag, body + rest)
  {
    assert Varint(tag) + body + rest == Varint(tag) + (body + rest);
    Varint32RoundTrip(tag, body + rest);
  }

  lemma LevelRoundTrip(level: nat, body: Bytes, rest: Bytes)
    requires level < Levels.NUM_LEVELS
    ensures GetLevel(Varint(level) + body + rest) == Parsed(level, body + rest)
  {
    TagRoundTrip(level, body, rest);
  }

  lemma MetaRoundTrip(f: Meta, rest: Bytes)
    requires MetaOk(f)
    ensures GetMeta(EncodeMeta(f) + rest) == Parsed(f, rest)
  {
    var c := Prefixed(f.largest) + rest;
    var b := Prefixed(f.smallest) + c;
    var a := Varint(f.size) + b;
    assert EncodeMeta(f) + rest == Varint(f.number) + a;
    Varint64RoundTrip(f.number, a);
    Varint64RoundTrip(f.size, b);
    PrefixedRoundTrip(f.smallest, c);
    PrefixedRoundTrip(f.largest, rest);
  }

  lemma BodyRoundTrip(f: Field, rest: Bytes)
    requires FieldOk(f)
    ensures DecodeBody(TagOf(f), EncodeBody(f) + rest) == Good(f, rest)
  {
    match f
    case ComparatorName(name) => PrefixedRoundTrip(name, rest);
    case LogNumber(n) => Varint64RoundTrip(n, rest);
    case PrevLogNumber(n) => Varint64RoundTrip(n, rest);
    case NextFileNumber(n) => Varint64RoundTrip(n, rest);
    case LastSequence(n) => Varint64RoundTrip(n, rest);
    case CompactPointer(level, key) =>
      LevelRoundTrip(level, Prefixed(key), rest);
      PrefixedRoundTrip(key, rest);
    case DeletedFile(level, number) =>
      LevelRoundTrip(level, Varint(number), rest);
      Varint64RoundTrip(number, rest);
    case NewFile(level, file) =>
      LevelRoundTrip(level, EncodeMeta(file), rest);
      MetaRoundTrip(file, rest);
  }

  lemma FieldRoundTrip(f: Field, rest: Bytes)
    requires FieldOk(f)
    ensures NextField(EncodeField(f) + rest) == Good(f, rest)
  {
    TagRoundTrip(TagOf(f), EncodeBody(f), rest);
    BodyRoundTrip(f, rest);
  }

  // ---- Whole edits ----

  function SetAll(e: Edit, fs: seq<Field>): Edit {
    if |fs| == 0 then e else SetField(SetAll(e, fs[..|fs| - 1]), fs[|fs| - 1])
  }

  lemma DecodeOne(e: Edit, f: Field, rest: Bytes)
    requires FieldOk(f)
    ensures DecodeFields(EncodeField(f) + rest, e) == DecodeFields(rest, SetField(e, f))
  {
    FieldRoundTrip(f, rest);
  }

  /** Decoding after n fields goes on with what they set. */
  lemma {:induction false} FieldsRoundTrip(e: Edit, fs: seq<Field>, rest: Bytes)
    requires FieldsOk(fs)
    ensures DecodeFields(Encode(fs) + rest, e) == DecodeFields(rest, SetAll(e, fs))
  {
    if |fs| == 0 {
      assert Encode(fs) + rest == rest;
    } else {
      var init, last := fs[..|fs| - 1], fs[|fs| - 1];
      Assoc(Encode(init), EncodeField(last), rest);
      FieldsRoundTrip(e, init, EncodeField(last) + rest);
      DecodeOne(SetAll(e, init), last, rest);
    }
  }

  predicate EditOk(e: Edit) {
    && (e.comparator.Some? ==> Fits(e.comparator.value))
    && (e.logNumber.Some? ==> e.logNumber.value < TWO64)
    && (e.prevLogNumber.Some? ==> e.prevLogNumber.value < TWO64)
    && (e.nextFile.Some? ==> e.nextFile.value < TWO64)
    && (e.lastSequence.Some? ==> e.lastSequence.value < TWO64)
    && (forall p :: p in e.pointers ==> p.0 < Levels.NUM_LEVELS && Fits(p.1))
    && (forall d :: d in e.deleted ==> d.0 < Levels.NUM_LEVELS && d.1 < TWO64)
    && (forall f :: f in e.newFiles ==> f.0 < Levels.NUM_LEVELS && MetaOk(f.1))
  }

  /** The deleted files in the order the set is iterated. */
  ghost predicate Lists(listing: seq<(nat, nat)>, deleted: set<(nat, nat)>) {
    forall d :: d in listing <==> d in deleted
  }

  function MaybeName(name: Option<Bytes>): seq<Field> {
    if name.Some? then [ComparatorName(name.value)] else []
  }

  function MaybeNumber(tag: nat, n: Option<nat>): seq<Field>
    requires tag in {2, 9, 3, 4}
  {
    if n.Some? then [NumberOf(tag, n.value)] else []
  }

  function HeadFields(e: Edit): seq<Field> {
    MaybeName(e.comparator) + MaybeNumber(2, e.logNumber) + MaybeNumber(9, e.prevLogNumber)
    + MaybeNumber(3, e.nextFile) + MaybeNumber(4, e.lastSequence)
  }

  function PointerFields(ps: seq<(nat, Bytes)>, n: nat): seq<Field>
    requires n <= |ps|
  {
    if n == 0 then [] else PointerFields(ps, n - 1) + [CompactPointer(ps[n - 1].0, ps[n - 1].1)]
  }

  function DeletedFields(ds: seq<(nat, nat)>, n: nat): seq<Field>
    requires n <= |ds|
  {
    if n == 0 then [] else DeletedFields(ds, n - 1) + [DeletedFile(ds[n - 1].0, ds[n - 1].1)]
  }

  function NewFileFields(fs: seq<(nat, Meta)>, n: nat): seq<Field>
    requires n <= |fs|
  {
    if n == 0 then [] else NewFileFields(fs, n - 1) + [NewFile(fs[n - 1].0, fs[n - 1].1)]
  }

  /** The fields EncodeTo writes, in its order. */
  function Fields(e: Edit, listing: seq<(nat, nat)>): seq<Field> {
    HeadFields(e) + PointerFields(e.pointers, |e.pointers|) + DeletedFields(listing, |listing|)
        + NewFileFields(e.newFiles, |e.newFiles|)
  }

  lemma {:induction false} SetAllAppend(e: Edit, a: seq<Field>, b: seq<Field>)
    ensures SetAll(e, a + b) == SetAll(SetAll(e, a), b)
    decreases |b|
  {
    if |b| == 0 {
      assert a + b == a;
    } else {
      assert (a + b)[..|a + b| - 1] == a + b[..|b| - 1];
      SetAllAppend(e, a, b[..|b| - 1]);
    }
  }

  lemma SetOne(e: Edit, f: Field)
    ensures SetAll(e, [f]) == SetField(e, f)
  {
    assert [f][..0] == [];
  }

  lemma SetName(e: Edit, name: Option<Bytes>)
    requires e.comparator.None?
    ensures SetAll(e, MaybeName(name)) == e.(comparator := name)
  {
    if name.Some? {
      SetOne(e, ComparatorName(name.value));
    }
  }

  /** The counters of an edit, one at a time. */
  function WithNumber(e: Edit, tag: nat, n: Option<nat>): Edit
    requires tag in {2, 9, 3, 4}
  {
    if tag == 2 then e.(logNumber := n) else if tag == 9 then e.(prevLogNumber := n)
    else if tag == 3 then e.(nextFile := n) else e.(lastSequence := n)
  }

  lemma SetNumber(e: Edit, tag: nat, n: Option<nat>)
    requires tag in {2, 9, 3, 4} && WithNumber(e, tag, None) == e
    ensures SetAll(e, MaybeNumber(tag, n)) == WithNumber(e, tag, n)
  {
    if n.Some? {
      SetOne(e, NumberOf(tag, n.value));
    }
  }

  lemma SetHead(e: Edit, into: Edit)
    ensures SetAll(Clear(into), HeadFields(e)) == e.(pointers := into.pointers, deleted := {}, newFiles := [])
  {
    var e0 := Clear(into);
    var e1 := e0.(comparator := e.comparator);
    var e2 := e1.(logNumber := e.logNumber);
    var e3 := e2.(prevLogNumber := e.prevLogNumber);
    var e4 := e3.(nextFile := e.nextFile);
    SetName(e0, e.comparator);
    SetNumber(e1, 2, e.logNumber);
    SetNumber(e2, 9, e.prevLogNumber);
    SetNumber(e3, 3, e.nextFile);
    SetNumber(e4, 4, e.lastSequence);
    SetFive(e0, MaybeName(e.comparator), MaybeNumber(2, e.logNumber), MaybeNumber(9, e.prevLogNumber),
            MaybeNumber(3, e.nextFile), MaybeNumber(4, e.lastSequence));
  }

  lemma SetFive(e: Edit, a: seq<Field>, b: seq<Field>, c: seq<Field>, d: seq<Field>, f: seq<Field>)
    ensures SetAll(e, a + b + c + d + f) == SetAll(SetAll(SetAll(SetAll(SetAll(e, a), b), c), d), f)
  {
    SetAllAppend(e, a + b + c + d, f);
    SetAllAppend(e, a + b + c, d);
    SetAllAppend(e, a + b, c);
    SetAllAppend(e, a, b);
  }

  lemma {:induction false} SetPointers(e: Edit, ps: seq<(nat, Bytes)>, n: nat)
    requires n <= |ps|
    ensures SetAll(e, PointerFields(ps, n)) == e.(pointers := e.pointers + ps[..n])
  {
    if n == 0 {
      assert e.pointers + ps[..0] == e.pointers;
    } else {
      SetPointers(e, ps, n - 1);
      var f := CompactPointer(ps[n - 1].0, ps[n - 1].1);
      SetAllAppend(e, PointerFields(ps, n - 1), [f]);
      SetOne(SetAll(e, PointerFields(ps, n - 1)), f);
      assert e.pointers + ps[..n] == e.pointers + ps[..n - 1] + [ps[n - 1]];
    }
  }

  lemma {:induction false} SetDeleted(e: Edit, ds: seq<(nat, nat)>, n: nat)
    requires n <= |ds|
    ensures SetAll(e, DeletedFields(ds, n)) == e.(deleted := e.deleted + set i | 0 <= i < n :: ds[i])
  {
    if n == 0 {
      assert e.deleted + {} == e.deleted;
    } else {
      SetDeleted(e, ds, n - 1);
      var f := DeletedFile(ds[n - 1].0, ds[n - 1].1);
      SetAllAppend(e, DeletedFields(ds, n - 1), [f]);
      SetOne(SetAll(e, DeletedFields(ds, n - 1)), f);
      assert e.deleted + (set i | 0 <= i < n :: ds[i]) == e.deleted + (set i | 0 <= i < n - 1 :: ds[i]) + {ds[n - 1]};
    }
  }

  lemma {:induction false} SetNewFiles(e: Edit, fs: seq<(nat, Meta)>, n: nat)
    requires n <= |fs|
    ensures SetAll(e, NewFileFields(fs, n)) == e.(newFiles := e.newFiles + fs[..n])
  {
    if n == 0 {
      assert e.newFiles + fs[..0] == e.newFiles;
    } else {
      SetNewFiles(e, fs, n - 1);
      var f := NewFile(fs[n - 1].0, fs[n - 1].1);
      SetAllAppend(e, NewFileFields(fs, n - 1), [f]);
      SetOne(SetAll(e, NewFileFields(fs, n - 1)), f);
      assert e.newFiles + fs[..n] == e.newFiles + fs[..n - 1] + [fs[n - 1]];
    }
  }

  lemma ListingSet(listing: seq<(nat, nat)>, deleted: set<(nat, nat)>)
    requires Lists(listing, deleted)
    ensures {} + (set i | 0 <= i < |listing| :: listing[i]) == deleted
  {
    forall d ensures d in deleted <==> d in set i | 0 <= i < |listing| :: listing[i] {
      if d in deleted {
        assert d in listing;
      }
    }
  }

  /** The fields of an edit, applied to a cleared object, give the edit back,
      behind whatever compaction pointers the object already had. */
  lemma SetFields(e: Edit, listing: seq<(nat, nat)>, into: Edit)
    requires Lists(listing, e.deleted)
    ensures SetAll(Clear(into), Fields(e, listing)) == e.(pointers := into.pointers + e.pointers)
  {
    var h, p, d, n := HeadFields(e), PointerFields(e.pointers, |e.pointers|), DeletedFields(listing, |listing|),
        NewFileFields(e.newFiles, |e.newFiles|);
    var e0 := Clear(into);
    SetAllAppend(e0, h + p + d, n);
    SetAllAppend(e0, h + p, d);
    SetAllAppend(e0, h, p);
    SetHead(e, into);
    SetPointers(SetAll(e0, h), e.pointers, |e.pointers|);
    SetDeleted(SetAll(e0, h + p), listing, |listing|);
    SetNewFiles(SetAll(e0, h + p + d), e.newFiles, |e.newFiles|);
    ListingSet(listing, e.deleted);
    assert e.pointers[..|e.pointers|] == e.pointers && [] + e.newFiles[..|e.newFiles|] == e.newFiles;
  }

  lemma {:induction false} PointersOk(ps: seq<(nat, Bytes)>, n: nat)
    requires n <= |ps| && forall p :: p in ps ==> p.0 < Levels.NUM_LEVELS && Fits(p.1)
    ensures FieldsOk(PointerFields(ps, n))
  {
    if n > 0 {
      PointersOk(ps, n - 1);
      assert ps[n - 1] in ps;
    }
  }

  lemma {:induction false} DeletedOk(ds: seq<(nat, nat)>, n: nat)
    requires n <= |ds| && forall d :: d in ds ==> d.0 < Levels.NUM_LEVELS && d.1 < TWO64
    ensures FieldsOk(DeletedFields(ds, n))
  {
    if n > 0 {
      DeletedOk(ds, n - 1);
      assert ds[n - 1] in ds;
    }
  }

  lemma {:induction false} NewFilesOk(fs: seq<(nat, Meta)>, n: nat)
    requires n <= |fs| && forall f :: f in fs ==> f.0 < Levels.NUM_LEVELS && MetaOk(f.1)
    ensures FieldsOk(NewFileFields(fs, n))
  {
    if n > 0 {
      NewFilesOk(fs, n - 1);
      assert fs[n - 1] in fs;
    }
  }

  lemma EditFieldsOk(e: Edit, listing: seq<(nat, nat)>)
    requires EditOk(e) && Lists(listing, e.deleted)
    ensures FieldsOk(Fields(e, listing))
  {
    PointersOk(e.pointers, |e.pointers|);
    DeletedOk(listing, |listing|);
    NewFilesOk(e.newFiles, |e.newFiles|);
  }

  /** Decoding inverts encoding: exactly so when the object decoded into holds
      no compaction pointers, as a fresh one does. */
  lemma EditRoundTrip(e: Edit, listing: seq<(nat, nat)>, into: Edit)
    requires EditOk(e) && Lists(listing, e.deleted)
    ensures FieldsOk(Fields(e, listing))
    ensures DecodeFields(Encode(Fields(e, listing)), Clear(into)) == Ok(e.(pointers := into.pointers + e.pointers))
    ensures DecodeFields(Encode(Fields(e, listing)), Clear(into)) == Ok(e) <==> into.pointers == []
  {
    EditFieldsOk(e, listing);
    SetFields(e, listing, into);
    FieldsRoundTrip(Clear(into), Fields(e, listing), []);
    assert Encode(Fields(e, listing)) + [] == Encode(Fields(e, listing));
    if into.pointers == [] {
      assert into.pointers + e.pointers == e.pointers;
    } else {
      assert |into.pointers + e.pointers| > |e.pointers|;
    }
  }

  // ---- EncodeTo as written ----

  /** Append one field. */
  method PutField(dst: Bytes, f: Field, ghost fs: seq<Field>) returns (r: Bytes)
    requires FieldsOk(fs) && FieldOk(f) && dst == Encode(fs)
    ensures FieldsOk(fs + [f]) && r == Encode(fs + [f])
  {
    r := dst + EncodeField(f);
    assert (fs + [f])[..|fs|] == fs;
  }

  method PutNumber(dst: Bytes, tag: nat, n: Option<nat>, ghost fs: seq<Field>) returns (r: Bytes)
    requires tag in {2, 9, 3, 4} && (n.Some? ==> n.value < TWO64) && FieldsOk(fs) && dst == Encode(fs)
    ensures FieldsOk(fs + MaybeNumber(tag, n)) && r == Encode(fs + MaybeNumber(tag, n))
  {
    r := dst;
    if n.Some? {
      r := PutField(dst, NumberOf(tag, n.value), fs);
    } else {
      assert fs + [] == fs;
    }
  }

  method PutHead(e: Edit) returns (dst: Bytes)
    requires EditOk(e)
    ensures FieldsOk(HeadFields(e)) && dst == Encode(HeadFields(e))
  {
    dst := [];
    if e.comparator.Some? {
      dst := PutField(dst, ComparatorName(e.comparator.value), []);
      assert [] + MaybeName(e.comparator) == MaybeName(e.comparator);
    }
    ghost var fs := MaybeName(e.comparator);
    dst := PutNumber(dst, 2, e.logNumber, fs);
    dst := PutNumber(dst, 9, e.prevLogNumber, fs + MaybeNumber(2, e.logNumber));
    dst := PutNumber(dst, 3, e.nextFile, fs + MaybeNumber(2, e.logNumber) + MaybeNumber(9, e.prevLogNumber));
    dst := PutNumber(dst, 4, e.lastSequence,
      fs + MaybeNumber(2, e.logNumber) + MaybeNumber(9, e.prevLogNumber) + MaybeNumber(3, e.nextFile));
  }

  lemma Snoc(head: seq<Field>, fs: seq<Field>, f: Field)
    ensures head + fs + [f] == head + (fs + [f])
  {}

  method PutPointers(dst: Bytes, ps: seq<(nat, Bytes)>, ghost head: seq<Field>) returns (r: Bytes)
    requires FieldsOk(head) && dst == Encode(head) && forall p :: p in ps ==> p.0 < Levels.NUM_LEVELS && Fits(p.1)
    ensures FieldsOk(head + PointerFields(ps, |ps|)) && r == Encode(head + PointerFields(ps, |ps|))
  {
    r := dst;
    assert head + [] == head;
    for i := 0 to |ps|
      invariant FieldsOk(head + PointerFields(ps, i)) && r == Encode(head + PointerFields(ps, i))
    {
      assert ps[i] in ps;
      var f := CompactPointer(ps[i].0, ps[i].1);
      r := PutField(r, f, head + PointerFields(ps, i));
      Snoc(head, PointerFields(ps, i), f);
    }
  }

  method PutDeleted(dst: Bytes, ds: seq<(nat, nat)>, ghost head: seq<Field>) returns (r: Bytes)
    requires FieldsOk(head) && dst == Encode(head) && forall d :: d in ds ==> d.0 < Levels.NUM_LEVELS && d.1 < TWO64
    ensures FieldsOk(head + DeletedFields(ds, |ds|)) && r == Encode(head + DeletedFields(ds, |ds|))
  {
    r := dst;
    assert head + [] == head;
    for i := 0 to |ds|
      invariant FieldsOk(head + DeletedFields(ds, i)) && r == Encode(head + DeletedFields(ds, i))
    {
      assert ds[i] in ds;
      var f := DeletedFile(ds[i].0, ds[i].1);
      r := PutField(r, f, head + DeletedFields(ds, i));
      Snoc(head, DeletedFields(ds, i), f);
    }
  }

  method PutNewFiles(dst: Bytes, fs: seq<(nat, Meta)>, ghost head: seq<Field>) returns (r: Bytes)
    requires FieldsOk(head) && dst == Encode(head) && forall f :: f in fs ==> f.0 < Levels.NUM_LEVELS && MetaOk(f.1)
    ensures FieldsOk(head + NewFileFields(fs, |fs|)) && r == Encode(head + NewFileFields(fs, |fs|))
  {
    r := dst;
    assert head + [] == head;
    for i := 0 to |fs|
      invariant FieldsOk(head + NewFileFields(fs, i)) && r == Encode(head + NewFileFields(fs, i))
    {
      assert fs[i] in fs;
      var f := NewFile(fs[i].0, fs[i].1);
      r := PutField(r, f, head + NewFileFields(fs, i));
      Snoc(head, NewFileFields(fs, i), f);
    }
  }

  /** VersionEdit::EncodeTo. */
  method EncodeTo(e: Edit, listing: seq<(nat, nat)>) returns (dst: Bytes)
    requires EditOk(e) && Lists(listing, e.deleted)
    ensures FieldsOk(Fields(e, listing)) && dst == Encode(Fields(e, listing))
  {
    ghost var h, p := HeadFields(e), PointerFields(e.pointers, |e.pointers|);
    dst := PutHead(e);
    dst := PutPointers(dst, e.pointers, h);
    dst := PutDeleted(dst, listing, h + p);
    dst := PutNewFiles(dst, e.newFiles, h + p + DeletedFields(listing, |listing|));
  }
}
