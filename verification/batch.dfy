/** WriteBatch: the bytes of a batch, appending to it, and handing its
    operations out again. */
module Batches {
  import opened Keys
  import opened Mvcc
  import opened Coding

  const HEADER: nat := 12

  datatype Op = PutOp(key: Bytes, value: Bytes) | DeleteOp(key: Bytes)

  predicate OpFits(op: Op) {
    |op.key| < TWO32 && (op.PutOp? ==> |op.value| < TWO32)
  }

  // ---- Records ----

  function EncodeOp(op: Op): (r: Bytes)
    requires OpFits(op)
    ensures |r| > 0
  {
    match op
    case PutOp(key, value) => [1] + (Prefixed(key) + Prefixed(value))
    case DeleteOp(key) => [0] + Prefixed(key)
  }

  predicate OpsFit(ops: seq<Op>) {
    forall i :: 0 <= i < |ops| ==> OpFits(ops[i])
  }

  /** The first n pieces joined. */
  function Join(ps: seq<Bytes>, n: nat): Bytes
    requires n <= |ps|
  {
    if n == 0 then [] else Join(ps, n - 1) + ps[n - 1]
  }

  function Pieces(ops: seq<Op>): seq<Bytes>
    requires OpsFit(ops)
  {
    seq(|ops|, i requires 0 <= i < |ops| => EncodeOp(ops[i]))
  }

  function Records(ops: seq<Op>): Bytes
    requires OpsFit(ops)
  {
    Join(Pieces(ops), |ops|)
  }

  lemma {:induction false} JoinPrefix(ps: seq<Bytes>, qs: seq<Bytes>, n: nat)
    requires n <= |ps| && n <= |qs| && forall i :: 0 <= i < n ==> ps[i] == qs[i]
    ensures Join(ps, n) == Join(qs, n)
  {
    if n > 0 {
      JoinPrefix(ps, qs, n - 1);
    }
  }

  lemma {:induction false} JoinTwo(ps: seq<Bytes>, qs: seq<Bytes>, rs: seq<Bytes>, n: nat)
    requires n <= |qs| && |rs| >= |ps| + n
    requires forall i :: 0 <= i < |ps| ==> rs[i] == ps[i]
    requires forall i :: 0 <= i < n ==> rs[|ps| + i] == qs[i]
    ensures Join(rs, |ps| + n) == Join(ps, |ps|) + Join(qs, n)
  {
    if n == 0 {
      JoinPrefix(rs, ps, |ps|);
    } else {
      JoinTwo(ps, qs, rs, n - 1);
      assert rs[|ps| + (n - 1)] == qs[n - 1];
      Assoc(Join(ps, |ps|), Join(qs, n - 1), qs[n - 1]);
    }
  }

  /** Appending one batch's records to another's is appending its operations. */
  lemma RecordsAppend(a: seq<Op>, b: seq<Op>)
    requires OpsFit(a) && OpsFit(b)
    ensures OpsFit(a + b) && Records(a + b) == Records(a) + Records(b)
  {
    JoinTwo(Pieces(a), Pieces(b), Pieces(a + b), |b|);
  }

  lemma RecordsOne(op: Op)
    requires OpFits(op)
    ensures OpsFit([op]) && Records([op]) == EncodeOp(op)
  {
    assert Pieces([op])[0] == EncodeOp(op);
    assert Join(Pieces([op]), 0) == [];
  }

  datatype Next = BadOp(msg: string) | GoodOp(op: Op, rest: Bytes)

  /** One turn of the Iterate loop. */
  function NextOp(input: Bytes): (r: Next)
    requires |input| > 0
    ensures r.GoodOp? ==> |r.rest| < |input|
  {
    var tag, body := input[0], input[1..];
    if tag == 1 then
      match GetPrefixed(body)
      case Fail => BadOp("bad WriteBatch Put")
      case Parsed(key, rest) =>
        match GetPrefixed(rest)
        case Fail => BadOp("bad WriteBatch Put")
        case Parsed(value, rest) => GoodOp(PutOp(key, value), rest)
    else if tag == 0 then
      match GetPrefixed(body)
      case Fail => BadOp("bad WriteBatch Delete")
      case Parsed(key, rest) => GoodOp(DeleteOp(key), rest)
    else BadOp("unknown WriteBatch tag")
  }

  /** The operations handed to the handler, and the error that stopped it. */
  datatype Iterated = Iterated(handled: seq<Op>, error: Option<string>)

  function IterateOps(input: Bytes, handled: seq<Op>): Iterated
    decreases |input|
  {
    if |input| == 0 then Iterated(handled, None)
    else
      match NextOp(input)
      case BadOp(msg) => Iterated(handled, Some(msg))
      case GoodOp(op, rest) => IterateOps(rest, handled + [op])
  }

  lemma OpRoundTrip(op: Op, rest: Bytes)
    requires OpFits(op)
    ensures NextOp(EncodeOp(op) + rest) == GoodOp(op, rest)
  {
    match op
    case PutOp(key, value) =>
      PutBody(key, value, rest);
      PrefixedRoundTrip(key, Prefixed(value) + rest);
      PrefixedRoundTrip(value, rest);
    case DeleteOp(key) =>
      assert (EncodeOp(op) + rest)[1..] == Prefixed(key) + rest;
      PrefixedRoundTrip(key, rest);
  }

  lemma PutBody(key: Bytes, value: Bytes, rest: Bytes)
    requires |key| < TWO32 && |value| < TWO32
    ensures (EncodeOp(PutOp(key, value)) + rest)[1..] == Prefixed(key) + (Prefixed(value) + rest)
  {
    Assoc(Prefixed(key), Prefixed(value), rest);
    assert ([1] + (Prefixed(key) + Prefixed(value)) + rest)[1..] == (Prefixed(key) + Prefixed(value)) + rest;
  }

  lemma IterateOne(op: Op, piece: Bytes, rest: Bytes, handled: seq<Op>)
    requires OpFits(op) && piece == EncodeOp(op)
    ensures IterateOps(piece + rest, handled) == IterateOps(rest, handled + [op])
  {
    OpRoundTrip(op, rest);
  }

  /** Whatever consumes one piece as one operation consumes joined pieces as
      all of them. */
  lemma {:induction false} ConsumePieces(f: (Bytes, seq<Op>) -> Iterated, ps: seq<Bytes>, ops: seq<Op>, n: nat,
        rest: Bytes)
    requires |ps| == |ops| && n <= |ops|
    requires forall i, r, h :: 0 <= i < |ps| ==> f(ps[i] + r, h) == f(r, h + [ops[i]])
    ensures f(Join(ps, n) + rest, []) == f(rest, ops[..n])
  {
    if n == 0 {
      assert Join(ps, n) + rest == rest && ops[..0] == [];
    } else {
      Assoc(Join(ps, n - 1), ps[n - 1], rest);
      ConsumePieces(f, ps, ops, n - 1, ps[n - 1] + rest);
      assert ops[..n - 1] + [ops[n - 1]] == ops[..n];
    }
  }

  lemma OpsRoundTrip(ops: seq<Op>)
    requires OpsFit(ops)
    ensures IterateOps(Records(ops), []) == Iterated(ops, None)
  {
    var ps := Pieces(ops);
    forall i, r, h | 0 <= i < |ps| ensures IterateOps(ps[i] + r, h) == IterateOps(r, h + [ops[i]]) {
      IterateOne(ops[i], ps[i], r, h);
    }
    ConsumePieces(IterateOps, ps, ops, |ops|, []);
    assert Records(ops) + [] == Records(ops) && ops[..|ops|] == ops;
  }

  // ---- The batch ----

  /** rep_, held as its three parts: an 8-byte sequence number, a 4-byte count,
      the records. */
  class WriteBatch {
    var stamp: Bytes
    var count: Bytes
    var records: Bytes
    ghost var ops: seq<Op>

    ghost predicate Valid()
      reads this
    {
      && |stamp| == 8 && |ops| < TWO32 && count == Fixed32(|ops|)
      && OpsFit(ops) && records == Records(ops)
    }

    /** Clear. */
    constructor ()
      ensures Valid() && ops == [] && Sequence() == 0
    {
      stamp, count, records, ops := Fixed64(0), Fixed32(0), [], [];
      new;
      Fixed64RoundTrip(0);
    }

    /** The bytes that are logged. */
    function Contents(): Bytes
      reads this
    {
      stamp + count + records
    }

    function Count(): nat
      reads this
    {
      FromFixed(count)
    }

    function Sequence(): nat
      reads this
    {
      FromFixed(stamp)
    }

    method SetSequence(s: nat)
      requires Valid() && s < TWO64
      modifies this`stamp
      ensures Valid() && Sequence() == s
    {
      Fixed64RoundTrip(s);
      stamp := Fixed64(s);
    }

    /** Put and Delete. */
    method Add(op: Op)
      requires Valid() && OpFits(op) && |ops| + 1 < TWO32
      modifies this
      ensures Valid() && ops == old(ops) + [op] && stamp == old(stamp)
    {
      Fixed32RoundTrip(|ops|);
      RecordsOne(op);
      RecordsAppend(ops, [op]);
      count := Fixed32(Count() + 1);
      records := records + EncodeOp(op);
      ops := ops + [op];
    }

    /** WriteBatchInternal::Append. */
    method Append(src: WriteBatch)
      requires Valid() && src.Valid() && |ops| + |src.ops| < TWO32
      modifies this
      ensures Valid() && ops == old(ops) + old(src.ops) && stamp == old(stamp)
    {
      Fixed32RoundTrip(|ops|);
      Fixed32RoundTrip(|src.ops|);
      RecordsAppend(ops, src.ops);
      var n := Count() + src.Count();
      assert n == |ops + src.ops|;
      count, records, ops := Fixed32(n), records + src.records, ops + src.ops;
    }

    /** A batch hands out exactly the operations put into it. */
    method Iterate() returns (r: Iterated)
      ensures Valid() ==> r == Iterated(ops, None)
    {
      r := IterateRecords(records, Count());
      if Valid() {
        IteratesOps(ops);
      }
    }
  }

  /** WriteBatch::Iterate on any bytes: what reached the handler, and the
      status. */
  method IterateRecords(records: Bytes, count: nat) returns (r: Iterated)
    ensures r == IterateAll(records, count)
  {
    var input, found, handled := records, 0, [];
    while |input| > 0
      invariant found == |handled| && IterateOps(input, handled) == IterateOps(records, [])
      decreases |input|
    {
      found := found + 1;
      var next := NextOp(input);
      match next {
        case BadOp(msg) => return Iterated(handled, Some(msg));
        case GoodOp(op, rest) => input, handled := rest, handled + [op];
      }
    }
    if found != count {
      return Iterated(handled, Some("WriteBatch has wrong count"));
    }
    r := Iterated(handled, None);
  }

  function IterateAll(records: Bytes, count: nat): Iterated {
    var i := IterateOps(records, []);
    if i.error.None? && |i.handled| != count then Iterated(i.handled, Some("WriteBatch has wrong count")) else i
  }

  lemma IteratesOps(ops: seq<Op>)
    requires OpsFit(ops) && |ops| < TWO32
    ensures IterateAll(Records(ops), FromFixed(Fixed32(|ops|))) == Iterated(ops, None)
  {
    OpsRoundTrip(ops);
    Fixed32RoundTrip(|ops|);
  }

  /** WriteBatch::Iterate on a representation set by SetContents, of any length. */
  method IterateContents(rep: Bytes) returns (r: Iterated)
    ensures |rep| < HEADER ==> r == Iterated([], Some("malformed WriteBatch (too small)"))
    ensures |rep| >= HEADER ==> r == IterateAll(rep[HEADER..], FromFixed(rep[8..HEADER]))
  {
    if |rep| < HEADER {
      return Iterated([], Some("malformed WriteBatch (too small)"));
    }
    r := IterateRecords(rep[HEADER..], FromFixed(rep[8..HEADER]));
  }

  /** Logged bytes give back the sequence number and the operations. */
  lemma ContentsRoundTrip(s: nat, ops: seq<Op>)
    requires s < TWO64 && OpsFit(ops) && |ops| < TWO32
    ensures var rep := Fixed64(s) + Fixed32(|ops|) + Records(ops);
            && |rep| >= HEADER && FromFixed(rep[..8]) == s
            && IterateAll(rep[HEADER..], FromFixed(rep[8..HEADER])) == Iterated(ops, None)
  {
    ContentsParts(Fixed64(s), Fixed32(|ops|), Records(ops));
    Fixed64RoundTrip(s);
    IteratesOps(ops);
  }

  lemma ContentsParts(stamp: Bytes, count: Bytes, records: Bytes)
    requires |stamp| == 8 && |count| == 4
    ensures var c := stamp + count + records; c[..8] == stamp && c[8..HEADER] == count && c[HEADER..] == records
  {}

  /** MemTableInserter: consecutive sequence numbers from the batch's own. */
  method InsertInto(b: WriteBatch) returns (entries: seq<(Op, nat)>, error: Option<string>)
    ensures b.Valid() ==> error == None && Inserted(b.ops, b.Sequence(), entries)
  {
    var r := b.Iterate();
    error := r.error;
    entries := Numbered(r.handled, b.Sequence());
  }

  ghost predicate Inserted(ops: seq<Op>, s: nat, entries: seq<(Op, nat)>) {
    |entries| == |ops| && forall i :: 0 <= i < |ops| ==> entries[i] == (ops[i], s + i)
  }

  method Numbered(ops: seq<Op>, s: nat) returns (entries: seq<(Op, nat)>)
    ensures Inserted(ops, s, entries)
  {
    entries := [];
    for i := 0 to |ops|
      invariant |entries| == i && forall k :: 0 <= k < i ==> entries[k] == (ops[k], s + k)
    {
      entries := entries + [(ops[i], s + i)];
    }
  }
}
