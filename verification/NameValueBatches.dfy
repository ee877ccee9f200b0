/** One call of EncodeNameValuePairs, and the sequence of calls that encodes a
    list of pairs of any length. */
module NameValueBatches {
  import opened Bytes
  import opened BytePartition
  import opened FcgiRecords
  import opened GatherLists
  import opened NameValueEncoder
  import opened NameValuePairs
  import opened NameValueWork
  import opened Wrappers

  /** The components of the tuple that is returned. */
  datatype Batch = Batch(ok: bool, number: nat, iovecs: seq<Slice>, records: nat, local: seq<byte>,
                         offset: nat, next: nat)

  ghost predicate WithinLimits(batches: seq<Batch>, l: Limits) {
    forall k :: 0 <= k < |batches| ==>
      batches[k].number == TotalLength(batches[k].iovecs) <= l.ssizeMax && |batches[k].iovecs| <= l.iovMax
  }

  /** A pair and the number of its encoded bytes that were already sent. */
  predicate ValidPosition(pairs: seq<Pair>, i: nat, offset: nat, l: Limits) {
    && i <= |pairs|
    && (offset > 0 ==> i < |pairs| && Representable(pairs[i], l) && offset < |Encode(pairs[i])|)
  }

  predicate AllRepresentable(pairs: seq<Pair>, l: Limits) {
    forall k :: 0 <= k < |pairs| ==> Representable(pairs[k], l)
  }

  /** The bytes of the first `i` pairs and the first `placed` of the next. */
  function Upto(pairs: seq<Pair>, i: nat, placed: nat): seq<byte>
    requires i <= |pairs| && AllEncodable(pairs[..i])
    requires placed > 0 ==> i < |pairs| && Encodable(pairs[i]) && placed <= |Encode(pairs[i])|
  {
    EncodeAll(pairs[..i]) + if placed == 0 then [] else Encode(pairs[i])[..placed]
  }

  lemma UptoGrows(pairs: seq<Pair>, i: nat, from: nat, placed: nat)
    requires i < |pairs| && AllEncodable(pairs[..i]) && Encodable(pairs[i]) && from <= placed <= |Encode(pairs[i])|
    ensures Upto(pairs, i, placed) == Upto(pairs, i, from) + Encode(pairs[i])[from..placed]
  {
    var e, before := Encode(pairs[i]), EncodeAll(pairs[..i]);
    assert before + [] == before;
    assert before + e[..from] + e[from..placed] == before + e[..placed];
    assert e[..from] == [] || from > 0;
  }

  lemma UptoNext(pairs: seq<Pair>, i: nat)
    requires i < |pairs| && AllEncodable(pairs[..i]) && Encodable(pairs[i])
    ensures AllEncodable(pairs[..i + 1])
    ensures Upto(pairs, i + 1, 0) == Upto(pairs, i, |Encode(pairs[i])|)
  {
    var e := Encode(pairs[i]);
    assert pairs[..i + 1] == pairs[..i] + [pairs[i]];
    EncodeAllAppend(pairs[..i], [pairs[i]]);
    assert EncodeAll([pairs[i]]) == e + [] == e[..|e|];
    assert EncodeAll(pairs[..i]) + e + [] == EncodeAll(pairs[..i]) + e;
  }

  /** What has been sent when one call is over: everything up to a position. */
  ghost predicate SentUpto(w: Work, l: Limits, kind: byte, id: nat, a: nat, full: seq<byte>, part: seq<byte>,
                           pairs: seq<Pair>, i: nat, placed: nat, prior: seq<byte>)
    requires id < 0x1_0000 && i <= |pairs| && AllEncodable(pairs[..i])
    requires placed > 0 ==> i < |pairs| && Encodable(pairs[i]) && placed <= |Encode(pairs[i])|
  {
    && Holds(w, kind, id, a, full, part) && Budget(w, l.ssizeMax, l.iovMax)
    && prior + (full + part) == Upto(pairs, i, placed)
  }

  /** Whether the lengths of a pair overflow size_t, as the source computes it. */
  predicate Overflows(p: Pair, added: nat, l: Limits) {
    |p.name| > l.sizeMax - added || |p.value| > l.sizeMax - (|p.name| + added)
  }

  lemma NotRepresentable(p: Pair, l: Limits)
    requires Encodable(p) && Supported(l)
    ensures Overflows(p, |Lengths(p)|, l) <==> !Representable(p, l)
  {
    LastBuffer(p);
  }

  lemma BeforePair(w: Work, l: Limits, kind: byte, id: nat, a: nat, full: seq<byte>, part: seq<byte>,
                   p: Pair, from: nat)
    requires id < 0x1_0000 && Encodable(p) && from <= |Encode(p)|
    requires Holds(w, kind, id, a, full, part) && Budget(w, l.ssizeMax, l.iovMax)
    ensures PairPlaced(w.(local := w.local + Lengths(p)), l, kind, id, a, full, part, full + part, p, |w.local|,
                       from, from)
  {
    var n := w.(local := w.local + Lengths(p));
    if w.recordLength > 0 {
      OpenExtended(w, kind, id, a, full, part, Lengths(p));
    } else {
      ClosedExtended(w, kind, id, full, Lengths(p));
    }
    assert n.local[|w.local|..|w.local| + |Lengths(p)|] == Lengths(p);
    assert full + part + Encode(p)[from..from] == full + part;
  }

  lemma AfterPair(w: Work, l: Limits, kind: byte, id: nat, a: nat, full: seq<byte>, part: seq<byte>,
                  sent: seq<byte>, pairs: seq<Pair>, i: nat, at: nat, from: nat, placed: nat, prior: seq<byte>)
    requires id < 0x1_0000 && i < |pairs| && AllEncodable(pairs[..i]) && Encodable(pairs[i])
    requires from <= placed <= |Encode(pairs[i])|
    requires PairPlaced(w, l, kind, id, a, full, part, sent, pairs[i], at, from, placed)
    requires prior + sent == Upto(pairs, i, from)
    ensures SentUpto(w, l, kind, id, a, full, part, pairs, i, placed, prior)
  {
    UptoGrows(pairs, i, from, placed);
    Associate(prior, sent, Encode(pairs[i])[from..placed]);
  }

  /** The vectors hold whole records without padding. */
  lemma UnpaddedFramed(w: Work, kind: byte, id: nat, a: nat, full: seq<byte>, part: seq<byte>)
    requires id < 0x1_0000 && Holds(w, kind, id, a, full, part) && w.recordLength % HEADER_LEN == 0
    ensures AllInLocal(w.iovecs, w.local) && Gather(w.iovecs, w.local) == Frame(kind, id, full + part)
  {
    if w.recordLength == 0 {
      assert full + part == full;
    } else {
      AlignedRecordFrames(w, kind, id, a, full, part);
    }
  }

  /** The bytes and the iovec that were held back suffice for the padding. */
  lemma PaddedFramed(w: Work, l: Limits, kind: byte, id: nat, a: nat, full: seq<byte>, part: seq<byte>, padding: nat)
    requires id < 0x1_0000 && Holds(w, kind, id, a, full, part) && Budget(w, l.ssizeMax, l.iovMax)
    requires w.recordLength > 0 && padding == PaddingFor(w.recordLength)
    ensures w.headerAt + HEADER_LEN <= |w.local|
    ensures var n := Pad(w, padding);
            && AllInLocal(n.iovecs, n.local) && Gather(n.iovecs, n.local) == Frame(kind, id, full + part)
            && n.number == TotalLength(n.iovecs) <= l.ssizeMax && |n.iovecs| <= l.iovMax
  {
    PadCloses(w, kind, id, a, full, part, padding);
  }

  lemma CountRecords(w: Work, kind: byte, id: nat, a: nat, full: seq<byte>, part: seq<byte>)
    requires id < 0x1_0000 && Holds(w, kind, id, a, full, part)
    ensures w.records == RecordsFor(|full + part|)
  {
    var k := if w.recordLength == 0 then w.records else w.records - 1;
    assert |full + part| == k * ALIGNED_MAX + |part|;
    RecordsForParts(k, |part|);
  }

  lemma RecordsForParts(k: nat, n: nat)
    requires n <= ALIGNED_MAX
    ensures RecordsFor(k * ALIGNED_MAX + n) == k + if n > 0 then 1 else 0
  {
  }

  // ------------------------------------------------------------------
  // The call

  /** A position in the list up to which every byte was placed. */
  ghost predicate Reached(w: Work, l: Limits, kind: byte, id: nat, a: nat, full: seq<byte>, part: seq<byte>,
                          pairs: seq<Pair>, i: nat, placed: nat, prior: seq<byte>)
    requires id < 0x1_0000
  {
    && ValidPosition(pairs, i, placed, l) && AllRepresentable(pairs[..i], l)
    && SentUpto(w, l, kind, id, a, full, part, pairs, i, placed, prior)
  }

  /** The turn of the main loop for a pair that can be represented. */
  method EncodePair(w0: Work, l: Limits, kind: byte, id: nat, pairs: seq<Pair>, i: nat, from: nat,
                    ghost a0: nat, ghost full0: seq<byte>, ghost part0: seq<byte>, ghost prior: seq<byte>)
    returns (w: Work, placed: nat, incomplete: bool, ghost a: nat, ghost full: seq<byte>, ghost part: seq<byte>)
    requires id < 0x1_0000 && i < |pairs| && Representable(pairs[i], l)
    requires Reached(w0, l, kind, id, a0, full0, part0, pairs, i, from, prior)
    requires w0.recordLength < ALIGNED_MAX && !LimitReached(w0)
    ensures incomplete ==> Reached(w, l, kind, id, a, full, part, pairs, i, placed, prior) && !RoomForRecord(w)
    ensures !incomplete ==> Reached(w, l, kind, id, a, full, part, pairs, i + 1, 0, prior)
    ensures LimitReached(w) || w.recordLength < ALIGNED_MAX
    ensures |full0 + part0| <= |full + part|
    ensures w0.recordLength > 0 || RoomForRecord(w0) || !incomplete ==> |full0 + part0| < |full + part|
  {
    hide Frame, Gather, TotalLength, Open, Closed, EncodeAll;
    var p, at := pairs[i], |w0.local|;
    BeforePair(w0, l, kind, id, a0, full0, part0, p, from);
    w, placed, incomplete, a, full, part :=
      PlacePair(w0.(local := w0.local + Lengths(p)), l, kind, id, p, at, from, a0, full0, part0, full0 + part0);
    AfterPair(w, l, kind, id, a, full, part, full0 + part0, pairs, i, at, from, placed, prior);
    assert |full + part| == |full0 + part0| + (placed - from);
    if !incomplete {
      UptoNext(pairs, i);
      assert pairs[..i + 1] == pairs[..i] + [pairs[i]];
    }
  }

  function EmptyWork(l: Limits): Work
    requires Supported(l)
  {
    Work([], [], l.iovMax - 1, l.ssizeMax - (HEADER_LEN - 1), 0, 0, 0, 0)
  }

  /** The main loop. */
  method EncodePairs(pairs: seq<Pair>, kind: byte, id: nat, offset: nat, l: Limits)
    returns (w: Work, tooBig: bool, overflow: bool, next: nat, placed: nat,
             ghost a: nat, ghost full: seq<byte>, ghost part: seq<byte>)
    requires pairs != [] && id < 0x1_0000 && Supported(l) && ValidPosition(pairs, 0, offset, l)
    ensures Reached(w, l, kind, id, a, full, part, pairs, next, placed, Upto(pairs, 0, offset))
    ensures tooBig || overflow ==> next < |pairs| && !Representable(pairs[next], l) && placed == 0
    ensures !tooBig && !overflow ==> full + part != []
    ensures !tooBig && !overflow && next < |pairs| ==> !RoomForRecord(w)
  {
    w, a, full, part := EmptyWork(l), 0, [], [];
    ghost var prior := Upto(pairs, 0, offset);
    next, placed, tooBig, overflow := 0, offset, false, false;
    assert prior + ([] + []) == prior;
    while next < |pairs|
      invariant next <= |pairs| && (next > 0 ==> placed == 0)
      invariant Reached(w, l, kind, id, a, full, part, pairs, next, placed, prior)
      invariant next == 0 ==> w == EmptyWork(l)
      invariant next > 0 ==> full + part != []
      invariant LimitReached(w) || w.recordLength < ALIGNED_MAX
      invariant !tooBig && !overflow
      decreases |pairs| - next
    {
      if w.remainingIovecs == 0 || w.remainingBytes == 0 {
        break;
      }
      var added: nat, longer: seq<byte>;
      tooBig, longer, added := AppendLengths(pairs[next], w.local);
      if !tooBig {
        NotRepresentable(pairs[next], l);
      }
      if tooBig || Overflows(pairs[next], added, l) {
        w := w.(local := longer[..|longer| - added]);
        overflow := !tooBig;
        break;
      }
      var incomplete;
      w, placed, incomplete, a, full, part :=
        EncodePair(w, l, kind, id, pairs, next, placed, a, full, part, prior);
      if incomplete {
        break;
      }
      placed, next := 0, next + 1;
    }
  }

  /** Padding for the last record, if its length asks for it. */
  method AddPadding(w0: Work, l: Limits, kind: byte, id: nat, ghost a: nat, ghost full: seq<byte>,
                    ghost part: seq<byte>)
    returns (w: Work)
    requires id < 0x1_0000 && Holds(w0, kind, id, a, full, part) && Budget(w0, l.ssizeMax, l.iovMax)
    ensures AllInLocal(w.iovecs, w.local) && Gather(w.iovecs, w.local) == Frame(kind, id, full + part)
    ensures w0.number <= w.number == TotalLength(w.iovecs) <= l.ssizeMax
    ensures |w0.iovecs| <= |w.iovecs| <= l.iovMax
    ensures w.records == RecordsFor(|full + part|)
  {
    hide Frame, Gather, TotalLength, Open, Closed;
    CountRecords(w0, kind, id, a, full, part);
    var padMod := w0.recordLength % HEADER_LEN;
    w := w0;
    if padMod > 0 {
      PaddedFramed(w0, l, kind, id, a, full, part, HEADER_LEN - padMod);
      w := Pad(w0, HEADER_LEN - padMod);
    } else {
      UnpaddedFramed(w0, kind, id, a, full, part);
    }
  }

  /** EncodeNameValuePairs for the range `pairs`, of whose first pair `offset`
      bytes were sent by the call before. */
  method EncodeNameValuePairs(pairs: seq<Pair>, kind: byte, id: nat, offset: nat, l: Limits)
    returns (b: Batch, ghost content: seq<byte>)
    requires id < 0x1_0000 && Supported(l) && ValidPosition(pairs, 0, offset, l)
    ensures ValidPosition(pairs, b.next, b.offset, l) && AllRepresentable(pairs[..b.next], l)
    ensures Upto(pairs, 0, offset) + content == Upto(pairs, b.next, b.offset)
    ensures AllInLocal(b.iovecs, b.local) && Gather(b.iovecs, b.local) == Frame(kind, id, content)
    ensures b.number == TotalLength(b.iovecs) <= l.ssizeMax && |b.iovecs| <= l.iovMax
    ensures b.records == RecordsFor(|content|)
    ensures !b.ok ==> b.next < |pairs| && !Representable(pairs[b.next], l) && b.offset == 0
    ensures b.ok && pairs != [] ==> content != []
    ensures b.ok && b.next < |pairs| ==> |b.iovecs| + 2 >= l.iovMax || b.number + 15 >= l.ssizeMax
  {
    if pairs == [] {
      content := [];
      assert Upto(pairs, 0, 0) + [] == Upto(pairs, 0, 0);
      return Batch(true, 0, [], 0, [], 0, 0), [];
    }
    ghost var a: nat, full: seq<byte>, part: seq<byte>;
    var w, tooBig, overflow, next, placed;
    w, tooBig, overflow, next, placed, a, full, part := EncodePairs(pairs, kind, id, offset, l);
    content := full + part;
    w := AddPadding(w, l, kind, id, a, full, part);
    b := Batch(!tooBig && !overflow, w.number, w.iovecs, w.records, w.local, placed, next);
  }

  // ------------------------------------------------------------------
  // The sequence of calls

  /** Positions in a list and in the rest of it. */
  lemma UptoShift(pairs: seq<Pair>, i: nat, j: nat, placed: nat, l: Limits)
    requires i + j <= |pairs| && AllRepresentable(pairs[..i], l) && AllRepresentable(pairs[i..][..j], l)
    requires ValidPosition(pairs[i..], j, placed, l)
    ensures AllRepresentable(pairs[..i + j], l) && ValidPosition(pairs, i + j, placed, l)
    ensures Upto(pairs, i + j, placed) == EncodeAll(pairs[..i]) + Upto(pairs[i..], j, placed)
  {
    var rest := pairs[i..];
    assert pairs[..i + j] == pairs[..i] + rest[..j];
    EncodeAllAppend(pairs[..i], rest[..j]);
    Associate(EncodeAll(pairs[..i]), EncodeAll(rest[..j]), Upto(rest, j, placed)[|EncodeAll(rest[..j])|..]);
  }

  lemma SameOffset(pairs: seq<Pair>, from: nat, to: nat, content: seq<byte>, l: Limits)
    requires ValidPosition(pairs, 0, from, l) && ValidPosition(pairs, 0, to, l) && content != []
    requires Upto(pairs, 0, from) + content == Upto(pairs, 0, to)
    ensures from < to < |Encode(pairs[0])|
  {
    assert |Upto(pairs, 0, from)| == from && |Upto(pairs, 0, to)| == to;
  }

  /** The number of pairs before the first that cannot be represented. */
  function RepresentableCount(pairs: seq<Pair>, l: Limits): (n: nat)
    ensures n <= |pairs| && AllRepresentable(pairs[..n], l)
    ensures n < |pairs| ==> !Representable(pairs[n], l)
  {
    if pairs == [] || !Representable(pairs[0], l) then 0
    else
      var n := RepresentableCount(pairs[1..], l);
      assert pairs[..n + 1] == [pairs[0]] + pairs[1..][..n];
      n + 1
  }

  lemma RepresentablePrefix(pairs: seq<Pair>, n: nat, l: Limits)
    requires n <= |pairs| && AllRepresentable(pairs[..n], l)
    ensures forall k :: 0 <= k < n ==> Representable(pairs[k], l)
  {
    forall k | 0 <= k < n ensures Representable(pairs[k], l) {
      assert pairs[..n][k] == pairs[k];
    }
  }

  lemma CountIsUnique(pairs: seq<Pair>, n: nat, l: Limits)
    requires n <= |pairs| && AllRepresentable(pairs[..n], l)
    requires n < |pairs| ==> !Representable(pairs[n], l)
    ensures RepresentableCount(pairs, l) == n
  {
    var m := RepresentableCount(pairs, l);
    RepresentablePrefix(pairs, n, l);
    RepresentablePrefix(pairs, m, l);
  }

  /** Calling EncodeNameValuePairs with the iterator and the offset that it
      returned, until the list is used up or a pair is refused, terminates. The
      records of all calls together carry the encoding of exactly the pairs
      before the first that cannot be represented, and decode to them. */
  method EncodeInBatches(pairs: seq<Pair>, kind: byte, id: nat, l: Limits)
    returns (ok: bool, batches: seq<Batch>, stream: seq<byte>)
    requires id < 0x1_0000 && Supported(l)
    ensures ok <==> RepresentableCount(pairs, l) == |pairs|
    ensures Carries(stream, kind, id, EncodeAll(pairs[..RepresentableCount(pairs, l)]))
    ensures Decode(Contents(Parse(stream))) == Some(pairs[..RepresentableCount(pairs, l)])
    ensures WithinLimits(batches, l)
  {
    hide Carries, EncodeAll, Decode, TotalLength;
    batches, stream, ok := [], [], true;
    var next: nat, offset: nat := 0, 0;
    StreamStarts(kind, id, pairs, l);
    while ok && next < |pairs|
      invariant StreamUpto(stream, kind, id, pairs, next, offset, l)
      invariant !ok ==> next < |pairs| && !Representable(pairs[next], l) && offset == 0
      invariant WithinLimits(batches, l)
      decreases ok, |pairs| - next, BytesLeft(pairs, next, offset)
    {
      var b;
      b, stream := NextBatch(pairs, kind, id, l, next, offset, stream);
      batches := batches + [b];
      ok, offset, next := b.ok, b.offset, next + b.next;
    }
    assert offset == 0;
    AllCarried(pairs, next, stream, kind, id, l);
  }

  lemma StreamStarts(kind: byte, id: nat, pairs: seq<Pair>, l: Limits)
    ensures StreamUpto([], kind, id, pairs, 0, 0, l)
  {
    assert EncodeAll(pairs[..0]) == [];
  }

  method NextBatch(pairs: seq<Pair>, kind: byte, id: nat, l: Limits, next: nat, offset: nat, stream0: seq<byte>)
    returns (b: Batch, stream: seq<byte>)
    requires id < 0x1_0000 && Supported(l) && next < |pairs|
    requires StreamUpto(stream0, kind, id, pairs, next, offset, l)
    ensures StreamUpto(stream, kind, id, pairs, next + b.next, b.offset, l)
    ensures b.number == TotalLength(b.iovecs) <= l.ssizeMax && |b.iovecs| <= l.iovMax
    ensures !b.ok ==> next + b.next < |pairs| && !Representable(pairs[next + b.next], l) && b.offset == 0
    ensures b.ok && b.next == 0 ==> BytesLeft(pairs, next, b.offset) < BytesLeft(pairs, next, offset)
  {
    hide Frame, Gather, TotalLength, EncodeAll, Parse, Unparsed;
    ghost var more;
    var rest := pairs[next..];
    assert rest[0] == pairs[next];
    b, more := EncodeNameValuePairs(rest, kind, id, offset, l);
    StreamGrows(stream0, kind, id, pairs, next, offset, b.next, b.offset, more, l);
    stream := stream0 + Gather(b.iovecs, b.local);
    assert !b.ok ==> rest[b.next] == pairs[next + b.next];
  }

  /** Bytes of a pair that a call has still to place. */
  function BytesLeft(pairs: seq<Pair>, i: nat, offset: nat): nat {
    if i < |pairs| && Encodable(pairs[i]) && offset <= |Encode(pairs[i])| then |Encode(pairs[i])| - offset else 0
  }

  lemma AllCarried(pairs: seq<Pair>, n: nat, stream: seq<byte>, kind: byte, id: nat, l: Limits)
    requires n <= |pairs| && AllRepresentable(pairs[..n], l)
    requires n < |pairs| ==> !Representable(pairs[n], l)
    requires StreamUpto(stream, kind, id, pairs, n, 0, l)
    ensures RepresentableCount(pairs, l) == n
    ensures Carries(stream, kind, id, EncodeAll(pairs[..n]))
    ensures Decode(Contents(Parse(stream))) == Some(pairs[..n])
  {
    CountIsUnique(pairs, n, l);
    DecodeEncoded(pairs[..n]);
    assert EncodeAll(pairs[..n]) + [] == EncodeAll(pairs[..n]);
  }

  /** The stream carries the encoding of the list up to a position. */
  ghost predicate StreamUpto(stream: seq<byte>, kind: byte, id: nat, pairs: seq<Pair>, i: nat, offset: nat, l: Limits) {
    && ValidPosition(pairs, i, offset, l) && AllRepresentable(pairs[..i], l)
    && Carries(stream, kind, id, Upto(pairs, i, offset))
  }

  lemma StreamGrows(stream: seq<byte>, kind: byte, id: nat, pairs: seq<Pair>, i: nat, from: nat, j: nat, to: nat,
                    more: seq<byte>, l: Limits)
    requires id < 0x1_0000 && StreamUpto(stream, kind, id, pairs, i, from, l)
    requires ValidPosition(pairs[i..], j, to, l) && AllRepresentable(pairs[i..][..j], l)
    requires Upto(pairs[i..], 0, from) + more == Upto(pairs[i..], j, to)
    ensures StreamUpto(stream + Frame(kind, id, more), kind, id, pairs, i + j, to, l)
    ensures j == 0 && more != [] ==> BytesLeft(pairs, i, to) < BytesLeft(pairs, i, from)
  {
    BatchAdds(pairs, i, from, j, to, more, l);
    CarriesMore(stream, kind, id, Upto(pairs, i, from), more);
  }

  lemma BatchAdds(pairs: seq<Pair>, i: nat, from: nat, j: nat, to: nat, more: seq<byte>, l: Limits)
    requires ValidPosition(pairs, i, from, l) && AllRepresentable(pairs[..i], l)
    requires ValidPosition(pairs[i..], j, to, l) && AllRepresentable(pairs[i..][..j], l)
    requires Upto(pairs[i..], 0, from) + more == Upto(pairs[i..], j, to)
    ensures ValidPosition(pairs, i + j, to, l) && AllRepresentable(pairs[..i + j], l)
    ensures Upto(pairs, i, from) + more == Upto(pairs, i + j, to)
    ensures j == 0 && more != [] ==> BytesLeft(pairs, i, to) < BytesLeft(pairs, i, from)
  {
    UptoShift(pairs, i, 0, from, l);
    UptoShift(pairs, i, j, to, l);
    Associate(EncodeAll(pairs[..i]), Upto(pairs[i..], 0, from), more);
    if j == 0 && more != [] {
      SameOffset(pairs[i..], from, to, more, l);
    }
  }
}
