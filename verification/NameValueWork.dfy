/** The vectors and counters that EncodeNameValuePairs works on, and the steps
    that start a record, place bytes in it, and finish it. */
module NameValueWork {
  import opened Bytes
  import opened FcgiRecords
  import opened GatherLists

  /** `recordLength` is the content length of the record being filled, zero when
      a new record has to be started; its header is at `headerAt`. */
  datatype Work = Work(local: seq<byte>, iovecs: seq<Slice>, remainingIovecs: nat, remainingBytes: nat,
                       number: nat, recordLength: nat, headerAt: nat, records: nat)

  // ------------------------------------------------------------------
  // Steps

  function StartRecord(w: Work, kind: byte, id: nat): Work
    requires id < 0x1_0000 && w.remainingIovecs >= 1 && w.remainingBytes >= HEADER_LEN
  {
    Work(w.local + Header(kind, id, 0, 0), w.iovecs + [Local(|w.local|, HEADER_LEN)],
         w.remainingIovecs - 1, w.remainingBytes - HEADER_LEN, w.number + HEADER_LEN, 0, |w.local|, w.records + 1)
  }

  /** The content length bytes of the header at `h` are overwritten. */
  function WithLength(local: seq<byte>, h: nat, n: nat): seq<byte>
    requires h + HEADER_LEN <= |local| && n <= MAX_CONTENT
  {
    local[h + 4 := n / 256][h + 5 := n % 256]
  }

  /** Adds an iovec to the record and its length to the header. */
  function Place(w: Work, v: Slice): Work
    requires w.headerAt + HEADER_LEN <= |w.local| && w.recordLength + Length(v) <= MAX_CONTENT
    requires w.remainingIovecs >= 1 && w.remainingBytes >= Length(v)
  {
    var longer := w.recordLength + Length(v);
    w.(local := WithLength(w.local, w.headerAt, longer), iovecs := w.iovecs + [v],
       remainingIovecs := w.remainingIovecs - 1, remainingBytes := w.remainingBytes - Length(v),
       number := w.number + Length(v), recordLength := longer)
  }

  /** The padding that closes the last record of a call. */
  function Pad(w: Work, padding: nat): Work
    requires w.headerAt + HEADER_LEN <= |w.local| && padding < 256
  {
    w.(iovecs := w.iovecs + [Local(|w.local|, padding)], local := Padded(w.local, w.headerAt, padding),
       number := w.number + padding)
  }

  function Padded(local: seq<byte>, h: nat, padding: nat): seq<byte>
    requires h + HEADER_LEN <= |local| && padding < 256
  {
    (local + Zeros(padding))[h + 6 := padding]
  }

  // ------------------------------------------------------------------
  // What the vectors hold

  /** One iovec and seven bytes are held back for padding. */
  ghost predicate Budget(w: Work, ssizeMax: nat, iovMax: nat) {
    && w.number == TotalLength(w.iovecs)
    && w.number + w.remainingBytes + (HEADER_LEN - 1) == ssizeMax
    && |w.iovecs| + w.remainingIovecs + 1 == iovMax
  }

  /** Full records hold `content`; a new record comes next. */
  ghost predicate Closed(w: Work, kind: byte, id: nat, content: seq<byte>)
    requires id < 0x1_0000
  {
    && w.recordLength == 0 && |content| == w.records * ALIGNED_MAX
    && AllInLocal(w.iovecs, w.local)
    && Gather(w.iovecs, w.local) == Frame(kind, id, content)
  }

  /** Full records hold `full`, and the record whose header is iovec `a` holds
      `part` so far. */
  ghost predicate Open(w: Work, kind: byte, id: nat, a: nat, full: seq<byte>, part: seq<byte>)
    requires id < 0x1_0000
  {
    && w.recordLength == |part| <= ALIGNED_MAX && |full| + ALIGNED_MAX == w.records * ALIGNED_MAX
    && a < |w.iovecs| && w.iovecs[a] == Local(w.headerAt, HEADER_LEN)
    && AllInLocal(w.iovecs, w.local) && w.headerAt + HEADER_LEN <= |w.local|
    && AllElsewhere(w.iovecs[..a], w.headerAt) && AllElsewhere(w.iovecs[a + 1..], w.headerAt)
    && Gather(w.iovecs[..a], w.local) == Frame(kind, id, full)
    && w.local[w.headerAt..w.headerAt + HEADER_LEN] == Header(kind, id, |part|, 0)
    && Gather(w.iovecs[a + 1..], w.local) == part
  }

  lemma StartRecordOpens(w: Work, kind: byte, id: nat, full: seq<byte>)
    requires id < 0x1_0000 && Closed(w, kind, id, full) && w.remainingIovecs >= 1 && w.remainingBytes >= HEADER_LEN
    ensures Open(StartRecord(w, kind, id), kind, id, |w.iovecs|, full, [])
  {
    var n := StartRecord(w, kind, id);
    GatherExtended(w.iovecs, w.local, Header(kind, id, 0, 0));
    assert n.iovecs[..|w.iovecs|] == w.iovecs && n.iovecs[|w.iovecs| + 1..] == [];
    assert n.local[n.headerAt..n.headerAt + HEADER_LEN] == Header(kind, id, 0, 0);
  }

  /** Bytes appended to the vector, such as the lengths of the next pair, change
      nothing that was placed before. */
  lemma OpenExtended(w: Work, kind: byte, id: nat, a: nat, full: seq<byte>, part: seq<byte>, more: seq<byte>)
    requires id < 0x1_0000 && Open(w, kind, id, a, full, part)
    ensures Open(w.(local := w.local + more), kind, id, a, full, part)
  {
    var n := w.(local := w.local + more);
    GatherExtended(w.iovecs, w.local, more);
    GatherExtended(w.iovecs[..a], w.local, more);
    GatherExtended(w.iovecs[a + 1..], w.local, more);
    assert n.local[w.headerAt..w.headerAt + HEADER_LEN] == w.local[w.headerAt..w.headerAt + HEADER_LEN];
  }

  lemma ClosedExtended(w: Work, kind: byte, id: nat, full: seq<byte>, more: seq<byte>)
    requires id < 0x1_0000 && Closed(w, kind, id, full)
    ensures Closed(w.(local := w.local + more), kind, id, full)
  {
    GatherExtended(w.iovecs, w.local, more);
  }

  lemma WithLengthHeader(local: seq<byte>, h: nat, n: nat, kind: byte, id: nat, before: nat)
    requires h + HEADER_LEN <= |local| && n <= MAX_CONTENT && id < 0x1_0000 && before <= MAX_CONTENT
    requires local[h..h + HEADER_LEN] == Header(kind, id, before, 0)
    ensures WithLength(local, h, n)[h..h + HEADER_LEN] == Header(kind, id, n, 0)
    ensures SameBut(local, WithLength(local, h, n), h)
  {
    var changed := WithLength(local, h, n);
    forall k | 0 <= k < HEADER_LEN ensures changed[h..h + HEADER_LEN][k] == Header(kind, id, n, 0)[k] {
      assert local[h..h + HEADER_LEN][k] == local[h + k];
    }
  }

  lemma PlaceExtends(w: Work, v: Slice, kind: byte, id: nat, a: nat, full: seq<byte>, part: seq<byte>)
    requires id < 0x1_0000 && Open(w, kind, id, a, full, part)
    requires InLocal(v, w.local) && Elsewhere(v, w.headerAt) && |part| + Length(v) <= ALIGNED_MAX
    requires w.remainingIovecs >= 1 && w.remainingBytes >= Length(v)
    ensures Open(Place(w, v), kind, id, a, full, part + Pointed(v, w.local))
    ensures SameBut(w.local, Place(w, v).local, w.headerAt)
  {
    hide Frame, Gather;
    var n := Place(w, v);
    WithLengthHeader(w.local, w.headerAt, n.recordLength, kind, id, |part|);
    PlacedAfter(w.iovecs, v, a);
    PlacedGathers(w.iovecs, w.local, n.local, w.headerAt, a, v);
  }

  lemma PlacedGathers(vs: seq<Slice>, local: seq<byte>, changed: seq<byte>, h: nat, a: nat, v: Slice)
    requires a < |vs| && AllInLocal(vs, local) && InLocal(v, local) && SameBut(local, changed, h)
    requires AllElsewhere(vs[..a], h) && AllElsewhere(vs[a + 1..], h) && Elsewhere(v, h)
    ensures AllInLocal(vs + [v], changed)
    ensures Gather(vs[..a], changed) == Gather(vs[..a], local)
    ensures Gather(vs[a + 1..] + [v], changed) == Gather(vs[a + 1..], local) + Pointed(v, local)
  {
    GatherElsewhere(vs[..a], local, changed, h);
    GatherElsewhere(vs[a + 1..], local, changed, h);
    PointedElsewhere(v, local, changed, h);
    GatherOne(vs[a + 1..], changed, v);
  }

  lemma PlacedAfter(vs: seq<Slice>, v: Slice, a: nat)
    requires a < |vs|
    ensures (vs + [v])[..a] == vs[..a] && (vs + [v])[a] == vs[a] && (vs + [v])[a + 1..] == vs[a + 1..] + [v]
  {
  }

  /** The whole of the list once its last record is complete. */
  lemma GatherOpen(w: Work, kind: byte, id: nat, a: nat, full: seq<byte>, part: seq<byte>)
    requires id < 0x1_0000 && Open(w, kind, id, a, full, part)
    ensures Gather(w.iovecs, w.local) == Frame(kind, id, full) + (Header(kind, id, |part|, 0) + part)
  {
    GatherAround(w.iovecs, a, w.local);
    Associate(Frame(kind, id, full), Header(kind, id, |part|, 0), part);
  }

  lemma {:induction false} FrameAppend(kind: byte, id: nat, full: seq<byte>, part: seq<byte>, k: nat)
    requires id < 0x1_0000 && |full| == k * ALIGNED_MAX && 0 < |part| <= ALIGNED_MAX
    ensures Frame(kind, id, full + part) ==
            Frame(kind, id, full) + Serialize(FramedRecord(kind, id, part))
    decreases k
  {
    var last := Serialize(FramedRecord(kind, id, part));
    if k == 0 {
      assert full + part == part;
      assert [] + last == last;
    } else {
      var first, rest := full[..ALIGNED_MAX], full[ALIGNED_MAX..];
      FrameAppend(kind, id, rest, part, k - 1);
      FrameFull(kind, id, first, rest + part);
      FrameFull(kind, id, first, rest);
      assert full + part == first + (rest + part) && full == first + rest;
      Associate(Serialize(FramedRecord(kind, id, first)), Frame(kind, id, rest), last);
    }
  }

  lemma FrameFull(kind: byte, id: nat, first: seq<byte>, rest: seq<byte>)
    requires id < 0x1_0000 && |first| == ALIGNED_MAX
    ensures Frame(kind, id, first + rest) == Serialize(FramedRecord(kind, id, first)) + Frame(kind, id, rest)
  {
    var s := Serialize(FramedRecord(kind, id, first));
    if rest == [] {
      assert first + rest == first && s + [] == s;
    } else {
      assert (first + rest)[..ALIGNED_MAX] == first && (first + rest)[ALIGNED_MAX..] == rest;
    }
  }

  /** A record whose length is a multiple of eight needs no padding. */
  lemma AlignedRecordFrames(w: Work, kind: byte, id: nat, a: nat, full: seq<byte>, part: seq<byte>)
    requires id < 0x1_0000 && Open(w, kind, id, a, full, part) && part != [] && |part| % 8 == 0
    ensures Gather(w.iovecs, w.local) == Frame(kind, id, full + part)
  {
    hide Frame, Gather, Serialize, FramedRecord;
    assert w.records >= 1 && |full| == (w.records - 1) * ALIGNED_MAX && |part| <= ALIGNED_MAX;
    FrameAppend(kind, id, full, part, w.records - 1);
    SerializeUnpadded(kind, id, part);
    GatherOpen(w, kind, id, a, full, part);
  }

  lemma FullRecordCloses(w: Work, kind: byte, id: nat, a: nat, full: seq<byte>, part: seq<byte>)
    requires id < 0x1_0000 && Open(w, kind, id, a, full, part) && |part| == ALIGNED_MAX
    ensures Closed(w.(recordLength := 0), kind, id, full + part)
  {
    hide Frame, Gather;
    AlignedRecordFrames(w, kind, id, a, full, part);
  }

  lemma SerializeUnpadded(kind: byte, id: nat, part: seq<byte>)
    requires id < 0x1_0000 && |part| <= ALIGNED_MAX && |part| % 8 == 0
    ensures Serialize(FramedRecord(kind, id, part)) == Header(kind, id, |part|, 0) + part
  {
    var s := Header(kind, id, |part|, 0) + part;
    assert s + Zeros(0) == s;
  }

  /** The last record of a call is padded to a multiple of eight. */
  lemma PadCloses(w: Work, kind: byte, id: nat, a: nat, full: seq<byte>, part: seq<byte>, padding: nat)
    requires id < 0x1_0000 && Open(w, kind, id, a, full, part) && padding == PaddingFor(|part|) && part != []
    ensures var n := Pad(w, padding);
            && AllInLocal(n.iovecs, n.local)
            && Gather(n.iovecs, n.local) == Frame(kind, id, full + part)
            && TotalLength(n.iovecs) == TotalLength(w.iovecs) + padding
  {
    hide Frame, Gather;
    assert w.records >= 1 && |full| == (w.records - 1) * ALIGNED_MAX && |part| <= ALIGNED_MAX;
    FramePadded(kind, id, full, part, w.records - 1);
    PadGathers(w, kind, id, a, full, part, padding);
  }

  lemma PadGathers(w: Work, kind: byte, id: nat, a: nat, full: seq<byte>, part: seq<byte>, padding: nat)
    requires id < 0x1_0000 && Open(w, kind, id, a, full, part) && padding < 256
    ensures var n := Pad(w, padding);
            && AllInLocal(n.iovecs, n.local)
            && Gather(n.iovecs, n.local) ==
               Frame(kind, id, full) + Header(kind, id, |part|, padding) + part + Zeros(padding)
            && TotalLength(n.iovecs) == TotalLength(w.iovecs) + padding
  {
    GatherPadded(w, kind, id, a, full, part, padding);
    GatherOne(w.iovecs, Padded(w.local, w.headerAt, padding), Local(|w.local|, padding));
  }

  lemma FramePadded(kind: byte, id: nat, full: seq<byte>, part: seq<byte>, k: nat)
    requires id < 0x1_0000 && |full| == k * ALIGNED_MAX && 0 < |part| <= ALIGNED_MAX
    ensures var padding := PaddingFor(|part|);
            Frame(kind, id, full + part) ==
            Frame(kind, id, full) + Header(kind, id, |part|, padding) + part + Zeros(padding)
  {
    var padding := PaddingFor(|part|);
    FrameAppend(kind, id, full, part, k);
    JoinPadded(Frame(kind, id, full), Header(kind, id, |part|, padding), part, Zeros(padding));
  }

  /** The padding length in the header changes nothing that other iovecs see. */
  lemma GatherPadded(w: Work, kind: byte, id: nat, a: nat, full: seq<byte>, part: seq<byte>, padding: nat)
    requires id < 0x1_0000 && Open(w, kind, id, a, full, part) && padding < 256
    ensures var changed := Padded(w.local, w.headerAt, padding);
            && AllInLocal(w.iovecs, changed)
            && changed[|w.local|..|w.local| + padding] == Zeros(padding)
            && Gather(w.iovecs, changed) == Frame(kind, id, full) + Header(kind, id, |part|, padding) + part
  {
    var longer := w.local + Zeros(padding);
    var changed := Padded(w.local, w.headerAt, padding);
    GatherExtended(w.iovecs[..a], w.local, Zeros(padding));
    GatherExtended(w.iovecs[a + 1..], w.local, Zeros(padding));
    PaddedHeader(w.local, w.headerAt, padding, kind, id, |part|);
    GatherElsewhere(w.iovecs[..a], longer, changed, w.headerAt);
    GatherElsewhere(w.iovecs[a + 1..], longer, changed, w.headerAt);
    GatherAround(w.iovecs, a, changed);
  }

  lemma PaddedHeader(local: seq<byte>, h: nat, padding: nat, kind: byte, id: nat, n: nat)
    requires h + HEADER_LEN <= |local| && n <= MAX_CONTENT && id < 0x1_0000 && padding < 256
    requires local[h..h + HEADER_LEN] == Header(kind, id, n, 0)
    ensures var changed := Padded(local, h, padding);
            && SameBut(local + Zeros(padding), changed, h)
            && changed[h..h + HEADER_LEN] == Header(kind, id, n, padding)
            && changed[|local|..|local| + padding] == Zeros(padding)
  {
    var changed := Padded(local, h, padding);
    forall k | 0 <= k < HEADER_LEN ensures changed[h..h + HEADER_LEN][k] == Header(kind, id, n, padding)[k] {
      assert local[h..h + HEADER_LEN][k] == local[h + k];
    }
  }

  lemma JoinPadded(f: seq<byte>, h: seq<byte>, part: seq<byte>, zeros: seq<byte>)
    ensures f + h + part + zeros == f + (h + part + zeros)
  {
  }
}
