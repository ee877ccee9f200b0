/** EncodeNameValuePairs: name-value pairs as records for one gather-write, cut
    off wherever a limit of writev asks for it, and the loop that resumes it. */
module NameValueEncoder {
  import opened Bytes
  import opened Common
  import opened BytePartition
  import opened FcgiRecords
  import opened GatherLists
  import opened NameValuePairs
  import opened NameValueWork
  import opened Wrappers

  // ------------------------------------------------------------------
  // The three buffers of a pair

  /** The encoded lengths that precede a name and a value. */
  function Lengths(p: Pair): (s: seq<byte>)
    requires Encodable(p)
    ensures 2 <= |s| <= 8
  {
    EncodeLength(|p.name|, Shortest(p).name) + EncodeLength(|p.value|, Shortest(p).value)
  }

  function Buffer(p: Pair, i: nat): seq<byte>
    requires Encodable(p) && i < 3
  {
    if i == 0 then Lengths(p) else if i == 1 then p.name else p.value
  }

  /** Total length of the buffers before the i-th. */
  function Sum(p: Pair, i: nat): nat
    requires Encodable(p) && i <= 3
  {
    if i == 0 then 0 else if i == 1 then |Lengths(p)|
    else if i == 2 then |Lengths(p)| + |p.name| else |Lengths(p)| + |p.name| + |p.value|
  }

  lemma Joined(a: seq<byte>, b: seq<byte>, c: seq<byte>)
    ensures var e := a + b + c;
            e[0..|a|] == a && e[|a|..|a| + |b|] == b && e[|a| + |b|..|a| + |b| + |c|] == c
  {
  }

  lemma BufferPart(p: Pair, i: nat, from: nat, to: nat)
    requires Encodable(p) && i < 3 && Sum(p, i) <= from <= to <= Sum(p, i + 1)
    ensures |Encode(p)| == Sum(p, 3)
    ensures Encode(p)[from..to] == Buffer(p, i)[from - Sum(p, i)..to - Sum(p, i)]
  {
    hide EncodeLength;
    Joined(Lengths(p), p.name, p.value);
    SliceOfSlice(Encode(p), Sum(p, i), |Buffer(p, i)|, from - Sum(p, i), to - Sum(p, i));
  }

  /** Whether the lengths fit their format and the total fits size_t. */
  predicate Representable(p: Pair, l: Limits) {
    Encodable(p) && |Encode(p)| <= l.sizeMax
  }

  /** The first loop over a pair: its lengths go to the vector unless one is too
      great for its format. `added` bytes were appended in any case. */
  method AppendLengths(p: Pair, local: seq<byte>) returns (tooBig: bool, longer: seq<byte>, added: nat)
    ensures tooBig <==> !Encodable(p)
    ensures |longer| == |local| + added && longer[..|local|] == local
    ensures !tooBig ==> longer == local + Lengths(p) && added == |Lengths(p)|
  {
    var parts := [p.name, p.value];
    tooBig, longer, added := false, local, 0;
    var i := 0;
    while i < 2 && !tooBig
      invariant 0 <= i <= 2 && |longer| == |local| + added && longer[..|local|] == local
      invariant !tooBig && i >= 1 ==> |p.name| <= FOUR_BYTE_MAX
      invariant !tooBig && i == 0 ==> longer == local
      invariant !tooBig && i == 1 ==> longer == local + EncodeLength(|p.name|, Shortest(p).name)
      invariant !tooBig && i == 2 ==> Encodable(p) && longer == local + Lengths(p)
      invariant tooBig ==> !Encodable(p)
    {
      var size := |parts[i]|;
      if size <= ONE_BYTE_MAX {
        longer, added := longer + [size], added + 1;
      } else if size <= FOUR_BYTE_MAX {
        var encoded := EncodeFourByteLength(size);
        longer, added := longer + encoded.value, added + 4;
      } else {
        tooBig := true;
      }
      i := i + 1;
    }
  }

  /** determine_index: the first buffer that is not completely placed. */
  method DetermineIndex(p: Pair, placed: nat) returns (i: nat)
    requires Encodable(p) && placed < |Encode(p)|
    ensures i < 3 && Sum(p, i) <= placed < Sum(p, i + 1)
  {
    assert |Encode(p)| == Sum(p, 3);
    i := 0;
    while i < 2
      invariant 0 <= i <= 2 && Sum(p, i) <= placed
    {
      if placed < Sum(p, i + 1) {
        return;
      }
      i := i + 1;
    }
  }

  // ------------------------------------------------------------------
  // Placing the bytes of a pair

  /** The lengths of the current pair stand in the vector, apart from the header
      that is still being updated. */
  ghost predicate LengthsHeld(local: seq<byte>, header: nat, p: Pair, at: nat)
    requires Encodable(p)
  {
    && at + |Lengths(p)| <= |local| && local[at..at + |Lengths(p)|] == Lengths(p)
    && Elsewhere(Local(at, |Lengths(p)|), header)
  }

  /** The iovec for bytes `from..to` of the pair, all of them in buffer `i`. */
  function PartIovec(p: Pair, i: nat, at: nat, from: nat, to: nat): Slice
    requires Encodable(p) && i < 3 && Sum(p, i) <= from <= to <= Sum(p, i + 1)
  {
    if i == 0 then Local(at + from, to - from)
    else Data(Buffer(p, i)[from - Sum(p, i)..to - Sum(p, i)])
  }

  lemma SliceOfSlice(s: seq<byte>, at: nat, n: nat, from: nat, to: nat)
    requires from <= to <= n && at + n <= |s|
    ensures s[at..at + n][from..to] == s[at + from..at + to]
  {
    var whole, x, y := s[at..at + n], s[at..at + n][from..to], s[at + from..at + to];
    forall k | 0 <= k < to - from ensures x[k] == y[k] {
      assert x[k] == whole[from + k] == s[at + from + k];
    }
  }

  lemma PartIovecPoints(local: seq<byte>, header: nat, p: Pair, i: nat, at: nat, from: nat, to: nat)
    requires Encodable(p) && i < 3 && Sum(p, i) <= from <= to <= Sum(p, i + 1)
    requires LengthsHeld(local, header, p, at)
    ensures var v := PartIovec(p, i, at, from, to);
            && InLocal(v, local) && Elsewhere(v, header) && Length(v) == to - from
            && Pointed(v, local) == Encode(p)[from..to]
  {
    hide Encode, EncodeLength;
    BufferPart(p, i, from, to);
    if i == 0 {
      var n := |Lengths(p)|;
      assert Sum(p, 0) == 0 && Sum(p, 1) == n && to <= n && at + n <= |local|;
      SliceOfSlice(local, at, n, from, to);
      assert Buffer(p, 0) == Lengths(p);
    }
  }

  /** The open record `a` got bytes `placed0..placed` of the pair after `part0`. */
  ghost predicate PartPlaced(w: Work, l: Limits, kind: byte, id: nat, a: nat, full: seq<byte>, part0: seq<byte>,
                             p: Pair, at: nat, placed0: nat, placed: nat)
    requires id < 0x1_0000 && Encodable(p) && placed0 <= placed <= |Encode(p)|
  {
    && Open(w, kind, id, a, full, part0 + Encode(p)[placed0..placed])
    && Budget(w, l.ssizeMax, l.iovMax) && LengthsHeld(w.local, w.headerAt, p, at)
  }

  lemma PlacePart(w: Work, l: Limits, kind: byte, id: nat, a: nat, full: seq<byte>, part0: seq<byte>,
                  p: Pair, i: nat, at: nat, placed0: nat, from: nat, to: nat)
    requires id < 0x1_0000 && Encodable(p) && i < 3 && placed0 <= from <= to <= |Encode(p)|
    requires Sum(p, i) <= from <= to <= Sum(p, i + 1)
    requires PartPlaced(w, l, kind, id, a, full, part0, p, at, placed0, from)
    requires w.recordLength + (to - from) <= ALIGNED_MAX && w.remainingIovecs >= 1 && w.remainingBytes >= to - from
    ensures var v := PartIovec(p, i, at, from, to);
            && Length(v) == to - from
            && PartPlaced(Place(w, v), l, kind, id, a, full, part0, p, at, placed0, to)
  {
    var v := PartIovec(p, i, at, from, to);
    PartIovecPoints(w.local, w.headerAt, p, i, at, from, to);
    PlaceExtends(w, v, kind, id, a, full, part0 + Encode(p)[placed0..from]);
    PointedElsewhere(Local(at, |Lengths(p)|), w.local, Place(w, v).local, w.headerAt);
    PartGrows(part0, Encode(p), placed0, from, to);
    PlaceBudget(w, v, l.ssizeMax, l.iovMax);
  }

  lemma PartGrows(part: seq<byte>, e: seq<byte>, from: nat, to: nat, next: nat)
    requires from <= to <= next <= |e|
    ensures part + e[from..to] + e[to..next] == part + e[from..next]
  {
  }

  lemma PlaceBudget(w: Work, v: Slice, ssizeMax: nat, iovMax: nat)
    requires Budget(w, ssizeMax, iovMax)
    requires w.headerAt + HEADER_LEN <= |w.local| && w.recordLength + Length(v) <= MAX_CONTENT
    requires w.remainingIovecs >= 1 && w.remainingBytes >= Length(v)
    ensures Budget(Place(w, v), ssizeMax, iovMax)
  {
    assert (w.iovecs + [v])[..|w.iovecs|] == w.iovecs;
  }

  /** As much of one buffer as the record and the limits admit. An empty name or
      value adds no iovec. */
  method PlaceFromBuffer(w0: Work, p: Pair, index: nat, at: nat, from: nat, l: Limits, ghost kind: byte,
                         ghost id: nat, ghost a: nat, ghost full: seq<byte>, ghost part: seq<byte>, ghost placed0: nat)
    returns (w: Work, to: nat)
    requires id < 0x1_0000 && Encodable(p) && index < 3 && placed0 <= from <= |Encode(p)|
    requires Sum(p, index) <= from <= Sum(p, index + 1) <= |Encode(p)|
    requires PartPlaced(w0, l, kind, id, a, full, part, p, at, placed0, from)
    requires w0.recordLength < ALIGNED_MAX && w0.remainingIovecs >= 1 && w0.remainingBytes >= 1
    ensures from <= to <= Sum(p, index + 1)
    ensures PartPlaced(w, l, kind, id, a, full, part, p, at, placed0, to)
    ensures from < Sum(p, index + 1) ==> from < to
    ensures to == Sum(p, index + 1) || w.remainingBytes == 0 || w.recordLength == ALIGNED_MAX
    ensures w.recordLength <= ALIGNED_MAX
  {
    var n := Min(Sum(p, index + 1) - from, Min(w0.remainingBytes, ALIGNED_MAX - w0.recordLength));
    w, to := w0, from + n;
    if index == 0 || n > 0 {
      PlacePart(w0, l, kind, id, a, full, part, p, index, at, placed0, from, to);
      w := Place(w0, PartIovec(p, index, at, from, to));
    }
  }

  lemma LastBuffer(p: Pair)
    requires Encodable(p)
    ensures Sum(p, 0) <= Sum(p, 1) <= Sum(p, 2) <= Sum(p, 3) == |Encode(p)|
  {
  }

  /** The innermost loop: bytes of the pair go to the open record until the pair
      ends, the record is full or a limit is reached. */
  method PlaceBuffers(w0: Work, p: Pair, at: nat, placed0: nat, l: Limits, ghost kind: byte, ghost id: nat,
                      ghost a: nat, ghost full: seq<byte>, ghost part: seq<byte>)
    returns (w: Work, placed: nat, limitReached: bool)
    requires id < 0x1_0000 && Encodable(p) && placed0 < |Encode(p)|
    requires PartPlaced(w0, l, kind, id, a, full, part, p, at, placed0, placed0)
    requires w0.recordLength < ALIGNED_MAX && w0.remainingIovecs >= 1 && w0.remainingBytes >= 1
    ensures placed0 < placed <= |Encode(p)|
    ensures PartPlaced(w, l, kind, id, a, full, part, p, at, placed0, placed)
    ensures limitReached <==> w.remainingIovecs == 0 || w.remainingBytes == 0
    ensures limitReached || w.recordLength == ALIGNED_MAX || placed == |Encode(p)|
  {
    w, placed, limitReached := w0, placed0, false;
    var index := DetermineIndex(p, placed);
    LastBuffer(p);
    while index < 3
      invariant index <= 3 && Sum(p, index) <= placed <= |Encode(p)| && placed0 <= placed
      invariant index < 3 ==> placed <= Sum(p, index + 1) && (placed < Sum(p, index + 1) || placed0 < placed)
      invariant index == 3 ==> placed0 < placed
      invariant PartPlaced(w, l, kind, id, a, full, part, p, at, placed0, placed)
      invariant !limitReached
      invariant w.recordLength < ALIGNED_MAX && w.remainingIovecs >= 1 && w.remainingBytes >= 1
    {
      w, placed := PlaceFromBuffer(w, p, index, at, placed, l, kind, id, a, full, part, placed0);
      if w.remainingIovecs == 0 || w.remainingBytes == 0 {
        limitReached := true;
        break;
      }
      if w.recordLength == ALIGNED_MAX {
        break;
      }
      index := index + 1;
    }
  }

  // ------------------------------------------------------------------
  // The records of a pair

  /** Full records hold `full`; an open one, if there is one, holds `part`. */
  ghost predicate Holds(w: Work, kind: byte, id: nat, a: nat, full: seq<byte>, part: seq<byte>)
    requires id < 0x1_0000
  {
    if w.recordLength == 0 then part == [] && Closed(w, kind, id, full) else Open(w, kind, id, a, full, part)
  }

  /** The lengths stand in the vector and no open header covers them. */
  ghost predicate LengthsKept(w: Work, p: Pair, at: nat)
    requires Encodable(p)
  {
    && at + |Lengths(p)| <= |w.local| && w.local[at..at + |Lengths(p)|] == Lengths(p)
    && (w.recordLength > 0 ==> Elsewhere(Local(at, |Lengths(p)|), w.headerAt))
  }

  /** The records hold `prior` and then bytes `from..placed` of the pair. */
  ghost predicate PairPlaced(w: Work, l: Limits, kind: byte, id: nat, a: nat, full: seq<byte>, part: seq<byte>,
                             prior: seq<byte>, p: Pair, at: nat, from: nat, placed: nat)
    requires id < 0x1_0000 && Encodable(p) && from <= placed <= |Encode(p)|
  {
    && Holds(w, kind, id, a, full, part) && Budget(w, l.ssizeMax, l.iovMax) && LengthsKept(w, p, at)
    && full + part == prior + Encode(p)[from..placed]
  }

  /** Room for a header and some content beside what is held back. */
  predicate RoomForRecord(w: Work) {
    w.remainingIovecs >= 2 && w.remainingBytes >= HEADER_LEN + 1
  }

  predicate LimitReached(w: Work) {
    w.remainingIovecs == 0 || w.remainingBytes == 0
  }

  lemma StartBudget(w: Work, kind: byte, id: nat, l: Limits)
    requires id < 0x1_0000 && w.remainingIovecs >= 1 && w.remainingBytes >= HEADER_LEN
    requires Budget(w, l.ssizeMax, l.iovMax)
    ensures Budget(StartRecord(w, kind, id), l.ssizeMax, l.iovMax)
  {
    assert StartRecord(w, kind, id).iovecs[..|w.iovecs|] == w.iovecs;
  }

  lemma StartForPair(w: Work, l: Limits, kind: byte, id: nat, a: nat, full: seq<byte>, part: seq<byte>,
                     prior: seq<byte>, p: Pair, at: nat, from: nat, placed: nat)
    requires id < 0x1_0000 && Encodable(p) && from <= placed <= |Encode(p)|
    requires PairPlaced(w, l, kind, id, a, full, part, prior, p, at, from, placed)
    requires w.recordLength == 0 && RoomForRecord(w)
    ensures PartPlaced(StartRecord(w, kind, id), l, kind, id, |w.iovecs|, full, [], p, at, placed, placed)
  {
    StartRecordOpens(w, kind, id, full);
    StartBudget(w, kind, id, l);
    var n := StartRecord(w, kind, id);
    assert n.local[at..at + |Lengths(p)|] == w.local[at..at + |Lengths(p)|];
    assert [] + Encode(p)[placed..placed] == [];
  }

  lemma ContinueForPair(w: Work, l: Limits, kind: byte, id: nat, a: nat, full: seq<byte>, part: seq<byte>,
                        prior: seq<byte>, p: Pair, at: nat, from: nat, placed: nat)
    requires id < 0x1_0000 && Encodable(p) && from <= placed <= |Encode(p)|
    requires PairPlaced(w, l, kind, id, a, full, part, prior, p, at, from, placed)
    requires w.recordLength > 0
    ensures PartPlaced(w, l, kind, id, a, full, part, p, at, placed, placed)
  {
    assert part + Encode(p)[placed..placed] == part;
  }

  lemma RecordStaysOpen(w: Work, l: Limits, kind: byte, id: nat, a: nat, full: seq<byte>, part: seq<byte>,
                        prior: seq<byte>, p: Pair, at: nat, from: nat, placed: nat, to: nat)
    requires id < 0x1_0000 && Encodable(p) && from <= placed < to <= |Encode(p)|
    requires PartPlaced(w, l, kind, id, a, full, part, p, at, placed, to)
    requires full + part == prior + Encode(p)[from..placed]
    ensures PairPlaced(w, l, kind, id, a, full, part + Encode(p)[placed..to], prior, p, at, from, to)
  {
    Associate(full, part, Encode(p)[placed..to]);
    PartGrows(prior, Encode(p), from, placed, to);
  }

  lemma RecordIsFull(w: Work, l: Limits, kind: byte, id: nat, a: nat, full: seq<byte>, part: seq<byte>,
                     prior: seq<byte>, p: Pair, at: nat, from: nat, to: nat)
    requires id < 0x1_0000 && Encodable(p) && from <= to <= |Encode(p)|
    requires PairPlaced(w, l, kind, id, a, full, part, prior, p, at, from, to) && w.recordLength == ALIGNED_MAX
    ensures PairPlaced(w.(recordLength := 0), l, kind, id, a, full + part, [], prior, p, at, from, to)
  {
    FullRecordCloses(w, kind, id, a, full, part);
    assert full + part + [] == full + part;
  }

  /** One turn of the loop that produces records. */
  method PlaceInRecord(w0: Work, l: Limits, kind: byte, id: nat, p: Pair, at: nat, placed: nat, ghost a0: nat,
                       ghost full0: seq<byte>, ghost part0: seq<byte>, ghost prior: seq<byte>, ghost from: nat)
    returns (w: Work, to: nat, limitReached: bool, ghost a: nat, ghost full: seq<byte>, ghost part: seq<byte>)
    requires id < 0x1_0000 && Encodable(p) && from <= placed < |Encode(p)|
    requires PairPlaced(w0, l, kind, id, a0, full0, part0, prior, p, at, from, placed)
    requires w0.recordLength < ALIGNED_MAX && !LimitReached(w0)
    requires w0.recordLength == 0 ==> RoomForRecord(w0)
    ensures placed < to <= |Encode(p)|
    ensures PairPlaced(w, l, kind, id, a, full, part, prior, p, at, from, to)
    ensures limitReached <==> LimitReached(w)
    ensures !limitReached ==> w.recordLength < ALIGNED_MAX
  {
    w, a, full, part := w0, a0, full0, part0;
    if w.recordLength == 0 {
      StartForPair(w, l, kind, id, a, full, part, prior, p, at, from, placed);
      a := |w.iovecs|;
      w := StartRecord(w, kind, id);
    } else {
      ContinueForPair(w, l, kind, id, a, full, part, prior, p, at, from, placed);
    }
    w, to, limitReached := PlaceBuffers(w, p, at, placed, l, kind, id, a, full, part);
    RecordStaysOpen(w, l, kind, id, a, full, part, prior, p, at, from, placed, to);
    part := part + Encode(p)[placed..to];
    if !limitReached && w.recordLength == ALIGNED_MAX {
      RecordIsFull(w, l, kind, id, a, full, part, prior, p, at, from, to);
      w := w.(recordLength := 0);
      full, part := full + part, [];
    }
  }

  /** The loop that produces records until the pair is placed. It is incomplete
      only when no record can be started or a limit was reached. */
  method PlacePair(w0: Work, l: Limits, kind: byte, id: nat, p: Pair, at: nat, from: nat, ghost a0: nat,
                   ghost full0: seq<byte>, ghost part0: seq<byte>, ghost prior: seq<byte>)
    returns (w: Work, placed: nat, incomplete: bool, ghost a: nat, ghost full: seq<byte>, ghost part: seq<byte>)
    requires id < 0x1_0000 && Encodable(p) && from < |Encode(p)|
    requires PairPlaced(w0, l, kind, id, a0, full0, part0, prior, p, at, from, from)
    requires w0.recordLength < ALIGNED_MAX && !LimitReached(w0)
    ensures from <= placed <= |Encode(p)|
    ensures PairPlaced(w, l, kind, id, a, full, part, prior, p, at, from, placed)
    ensures incomplete <==> placed < |Encode(p)|
    ensures incomplete ==> !RoomForRecord(w)
    ensures LimitReached(w) || w.recordLength < ALIGNED_MAX
    ensures w0.recordLength > 0 || RoomForRecord(w0) ==> from < placed
  {
    w, a, full, part := w0, a0, full0, part0;
    placed, incomplete := from, false;
    var limitReached := false;
    while placed < |Encode(p)| && !limitReached
      invariant from <= placed <= |Encode(p)|
      invariant PairPlaced(w, l, kind, id, a, full, part, prior, p, at, from, placed)
      invariant limitReached <==> LimitReached(w)
      invariant !limitReached ==> w.recordLength < ALIGNED_MAX
      invariant placed == from ==> w == w0
    {
      if w.recordLength == 0 {
        if !RoomForRecord(w) {
          incomplete := true;
          break;
        }
      }
      w, placed, limitReached, a, full, part :=
        PlaceInRecord(w, l, kind, id, p, at, placed, a, full, part, prior, from);
    }
    if limitReached && placed < |Encode(p)| {
      incomplete := true;
    }
  }
}
