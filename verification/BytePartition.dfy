/** PartitionByteSequence, its closed-form size estimates, and the loop that
    sends a byte sequence of any length with it. */
module BytePartition {
  import opened Bytes
  import opened FcgiRecords
  import opened GatherLists
  import opened Wrappers

  /** SSIZE_MAX, SIZE_MAX and IOV_MAX of the platform. */
  datatype Limits = Limits(ssizeMax: nat, sizeMax: nat, iovMax: nat)

  /** POSIX promises sixteen iovecs; the source asserts the first bound. */
  predicate Supported(l: Limits) {
    l.ssizeMax >= 0xFFFF && l.sizeMax >= l.ssizeMax && l.iovMax >= 16
  }

  // ------------------------------------------------------------------
  // Estimates

  function CeilingOfQuotient(numerator: nat, denominator: nat): (q: nat)
    requires denominator > 0
    ensures denominator * q >= numerator > denominator * (q - 1) || numerator == q == 0
  {
    numerator / denominator + if numerator % denominator > 0 then 1 else 0
  }

  function MaxForSsize(ssizeMax: nat): int {
    var inter := 8 * (ssizeMax / 8);
    inter - 8 * CeilingOfQuotient(inter, ALIGNED_MAX)
  }

  function MaxForIovec(l: Limits): int {
    var inter := (l.iovMax - 1) / 2;
    if inter > l.sizeMax / ALIGNED_MAX then l.sizeMax else inter * ALIGNED_MAX
  }

  function MinMax(l: Limits): int {
    if MaxForSsize(l.ssizeMax) <= MaxForIovec(l) then MaxForSsize(l.ssizeMax) else MaxForIovec(l)
  }

  function NeededIovec(m: nat): nat {
    2 * CeilingOfQuotient(m, ALIGNED_MAX) + if m % 8 > 0 then 1 else 0
  }

  function NeededSsize(m: nat): nat {
    m + 8 * CeilingOfQuotient(m, ALIGNED_MAX) + (8 - m % 8) % 8
  }

  function NeededLocalData(m: nat): nat {
    8 * (1 + CeilingOfQuotient(m, ALIGNED_MAX))
  }

  lemma CeilingMonotone(m: nat, n: nat)
    requires m <= n
    ensures CeilingOfQuotient(m, ALIGNED_MAX) <= CeilingOfQuotient(n, ALIGNED_MAX)
  {
  }

  lemma MaxForSsizeFits(ssizeMax: nat, m: nat)
    requires ssizeMax >= 0xFFFF && m <= MaxForSsize(ssizeMax)
    ensures NeededSsize(m) <= ssizeMax
  {
    var inter := 8 * (ssizeMax / 8);
    assert inter <= ssizeMax && inter % 8 == 0;
    CeilingMonotone(m, inter);
    var q, c := CeilingOfQuotient(inter, ALIGNED_MAX), CeilingOfQuotient(m, ALIGNED_MAX);
    assert m + (8 - m % 8) % 8 <= inter - 8 * q by {
      RoundUp(m, ssizeMax / 8 - q);
    }
  }

  lemma RoundUp(m: nat, k: int)
    requires m <= 8 * k
    ensures m + (8 - m % 8) % 8 <= 8 * k
  {
  }

  lemma MaxForSsizePositive(ssizeMax: nat)
    requires ssizeMax >= 0xFFFF
    ensures MaxForSsize(ssizeMax) > 0
  {
    var inter := 8 * (ssizeMax / 8);
    var q := CeilingOfQuotient(inter, ALIGNED_MAX);
    assert inter >= ALIGNED_MAX;
    assert ALIGNED_MAX * (q - 1) < inter;
  }

  lemma MaxForIovecFits(l: Limits, m: nat)
    requires Supported(l) && m <= MinMax(l)
    ensures NeededIovec(m) <= l.iovMax
  {
    var k := (l.iovMax - 1) / 2;
    assert m <= k * ALIGNED_MAX by {
      if k > l.sizeMax / ALIGNED_MAX {
        assert l.sizeMax < (l.sizeMax / ALIGNED_MAX + 1) * ALIGNED_MAX <= k * ALIGNED_MAX;
      }
    }
    FullRecords(m, k);
  }

  lemma FullRecords(m: nat, k: nat)
    requires m <= k * ALIGNED_MAX
    ensures NeededIovec(m) <= 2 * k + 1
  {
    var q := CeilingOfQuotient(m, ALIGNED_MAX);
    assert q > k ==> ALIGNED_MAX * (q - 1) >= ALIGNED_MAX * k;
  }

  /** For every length that one call consumes the estimates respect the limits of
      writev, and a call on a nonempty input consumes something. */
  lemma EstimatesRespectLimits(l: Limits, m: nat)
    requires Supported(l) && m <= MinMax(l)
    ensures NeededSsize(m) <= l.ssizeMax && NeededIovec(m) <= l.iovMax
    ensures MinMax(l) > 0
  {
    MaxForSsizeFits(l.ssizeMax, m);
    MaxForSsizePositive(l.ssizeMax);
    MaxForIovecFits(l, m);
    var inter := (l.iovMax - 1) / 2;
    assert inter >= 7 && inter * ALIGNED_MAX >= ALIGNED_MAX;
  }

  /** What one more record adds to the estimates. */
  lemma EstimateStep(m: nat)
    requires m > 0
    ensures var n := if m <= ALIGNED_MAX then m else ALIGNED_MAX;
            && NeededSsize(m) == HEADER_LEN + n + PaddingFor(n) + NeededSsize(m - n)
            && NeededIovec(m) == 2 + (if PaddingFor(n) > 0 then 1 else 0) + NeededIovec(m - n)
            && NeededLocalData(m) == HEADER_LEN + NeededLocalData(m - n)
  {
    RecordsForStep(m);
    PaddingAfterFull(m);
    assert NeededSsize(0) == 0 && NeededIovec(0) == 0;
    if m > ALIGNED_MAX {
      assert m % 8 == (m - ALIGNED_MAX) % 8;
    }
  }

  // ------------------------------------------------------------------
  // PartitionByteSequence

  datatype Error = InvalidArgument | LogicError

  /** The vector of headers (its first eight bytes serve as padding), the iovecs,
      the number of bytes they cover and the position of the first unused byte. */
  datatype Partition = Partition(local: seq<byte>, iovecs: seq<Slice>, number: nat, next: nat)

  /** One more record: a header, the caller's bytes and, where the length asks
      for it, some of the zeros at the start of the vector. */
  function PlaceRecord(p: Partition, kind: byte, id: nat, content: seq<byte>): Partition
    requires id < 0x1_0000 && |content| <= ALIGNED_MAX
  {
    var padding := PaddingFor(|content|);
    var placed := p.iovecs + [Local(|p.local|, HEADER_LEN)] + [Data(content)];
    Partition(p.local + Header(kind, id, |content|, padding),
              if padding > 0 then placed + [Local(0, padding)] else placed,
              p.number + HEADER_LEN + |content| + padding,
              p.next + |content|)
  }

  /** The iovecs stay inside the vector, whose first bytes are the padding. */
  ghost predicate Placed(p: Partition) {
    && AllInLocal(p.iovecs, p.local) && p.number == TotalLength(p.iovecs)
    && HEADER_LEN <= |p.local| && p.local[..HEADER_LEN] == Zeros(HEADER_LEN)
  }

  lemma IovecsPlaced(vs: seq<Slice>, local: seq<byte>, header: seq<byte>, content: seq<byte>, padding: nat)
    requires AllInLocal(vs, local) && HEADER_LEN <= |local| && local[..HEADER_LEN] == Zeros(HEADER_LEN)
    requires |header| == HEADER_LEN && padding < HEADER_LEN
    ensures var longer := local + header;
            var placed := vs + [Local(|local|, HEADER_LEN)] + [Data(content)];
            var padded := if padding > 0 then placed + [Local(0, padding)] else placed;
            && longer[..HEADER_LEN] == Zeros(HEADER_LEN)
            && AllInLocal(padded, longer)
            && Gather(padded, longer) == Gather(vs, local) + (header + content + Zeros(padding))
  {
    hide Gather;
    var v := Local(|local|, HEADER_LEN);
    var longer := local + header;
    GatherExtended(vs, local, header);
    GatherOne(vs, longer, v);
    GatherOne(vs + [v], longer, Data(content));
    GatherOne(vs + [v] + [Data(content)], longer, Local(0, padding));
    assert Pointed(v, longer) == header;
    assert longer[..HEADER_LEN] == local[..HEADER_LEN];
    assert Pointed(Local(0, padding), longer) == Zeros(HEADER_LEN)[..padding] == Zeros(padding);
    Associate(Gather(vs, local), header, content);
    Associate(Gather(vs, local), header + content, Zeros(padding));
  }

  lemma RecordPlaced(p: Partition, kind: byte, id: nat, content: seq<byte>)
    requires Placed(p) && id < 0x1_0000 && |content| <= ALIGNED_MAX
    ensures var q := PlaceRecord(p, kind, id, content);
            && Placed(q)
            && Gather(q.iovecs, q.local) == Gather(p.iovecs, p.local) + Serialize(FramedRecord(kind, id, content))
  {
    var padding := PaddingFor(|content|);
    IovecsPlaced(p.iovecs, p.local, Header(kind, id, |content|, padding), content, padding);
  }

  /** What one call leaves unconsumed keeps its place after what it framed. */
  lemma FrameTaken(kind: byte, id: nat, content: seq<byte>)
    requires id < 0x1_0000 && content != []
    ensures var n := if |content| <= ALIGNED_MAX then |content| else ALIGNED_MAX;
            Frame(kind, id, content) ==
            Serialize(FramedRecord(kind, id, content[..n])) + Frame(kind, id, content[n..])
  {
    if |content| <= ALIGNED_MAX {
      assert content[..|content|] == content && content[|content|..] == [];
      var s := Serialize(FramedRecord(kind, id, content));
      assert s + [] == s;
    }
  }

  /** What `p` holds and what is still to come make up `whole`. */
  ghost predicate HoldsUpTo(p: Partition, rest: seq<byte>, whole: seq<byte>) {
    Placed(p) && Gather(p.iovecs, p.local) + rest == whole
  }

  /** `p` uses what the estimates for `end - begin` leave after those for the rest. */
  ghost predicate Estimated(p: Partition, begin: nat, end: nat)
    requires begin <= end && p.next <= end
  {
    && p.number + NeededSsize(end - p.next) == NeededSsize(end - begin)
    && |p.iovecs| + NeededIovec(end - p.next) == NeededIovec(end - begin)
    && |p.local| + NeededLocalData(end - p.next) == HEADER_LEN + NeededLocalData(end - begin)
  }

  lemma HoldsStep(p: Partition, kind: byte, id: nat, content: seq<byte>, rest: seq<byte>, whole: seq<byte>)
    requires id < 0x1_0000 && |content| <= ALIGNED_MAX
    requires HoldsUpTo(p, Serialize(FramedRecord(kind, id, content)) + rest, whole)
    ensures HoldsUpTo(PlaceRecord(p, kind, id, content), rest, whole)
  {
    RecordPlaced(p, kind, id, content);
    Associate(Gather(p.iovecs, p.local), Serialize(FramedRecord(kind, id, content)), rest);
  }


  lemma NextFrame(data: seq<byte>, at: nat, end: nat, n: nat, kind: byte, id: nat)
    requires at < end <= |data| && id < 0x1_0000
    requires n == if end - at <= ALIGNED_MAX then end - at else ALIGNED_MAX
    ensures Frame(kind, id, data[at..end]) ==
            Serialize(FramedRecord(kind, id, data[at..at + n])) + Frame(kind, id, data[at + n..end])
  {
    FrameTaken(kind, id, data[at..end]);
    assert data[at..end][..n] == data[at..at + n] && data[at..end][n..] == data[at + n..end];
  }

  /** `p` frames the first part of `data[begin..end]`. */
  ghost predicate FramedPart(p: Partition, data: seq<byte>, begin: nat, end: nat, kind: byte, id: nat)
    requires begin <= end <= |data| && id < 0x1_0000
  {
    && begin <= p.next <= end
    && HoldsUpTo(p, Frame(kind, id, data[p.next..end]), Frame(kind, id, data[begin..end]))
  }

  lemma FramedStep(p: Partition, data: seq<byte>, begin: nat, end: nat, kind: byte, id: nat, n: nat)
    requires begin <= end <= |data| && id < 0x1_0000 && FramedPart(p, data, begin, end, kind, id)
    requires p.next < end && n == if end - p.next <= ALIGNED_MAX then end - p.next else ALIGNED_MAX
    ensures FramedPart(PlaceRecord(p, kind, id, data[p.next..p.next + n]), data, begin, end, kind, id)
  {
    hide Frame, Gather, Serialize;
    var content := data[p.next..p.next + n];
    NextFrame(data, p.next, end, n, kind, id);
    HoldsStep(p, kind, id, content, Frame(kind, id, data[p.next + n..end]), Frame(kind, id, data[begin..end]));
  }

  lemma EstimatedStep(p: Partition, begin: nat, end: nat, kind: byte, id: nat, content: seq<byte>)
    requires begin <= end && id < 0x1_0000 && p.next < end && Estimated(p, begin, end)
    requires |content| == if end - p.next <= ALIGNED_MAX then end - p.next else ALIGNED_MAX
    ensures Estimated(PlaceRecord(p, kind, id, content), begin, end)
  {
    EstimateStep(end - p.next);
  }

  /** The loop of PartitionByteSequence. It fills what the estimates announce
      exactly, neither less nor more. */
  method PlaceRecords(data: seq<byte>, begin: nat, end: nat, kind: byte, id: nat) returns (p: Partition)
    requires begin <= end <= |data| && id < 0x1_0000
    ensures p.next == end && Placed(p)
    ensures Gather(p.iovecs, p.local) == Frame(kind, id, data[begin..end])
    ensures Uses(p, end - begin)
  {
    p := Partition(Zeros(HEADER_LEN), [], 0, begin);
    while p.next < end
      invariant FramedPart(p, data, begin, end, kind, id)
      invariant Estimated(p, begin, end)
    {
      var n := if end - p.next <= ALIGNED_MAX then end - p.next else ALIGNED_MAX;
      FramedStep(p, data, begin, end, kind, id, n);
      EstimatedStep(p, begin, end, kind, id, data[p.next..p.next + n]);
      p := PlaceRecord(p, kind, id, data[p.next..p.next + n]);
    }
    EstimatedAll(p, begin, end);
    assert data[end..end] == [] && Gather(p.iovecs, p.local) + [] == Gather(p.iovecs, p.local);
  }

  /** `p` is exactly as large as the estimates for `m` bytes of content. */
  ghost predicate Uses(p: Partition, m: nat) {
    p.number == NeededSsize(m) && |p.iovecs| == NeededIovec(m) && |p.local| == NeededLocalData(m)
  }

  lemma EstimatedAll(p: Partition, begin: nat, end: nat)
    requires begin <= end == p.next && Estimated(p, begin, end)
    ensures Uses(p, end - begin)
  {
  }

  /** PartitionByteSequence. The check after its loop, which compares the result
      with the estimates, never fails. */
  method PartitionByteSequence(data: seq<byte>, begin: nat, end: nat, kind: byte, id: nat, l: Limits)
    returns (r: Result<Partition, Error>)
    requires begin <= |data| && end <= |data| && id < 0x1_0000 && Supported(l)
    ensures r.Failure? <==> end < begin
    ensures r.Failure? ==> r.error == InvalidArgument
    ensures r.Success? ==>
              var p := r.value;
              && AllInLocal(p.iovecs, p.local)
              && p.number == TotalLength(p.iovecs) <= l.ssizeMax && |p.iovecs| <= l.iovMax
    ensures r.Success? && begin == end ==>
              var p := r.value;
              p.next == begin && Gather(p.iovecs, p.local) == Serialize(Record(kind, id, [], 0))
    ensures r.Success? && begin < end ==>
              var p := r.value;
              && begin < p.next <= end && (p.next == end || p.next == begin + MinMax(l))
              && Gather(p.iovecs, p.local) == Frame(kind, id, data[begin..p.next])
              && Uses(p, p.next - begin)
  {
    if end < begin {
      return Failure(InvalidArgument);
    }
    EstimatesRespectLimits(l, 0);
    var remaining := MinMax(l);
    var workingSsize, workingIovec := NeededSsize(remaining), NeededIovec(remaining);
    if end - begin < remaining {
      remaining := end - begin;
      workingSsize, workingIovec := NeededSsize(remaining), NeededIovec(remaining);
    }
    EstimatesRespectLimits(l, remaining);
    var localLength := NeededLocalData(remaining);
    if begin == end {
      EmptyRecordPlaced(kind, id);
      return Success(Partition(Zeros(HEADER_LEN) + Header(kind, id, 0, 0), [Local(HEADER_LEN, HEADER_LEN)],
                               HEADER_LEN, begin));
    }
    var p := PlaceRecords(data, begin, begin + remaining, kind, id);
    if p.number > workingSsize || |p.iovecs| > workingIovec || |p.local| > localLength {
      return Failure(LogicError);
    }
    return Success(p);
  }

  lemma EmptyRecordPlaced(kind: byte, id: nat)
    requires id < 0x1_0000
    ensures var local := Zeros(HEADER_LEN) + Header(kind, id, 0, 0);
            var vs := [Local(HEADER_LEN, HEADER_LEN)];
            && AllInLocal(vs, local) && TotalLength(vs) == HEADER_LEN
            && Gather(vs, local) == Serialize(Record(kind, id, [], 0))
  {
    var local := Zeros(HEADER_LEN) + Header(kind, id, 0, 0);
    GatherOne([], local, Local(HEADER_LEN, HEADER_LEN));
    assert [] + [Local(HEADER_LEN, HEADER_LEN)] == [Local(HEADER_LEN, HEADER_LEN)];
  }

  // ------------------------------------------------------------------
  // WriteHelper

  /** The stream consists of well-framed records that carry `content`. */
  predicate Carries(s: seq<byte>, kind: byte, id: nat, content: seq<byte>) {
    && Unparsed(s) == []
    && AllFramed(Parse(s), kind, id)
    && Contents(Parse(s)) == content
  }

  lemma AllFramedAppend(a: seq<Record>, b: seq<Record>, kind: byte, id: nat)
    requires AllFramed(a, kind, id) && AllFramed(b, kind, id)
    ensures AllFramed(a + b, kind, id)
  {
  }

  lemma CarriesMore(s: seq<byte>, kind: byte, id: nat, content: seq<byte>, more: seq<byte>)
    requires id < 0x1_0000 && Carries(s, kind, id, content)
    ensures Carries(s + Frame(kind, id, more), kind, id, content + more)
  {
    var f := Frame(kind, id, more);
    FrameParses(kind, id, more);
    JoinFramed(s, f, kind, id, content, more);
  }

  lemma JoinFramed(s: seq<byte>, f: seq<byte>, kind: byte, id: nat, content: seq<byte>, more: seq<byte>)
    requires Carries(s, kind, id, content) && Carries(f, kind, id, more)
    ensures Carries(s + f, kind, id, content + more)
  {
    var a, b := Parse(s), Parse(f);
    ParseAppend(s, f);
    AllFramedAppend(a, b, kind, id);
    ContentsAppend(a, b);
  }

  /** The loop behind Write and WriteError. `usable` says that the request is not
      completed and belongs to an interface, and `written` gives the result of
      each call of ScatterGatherWriteHelper. */
  method WriteHelper(data: seq<byte>, kind: byte, id: nat, l: Limits, usable: bool, written: nat -> bool)
    returns (ok: bool, sent: seq<seq<byte>>, at: nat)
    requires id < 0x1_0000 && Supported(l)
    ensures at <= |data| && Carries(Flatten(sent), kind, id, data[..at])
    ensures forall k :: 0 <= k < |sent| ==> written(k) && 0 < |sent[k]| <= l.ssizeMax
    ensures ok <==> usable && at == |data|
    ensures usable && at < |data| ==> !written(|sent|)
    ensures !usable ==> sent == []
  {
    sent, at := [], 0;
    assert Carries(Flatten([]), kind, id, data[..0]);
    if !usable {
      return false, sent, at;
    }
    ok := true;
    while ok && at != |data|
      invariant at <= |data| && Carries(Flatten(sent), kind, id, data[..at])
      invariant forall k :: 0 <= k < |sent| ==> written(k) && 0 < |sent[k]| <= l.ssizeMax
      invariant !ok ==> at < |data| && !written(|sent|)
      decreases ok, |data| - at
    {
      var r := PartitionByteSequence(data, at, |data|, kind, id, l);
      var p := r.value;
      ok := written(|sent|);
      if ok {
        CarriesMore(Flatten(sent), kind, id, data[..at], data[at..p.next]);
        FlattenMore(sent, Frame(kind, id, data[at..p.next]));
        assert data[..at] + data[at..p.next] == data[..p.next];
        sent := sent + [Frame(kind, id, data[at..p.next])];
        at := p.next;
      }
    }
  }
}
