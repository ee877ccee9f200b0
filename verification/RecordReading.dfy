/** The byte stream of a connection: sections of records, arriving in portions of
    any size. */
module RecordReading {
  import opened Bytes
  import opened Common
  import opened FcgiRecords
  import opened InterfaceMaps
  import opened RecordHandling
  import opened RequestStreams
  import opened Wrappers

  /** The state of a RecordStatus object. `content` is its local buffer. */
  datatype Partial = Partial(header: seq<byte>, received: nat, contentLength: nat, padding: nat, kind: byte,
                             id: nat, rejected: bool, content: seq<byte>)

  /** ClearRecord. */
  const EMPTY_PARTIAL := Partial([], 0, 0, 0, 0, 0, false, [])

  datatype Reader = Reader(p: Partial, m: Connection)

  // ------------------------------------------------------------------
  // Consistency

  predicate HeaderComplete(p: Partial) {
    p.received >= HEADER_LEN
  }

  predicate PartialOk(p: Partial) {
    if HeaderComplete(p) then
      && |p.header| == HEADER_LEN && p.contentLength <= MAX_CONTENT && p.padding < 256
      && p.received < HEADER_LEN + p.contentLength + p.padding
    else
      |p.header| == p.received && p == EMPTY_PARTIAL.(header := p.header, received := p.received)
  }

  /** Management, begin-request and abort records are kept in the local buffer. */
  predicate Local(p: Partial) {
    p.id == 0 || p.kind == BEGIN_REQUEST || p.kind == ABORT_REQUEST
  }

  /** An accepted record still meets what its header was accepted for. */
  predicate Accepted(p: Partial, m: Connection, fd: Fd) {
    Meets(m, Key(fd, p.id), p.kind, p.contentLength, p.rejected)
  }

  ghost predicate ReaderOk(rd: Reader, fd: Fd) {
    && PartialOk(rd.p) && ConnectionOk(rd.m, fd)
    && (HeaderComplete(rd.p) ==>
          && Accepted(rd.p, rd.m, fd)
          && |rd.p.content| ==
             if Local(rd.p) && !rd.p.rejected then Min(rd.p.received - HEADER_LEN, rd.p.contentLength) else 0)
  }

  // ------------------------------------------------------------------
  // One turn of the reading loop

  /** Bytes that complete the current section. */
  function Wanted(p: Partial): (n: nat)
    requires PartialOk(p)
    ensures n > 0
  {
    if !HeaderComplete(p) then HEADER_LEN - p.received
    else if p.received < HEADER_LEN + p.contentLength then HEADER_LEN + p.contentLength - p.received
    else HEADER_LEN + p.contentLength + p.padding - p.received
  }

  /** UpdateAfterHeaderCompletion. */
  function WithHeader(header: seq<byte>, m: Connection, fd: Fd): Partial
    requires |header| == HEADER_LEN
  {
    var key := Key(fd, HeaderId(header));
    Partial(header, HEADER_LEN, HeaderContentLength(header), header[6], header[1], key.id,
            Rejected(m, key, header[1], HeaderContentLength(header)), [])
  }

  /** The bytes are added to the section they belong to. */
  function Add(rd: Reader, fd: Fd, a: seq<byte>): Reader
    requires PartialOk(rd.p) && 0 < |a| <= Wanted(rd.p) && (HeaderComplete(rd.p) ==> Accepted(rd.p, rd.m, fd))
  {
    var p := rd.p;
    var longer := p.(received := p.received + |a|);
    if !HeaderComplete(p) then
      var header := p.header + a;
      Reader(if |a| < Wanted(p) then longer.(header := header) else WithHeader(header, rd.m, fd), rd.m)
    else if p.received >= HEADER_LEN + p.contentLength || p.rejected then Reader(longer, rd.m)
    else if Local(p) then Reader(longer.(content := p.content + a), rd.m)
    else Reader(longer, AppendContent(rd.m, Key(fd, p.id), p.kind, a))
  }

  /** IsRecordComplete. */
  predicate RecordComplete(p: Partial) {
    HeaderComplete(p) && p.received == HEADER_LEN + p.contentLength + p.padding
  }

  predicate Processable(p: Partial, m: Connection, fd: Fd) {
    && (!p.rejected && p.id != 0 && p.kind == BEGIN_REQUEST ==> |p.content| == 8)
    && (!p.rejected && p.id != 0 && IsStream(p.kind) ==> Key(fd, p.id) in m.requests)
  }

  /** ProcessCompleteRecord and ClearRecord, if the record is complete. */
  function Finish(rd: Reader, cfg: Config): Reader
    requires RecordComplete(rd.p) ==> Processable(rd.p, rd.m, cfg.fd)
  {
    var p := rd.p;
    if !RecordComplete(p) then rd
    else
      Reader(EMPTY_PARTIAL,
             Process(rd.m, cfg, Key(cfg.fd, p.id), p.kind, p.contentLength, p.rejected, p.content))
  }

  /** What holds between adding bytes and finishing a record. */
  ghost predicate AddedOk(rd: Reader, fd: Fd) {
    var p := rd.p;
    && ConnectionOk(rd.m, fd)
    && (if RecordComplete(p) then
          && Accepted(p, rd.m, fd) && p.contentLength <= MAX_CONTENT
          && (Local(p) && !p.rejected ==> |p.content| == p.contentLength)
        else ReaderOk(rd, fd))
  }

  lemma AddOk(rd: Reader, fd: Fd, a: seq<byte>)
    requires ReaderOk(rd, fd) && 0 < |a| <= Wanted(rd.p)
    ensures AddedOk(Add(rd, fd, a), fd)
  {
    var p := rd.p;
    if !HeaderComplete(p) {
      if |a| == Wanted(p) {
        HeaderOk(p.header + a, rd.m, fd);
      }
    } else if p.received < HEADER_LEN + p.contentLength && !p.rejected && !Local(p) {
      AppendKeeps(rd.m, Config(fd, 0, _ => false), Key(fd, p.id), p.kind, a);
    }
  }

  lemma HeaderOk(header: seq<byte>, m: Connection, fd: Fd)
    requires |header| == HEADER_LEN && ConnectionOk(m, fd)
    ensures Accepted(WithHeader(header, m, fd), m, fd)
  {
    var key := Key(fd, HeaderId(header));
    if key in m.requests {
      assert RequestOk(m.requests[key], key in m.ready);
    }
  }

  lemma FinishOk(rd: Reader, cfg: Config)
    requires AddedOk(rd, cfg.fd)
    ensures RecordComplete(rd.p) ==> Processable(rd.p, rd.m, cfg.fd)
    ensures ReaderOk(Finish(rd, cfg), cfg.fd)
  {
    var p := rd.p;
    var key := Key(cfg.fd, p.id);
    if RecordComplete(p) && p.id != 0 && !p.rejected {
      if p.kind == BEGIN_REQUEST {
        BeginKeeps(rd.m, cfg, key, p.content);
      } else if p.kind == ABORT_REQUEST {
        AbortKeeps(rd.m, cfg, key);
      } else if p.contentLength == 0 {
        EndStreamKeeps(rd.m, cfg, key, p.kind);
      }
    }
  }

  function Turn(rd: Reader, cfg: Config, a: seq<byte>): Reader
    requires ReaderOk(rd, cfg.fd) && 0 < |a| <= Wanted(rd.p)
  {
    AddOk(rd, cfg.fd, a);
    FinishOk(Add(rd, cfg.fd, a), cfg);
    Finish(Add(rd, cfg.fd, a), cfg)
  }

  lemma TurnOk(rd: Reader, cfg: Config, a: seq<byte>)
    requires ReaderOk(rd, cfg.fd) && 0 < |a| <= Wanted(rd.p)
    ensures ReaderOk(Turn(rd, cfg, a), cfg.fd)
  {
    AddOk(rd, cfg.fd, a);
    FinishOk(Add(rd, cfg.fd, a), cfg);
  }

  /** All bytes of a portion, section by section. */
  function Consume(rd: Reader, cfg: Config, s: seq<byte>): Reader
    requires ReaderOk(rd, cfg.fd)
    decreases |s|
  {
    if s == [] then rd
    else
      var n := Min(Wanted(rd.p), |s|);
      TurnOk(rd, cfg, s[..n]);
      Consume(Turn(rd, cfg, s[..n]), cfg, s[n..])
  }

  lemma {:induction false} ConsumeOk(rd: Reader, cfg: Config, s: seq<byte>)
    requires ReaderOk(rd, cfg.fd)
    ensures ReaderOk(Consume(rd, cfg, s), cfg.fd)
    decreases |s|
  {
    if s != [] {
      var n := Min(Wanted(rd.p), |s|);
      TurnOk(rd, cfg, s[..n]);
      ConsumeOk(Turn(rd, cfg, s[..n]), cfg, s[n..]);
    }
  }

  // ------------------------------------------------------------------
  // Fragmentation

  lemma AppendTwice(m: Connection, key: Key, kind: byte, x: seq<byte>, y: seq<byte>)
    requires IsStream(kind) && key in m.requests
    ensures AppendContent(AppendContent(m, key, kind, x), key, kind, y) == AppendContent(m, key, kind, x + y)
  {
    var q := m.requests[key];
    assert Stream(q, kind) + x + y == Stream(q, kind) + (x + y);
    assert Append(Append(q, kind, x), kind, y) == Append(q, kind, x + y);
    assert m.requests[key := Append(q, kind, x)][key := Append(q, kind, x + y)] ==
           m.requests[key := Append(q, kind, x + y)];
  }

  /** A portion that ends within a section leaves the rest of it wanted. */
  lemma AddPart(rd: Reader, fd: Fd, x: seq<byte>)
    requires ReaderOk(rd, fd) && 0 < |x| < Wanted(rd.p)
    ensures var n := Add(rd, fd, x);
            && !RecordComplete(n.p) && ReaderOk(n, fd) && Wanted(n.p) == Wanted(rd.p) - |x|
  {
    AddOk(rd, fd, x);
  }

  lemma AddTwice(rd: Reader, fd: Fd, x: seq<byte>, y: seq<byte>)
    requires ReaderOk(rd, fd) && x != [] && y != [] && |x| + |y| <= Wanted(rd.p)
    ensures ReaderOk(Add(rd, fd, x), fd) && |y| <= Wanted(Add(rd, fd, x).p)
    ensures Add(Add(rd, fd, x), fd, y) == Add(rd, fd, x + y)
  {
    AddPart(rd, fd, x);
    var p := rd.p;
    if !HeaderComplete(p) {
      assert p.header + x + y == p.header + (x + y);
    } else if p.received >= HEADER_LEN + p.contentLength || p.rejected {
    } else if Local(p) {
      assert p.content + x + y == p.content + (x + y);
    } else {
      AppendTwice(rd.m, Key(fd, p.id), p.kind, x, y);
    }
  }

  lemma TurnTwice(rd: Reader, cfg: Config, x: seq<byte>, y: seq<byte>)
    requires ReaderOk(rd, cfg.fd) && x != [] && y != [] && |x| + |y| <= Wanted(rd.p)
    ensures var n := Turn(rd, cfg, x);
            && ReaderOk(n, cfg.fd) && Wanted(n.p) == Wanted(rd.p) - |x|
            && Turn(n, cfg, y) == Turn(rd, cfg, x + y)
  {
    AddPart(rd, cfg.fd, x);
    AddTwice(rd, cfg.fd, x, y);
  }

  lemma Slices(a: seq<byte>, b: seq<byte>, n: nat)
    requires n <= |a + b|
    ensures n <= |a| ==> (a + b)[..n] == a[..n] && (a + b)[n..] == a[n..] + b
    ensures n > |a| ==> (a + b)[..n] == a + b[..n - |a|] && (a + b)[n..] == b[n - |a|..]
  {
  }

  /** However a stream is cut into portions, the outcome is the same. */
  lemma {:induction false} ConsumeAppend(rd: Reader, cfg: Config, a: seq<byte>, b: seq<byte>)
    requires ReaderOk(rd, cfg.fd)
    ensures ReaderOk(Consume(rd, cfg, a), cfg.fd)
    ensures Consume(rd, cfg, a + b) == Consume(Consume(rd, cfg, a), cfg, b)
    decreases |a|
  {
    hide Turn, ConnectionOk;
    ConsumeOk(rd, cfg, a);
    if a == [] {
      assert a + b == b;
    } else if b == [] {
      assert a + b == a;
    } else {
      var w := Wanted(rd.p);
      var n := Min(w, |a + b|);
      Slices(a, b, n);
      if w <= |a| {
        TurnOk(rd, cfg, a[..w]);
        ConsumeAppend(Turn(rd, cfg, a[..w]), cfg, a[w..], b);
      } else {
        ConsumeWithin(rd, cfg, a);
        TurnTwice(rd, cfg, a, b[..n - |a|]);
      }
    }
  }

  lemma ConsumeWithin(rd: Reader, cfg: Config, a: seq<byte>)
    requires ReaderOk(rd, cfg.fd) && 0 < |a| <= Wanted(rd.p)
    ensures Consume(rd, cfg, a) == Turn(rd, cfg, a)
  {
    TurnOk(rd, cfg, a);
    assert a[..|a|] == a && a[|a|..] == [];
  }

  // ------------------------------------------------------------------
  // Headers that name assigned requests

  /** A header that is looked up and names a request which was handed to the
      application. */
  predicate NamesAssigned(header: seq<byte>, requests: map<Key, Request>, fd: Fd)
    requires |header| >= HEADER_LEN
  {
    var key, kind, length := Key(fd, HeaderId(header)), header[1], HeaderContentLength(header);
    && key.id != 0
    && ((kind == BEGIN_REQUEST && length == 8) || (kind == ABORT_REQUEST && length == 0) || IsStream(kind))
    && key in requests && requests[key].isAssigned
  }

  /** These bytes of the current section complete such a header. */
  predicate TurnNames(rd: Reader, fd: Fd, a: seq<byte>)
    requires PartialOk(rd.p) && |a| <= Wanted(rd.p)
  {
    !HeaderComplete(rd.p) && |a| == Wanted(rd.p) && NamesAssigned(rd.p.header + a, rd.m.requests, fd)
  }

  /** Some header that is completed by these bytes does so. */
  predicate Exposes(rd: Reader, cfg: Config, s: seq<byte>)
    requires ReaderOk(rd, cfg.fd)
    decreases |s|
  {
    s != [] &&
    var n := Min(Wanted(rd.p), |s|);
    TurnOk(rd, cfg, s[..n]);
    TurnNames(rd, cfg.fd, s[..n]) || Exposes(Turn(rd, cfg, s[..n]), cfg, s[n..])
  }

  lemma TurnNamesTwice(rd: Reader, cfg: Config, x: seq<byte>, y: seq<byte>)
    requires ReaderOk(rd, cfg.fd) && x != [] && y != [] && |x| + |y| <= Wanted(rd.p)
    ensures var n := Turn(rd, cfg, x);
            && ReaderOk(n, cfg.fd) && Wanted(n.p) == Wanted(rd.p) - |x|
            && !TurnNames(rd, cfg.fd, x)
            && TurnNames(n, cfg.fd, y) == TurnNames(rd, cfg.fd, x + y)
  {
    TurnTwice(rd, cfg, x, y);
    AddPart(rd, cfg.fd, x);
    if !HeaderComplete(rd.p) {
      assert rd.p.header + x + y == rd.p.header + (x + y);
    }
  }

  lemma ExposesWithin(rd: Reader, cfg: Config, a: seq<byte>)
    requires ReaderOk(rd, cfg.fd) && 0 < |a| <= Wanted(rd.p)
    ensures Exposes(rd, cfg, a) == TurnNames(rd, cfg.fd, a)
  {
    TurnOk(rd, cfg, a);
    assert a[..|a|] == a && a[|a|..] == [];
    assert !Exposes(Turn(rd, cfg, a), cfg, []);
  }

  /** Here too it does not matter how a stream is cut. */
  lemma {:induction false} ExposesAppend(rd: Reader, cfg: Config, a: seq<byte>, b: seq<byte>)
    requires ReaderOk(rd, cfg.fd)
    ensures ReaderOk(Consume(rd, cfg, a), cfg.fd)
    ensures Exposes(rd, cfg, a + b) == (Exposes(rd, cfg, a) || Exposes(Consume(rd, cfg, a), cfg, b))
    decreases |a|
  {
    hide Turn, ConnectionOk, TurnNames;
    ConsumeOk(rd, cfg, a);
    if a == [] {
      assert a + b == b;
    } else if b == [] {
      assert a + b == a;
    } else {
      var w := Wanted(rd.p);
      var n := Min(w, |a + b|);
      Slices(a, b, n);
      if w <= |a| {
        TurnOk(rd, cfg, a[..w]);
        ExposesAppend(Turn(rd, cfg, a[..w]), cfg, a[w..], b);
      } else {
        ConsumeWithin(rd, cfg, a);
        ExposesWithin(rd, cfg, a);
        TurnTwice(rd, cfg, a, b[..n - |a|]);
        TurnNamesTwice(rd, cfg, a, b[..n - |a|]);
      }
    }
  }

  lemma AppendNothing(m: Connection, key: Key, kind: byte)
    requires IsStream(kind) && key in m.requests
    ensures AppendContent(m, key, kind, []) == m
  {
    var q := m.requests[key];
    assert Append(q, kind, []) == q && m.requests[key := q] == m.requests;
  }

  // ------------------------------------------------------------------
  // Between two calls

  /** After a call the listed requests are assigned to the application; before
      the next one assigned requests may leave the map. Requests that are still
      being received are left alone. */
  ghost predicate BetweenCalls(m: Connection, n: Connection, fd: Fd) {
    && n.ready == []
    && (forall k :: k in n.requests && k.fd == fd ==>
          && k in m.requests
          && n.requests[k] == if k in m.ready then m.requests[k].(isAssigned := true) else m.requests[k])
    && (forall k :: k in m.requests && k.fd == fd && !m.requests[k].isAssigned && k !in m.ready ==> k in n.requests)
  }

  lemma BetweenCallsOk(rd: Reader, next: Reader, fd: Fd)
    requires ReaderOk(rd, fd) && BetweenCalls(rd.m, next.m, fd) && next.p == rd.p
    ensures ReaderOk(next, fd)
  {
    forall k | k in next.m.requests && k.fd == fd
      ensures k.id > 0 && RequestOk(next.m.requests[k], k in next.m.ready)
    {
      assert RequestOk(rd.m.requests[k], k in rd.m.ready);
    }
    if HeaderComplete(rd.p) && IsStream(rd.p.kind) && Key(fd, rd.p.id) in rd.m.requests {
      assert RequestOk(rd.m.requests[Key(fd, rd.p.id)], Key(fd, rd.p.id) in rd.m.ready);
    }
  }

  /** The states of a reader at the starts of its calls. */
  ghost predicate Calls(readers: seq<Reader>, portions: seq<seq<byte>>, cfg: Config) {
    && |portions| + 1 == |readers| && ReaderOk(readers[0], cfg.fd)
    && forall i :: 0 <= i < |portions| && ReaderOk(readers[i], cfg.fd) ==>
         var n := Consume(readers[i], cfg, portions[i]);
         BetweenCalls(n.m, readers[i + 1].m, cfg.fd) && readers[i + 1].p == n.p
  }

  ghost predicate NoneLeftOver(m: Connection, fd: Fd) {
    forall k :: k in m.requests && k.fd == fd && AllComplete(m.requests[k]) ==> m.requests[k].isAssigned
  }

  /** At the start of every call no complete request is left over unassigned, and
      in it only requests that are not assigned enter the list. */
  lemma {:induction false} EveryCallOk(readers: seq<Reader>, portions: seq<seq<byte>>, cfg: Config, k: nat)
    requires Calls(readers, portions, cfg) && k < |readers|
    ensures ReaderOk(readers[k], cfg.fd)
    ensures k > 0 ==> NoneLeftOver(readers[k].m, cfg.fd)
  {
    if k > 0 {
      EveryCallOk(readers, portions, cfg, k - 1);
      ConsumeOk(readers[k - 1], cfg, portions[k - 1]);
      BetweenCallsOk(Consume(readers[k - 1], cfg, portions[k - 1]), readers[k], cfg.fd);
      forall key | key in readers[k].m.requests && key.fd == cfg.fd && AllComplete(readers[k].m.requests[key])
        ensures readers[k].m.requests[key].isAssigned
      {
        assert RequestOk(readers[k].m.requests[key], key in readers[k].m.ready);
      }
    }
  }
}
