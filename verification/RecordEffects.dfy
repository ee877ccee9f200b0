/** What one record does, by its bytes: the request that a begin-request record
    asks for, the end that an abort makes, and the replies of the reader. */
module RecordEffects {
  import opened Bytes
  import opened FcgiRecords
  import opened InterfaceMaps
  import opened RecordHandling
  import opened RecordHistory
  import opened RecordReading
  import opened RequestStreams
  import opened Wrappers
  import RequestParameters

  // ------------------------------------------------------------------
  // From bytes to records

  /** Bytes that do not complete a record are kept. */
  lemma {:induction false} PartIsKept(o: Open, cfg: Config, s: seq<byte>)
    requires OpenOk(o, cfg.fd) && !StartsWithRecord(o.u + s)
    ensures LifeOk(o, cfg, AsInputs(s))
    ensures Life(o, cfg, AsInputs(s)) == if s == [] then o else Open(o.m, o.u + s, Judge(o, cfg.fd, o.u + s))
    decreases |s|
  {
    hide ConnectionOk, Rejected;
    if s != [] {
      var v, rest := o.u + [s[0]], s[1..];
      assert o.u + s == v + rest;
      assert HeaderIn(v) ==> (v + rest)[..HEADER_LEN] == v[..HEADER_LEN] && RecordLength(v + rest) == RecordLength(v);
      LiveOk(o, cfg, Byte(s[0]));
      var n := ReadByte(o, cfg, s[0]);
      assert n == Open(o.m, v, Judge(o, cfg.fd, v));
      PartIsKept(n, cfg, rest);
      assert AsInputs(s)[1..] == AsInputs(rest);
      SameJudgement(o, cfg.fd, v, rest);
      assert rest == [] ==> v + rest == v;
    }
  }

  lemma SameJudgement(o: Open, fd: Fd, v: seq<byte>, rest: seq<byte>)
    requires HeaderIn(o.u) ==> HeaderIn(v)
    ensures Judge(Open(o.m, v, Judge(o, fd, v)), fd, v + rest) == Judge(o, fd, v + rest)
  {
    if HeaderIn(v) {
      assert (v + rest)[..HEADER_LEN] == v[..HEADER_LEN];
      assert HeaderId(v + rest) == HeaderId(v) && HeaderContentLength(v + rest) == HeaderContentLength(v);
    }
  }

  /** The judgement of a record whose header is complete. */
  predicate RejectedNow(m: Connection, fd: Fd, r: Record) {
    Rejected(m, Key(fd, r.id), r.kind, |r.content|)
  }

  lemma NowMeets(m: Connection, fd: Fd, r: Record)
    requires ConnectionOk(m, fd)
    ensures Meets(m, Key(fd, r.id), r.kind, |r.content|, RejectedNow(m, fd, r))
    ensures Judged(m, Key(fd, r.id), r.kind, |r.content|, RejectedNow(m, fd, r))
  {
    var key := Key(fd, r.id);
    if key in m.requests {
      assert RequestOk(m.requests[key], key in m.ready);
    }
  }

  lemma SerializedRecord(r: Record)
    requires Serializable(r)
    ensures var s := Serialize(r);
            && StartsWithRecord(s) && FirstRecord(s) == r && |s| == RecordLength(s)
            && !StartsWithRecord(s[..|s| - 1])
  {
    var s := Serialize(r);
    ParseSerialized(r, []);
    assert s + [] == s;
    assert Parse([]) == [] && Parse(s) == [r] && FirstRecord(s) == Parse(s)[0] == r;
    assert HeaderContentLength(s) == |r.content| && s[6] == r.padding && |s| == RecordLength(s);
    var init := s[..|s| - 1];
    assert HeaderIn(init) ==> init[..HEADER_LEN] == s[..HEADER_LEN] && RecordLength(init) == RecordLength(s);
  }

  /** All but the last byte of a record ... */
  lemma BeforeLastByte(o: Open, cfg: Config, r: Record)
    requires OpenOk(o, cfg.fd) && o.u == [] && Serializable(r)
    ensures var s := Serialize(r);
            var init := s[..|s| - 1];
            && LifeOk(o, cfg, AsInputs(init)) && Life(o, cfg, AsInputs(init)).m == o.m
            && Life(o, cfg, AsInputs(init)).u == init
            && Judge(Life(o, cfg, AsInputs(init)), cfg.fd, s) == Judge(o, cfg.fd, s)
  {
    hide ConnectionOk, Rejected;
    var s := Serialize(r);
    var init, b := s[..|s| - 1], s[|s| - 1];
    SerializedRecord(r);
    hide Serialize, StartsWithRecord, FirstRecord, RecordLength;
    assert init + [b] == s && o.u + init == init;
    PartIsKept(o, cfg, init);
    SameJudgement(o, cfg.fd, init, [b]);
  }

  /** ... and the last one, which counts. */
  lemma LastByteRead(n: Open, cfg: Config, r: Record, b: byte)
    requires OpenOk(n, cfg.fd) && Serializable(r) && n.u + [b] == Serialize(r)
    requires Judge(n, cfg.fd, Serialize(r)) == RejectedNow(n.m, cfg.fd, r)
    ensures Meets(n.m, Key(cfg.fd, r.id), r.kind, |r.content|, RejectedNow(n.m, cfg.fd, r))
    ensures ReadByte(n, cfg, b) == Open(Handle(n.m, cfg, r, RejectedNow(n.m, cfg.fd, r)), [], false)
  {
    SerializedRecord(r);
    NowMeets(n.m, cfg.fd, r);
    hide ConnectionOk, Rejected, Handle, Serialize, Judge;
  }

  lemma JudgedNow(o: Open, cfg: Config, r: Record)
    requires o.u == [] && Serializable(r)
    ensures Judge(o, cfg.fd, Serialize(r)) == RejectedNow(o.m, cfg.fd, r)
  {
    SerializedRecord(r);
    hide Rejected;
    assert HeaderId(Serialize(r)) == r.id && HeaderContentLength(Serialize(r)) == |r.content|;
  }

  lemma LastByte(o: Open, cfg: Config, r: Record)
    requires OpenOk(o, cfg.fd) && o.u == [] && Serializable(r)
    ensures var s := Serialize(r);
            && LifeOk(o, cfg, AsInputs(s))
            && Meets(o.m, Key(cfg.fd, r.id), r.kind, |r.content|, RejectedNow(o.m, cfg.fd, r))
            && Life(o, cfg, AsInputs(s)) == Open(Handle(o.m, cfg, r, RejectedNow(o.m, cfg.fd, r)), [], false)
  {
    var s := Serialize(r);
    var init, b := s[..|s| - 1], s[|s| - 1];
    BeforeLastByte(o, cfg, r);
    JudgedNow(o, cfg, r);
    hide Serialize, Judge, RejectedNow, Handle, OpenOk, Meets, Serializable, ReadByte;
    var n := Life(o, cfg, AsInputs(init));
    assert n.u + [b] == s && AsInputs(init) + [Byte(b)] == AsInputs(s);
    LastByteRead(n, cfg, r, b);
    LifeOne(n, cfg, Byte(b));
    LifeAppend(o, cfg, AsInputs(init), [Byte(b)]);
  }

  /** A reader at a record boundary that is given the bytes of a record. */
  lemma RecordConsumed(rd: Reader, cfg: Config, r: Record)
    requires ReaderOk(rd, cfg.fd) && rd.p == EMPTY_PARTIAL && Serializable(r)
    ensures Meets(rd.m, Key(cfg.fd, r.id), r.kind, |r.content|, RejectedNow(rd.m, cfg.fd, r))
    ensures Consume(rd, cfg, Serialize(r)) ==
            Reader(EMPTY_PARTIAL, Handle(rd.m, cfg, r, RejectedNow(rd.m, cfg.fd, r)))
  {
    var o := Open(rd.m, [], false);
    LastByte(o, cfg, r);
    PortionIsLived(o, cfg, Serialize(r));
    assert Render(o, cfg.fd) == rd;
  }

  // ------------------------------------------------------------------
  // Begin-request records

  /** The body of section 5.1 of the FastCGI specification: the role in two bytes, the
      higher one first, then the flags. */
  function BeginBody(role: nat, flags: byte): seq<byte>
    requires role < 0x1_0000
  {
    [role / 256, role % 256, flags, 0, 0, 0, 0, 0]
  }

  function BeginRecord(id: nat, role: nat, flags: byte, padding: nat): Record
    requires role < 0x1_0000
  {
    Record(1, id, BeginBody(role, flags), padding)
  }

  /** The limit on the requests of a connection is not reached, and the application
      is not overloaded. */
  predicate HasRoom(m: Connection, cfg: Config) {
    |RequestsOn(m, cfg.fd)| < cfg.maxRequests && !cfg.overload(m.handled)
  }

  /** A new request has the role of its begin-request record, asks for its connection
      to be closed unless bit 0 of the flags is set, and has received nothing. */
  predicate NewFrom(q: Request, role: nat, flags: byte) {
    && q.role == role && (q.closeConnection <==> flags % 2 == 0)
    && q.params == q.stdin == q.data == []
    && !q.paramsComplete && !q.stdinComplete && !q.dataComplete && !q.isAssigned && !q.abort
  }

  lemma BeginHandled(m: Connection, cfg: Config, id: nat, role: nat, flags: byte, padding: nat)
    requires id > 0 && role < 0x1_0000 && Key(cfg.fd, id) !in m.requests && ConnectionOk(m, cfg.fd)
    ensures var key, r := Key(cfg.fd, id), BeginRecord(id, role, flags, padding);
            && Meets(m, key, r.kind, |r.content|, false) && !RejectedNow(m, cfg.fd, r)
            && Begun(m, Handle(m, cfg, r, false), cfg, key, role, flags)
  {
    var body := BeginBody(role, flags);
    assert body[0] as int * 256 + body[1] == role;
  }

  /** If there is room, one new request, and no reply; otherwise a refusal. */
  predicate Begun(m: Connection, n: Connection, cfg: Config, key: Key, role: nat, flags: byte) {
    && n.ready == m.ready && n.closing == m.closing
    && if HasRoom(m, cfg) then
         && key in n.requests && NewFrom(n.requests[key], role, flags)
         && n.requests == m.requests[key := n.requests[key]] && n.replies == m.replies
       else
         && n.requests == m.requests
         && n.replies == m.replies + [EndRequest(key.id, if |RequestsOn(m, cfg.fd)| >= cfg.maxRequests == 1
                                                         then CantMultiplex else Overloaded)]
  }

  /** The bytes of a begin-request record with an id that is not in use. */
  lemma BeginRecordRead(rd: Reader, cfg: Config, id: nat, role: nat, flags: byte, padding: nat)
    requires ReaderOk(rd, cfg.fd) && rd.p == EMPTY_PARTIAL && Key(cfg.fd, id) !in rd.m.requests
    requires 0 < id < 0x1_0000 && role < 0x1_0000 && padding < 256
    ensures var n := Consume(rd, cfg, Serialize(BeginRecord(id, role, flags, padding)));
            n.p == EMPTY_PARTIAL && Begun(rd.m, n.m, cfg, Key(cfg.fd, id), role, flags)
  {
    RecordConsumed(rd, cfg, BeginRecord(id, role, flags, padding));
    BeginHandled(rd.m, cfg, id, role, flags, padding);
  }

  // ------------------------------------------------------------------
  // Replies

  /** The request with this key ended with the record, without reaching the
      application. */
  predicate EndedUnserved(m: Connection, n: Connection, key: Key) {
    key in m.requests && key !in n.requests
  }

  /** What the client is told after a record of type `kind` with an id. */
  function Answers(m: Connection, n: Connection, cfg: Config, key: Key, kind: byte, rejected: bool): seq<Reply> {
    if EndedUnserved(m, n, key) then [EndRequest(key.id, if kind == 2 then Aborted else Malformed)]
    else if kind == 1 && !rejected && key !in n.requests then
      [EndRequest(key.id, if |RequestsOn(m, cfg.fd)| >= cfg.maxRequests == 1 then CantMultiplex else Overloaded)]
    else []
  }

  /** Every request that ends without reaching the application and every refused one
      is answered once, with its id and the reason; a request for values (9) and a
      management record of another type are answered once; nothing else is. A
      connection is scheduled for closure with a request that ends if the client
      asked for it. */
  lemma RecordAnswered(m: Connection, cfg: Config, r: Record, rejected: bool)
    requires ConnectionOk(m, cfg.fd) && Meets(m, Key(cfg.fd, r.id), r.kind, |r.content|, rejected)
    ensures var key, n := Key(cfg.fd, r.id), Handle(m, cfg, r, rejected);
            && (r.id == 0 ==>
                  && n.requests == m.requests && n.ready == m.ready && n.closing == m.closing
                  && n.replies == m.replies + [if r.kind == 9 then Values(r.content) else UnknownType(r.kind)])
            && (r.id != 0 ==>
                  && n.replies == m.replies + Answers(m, n, cfg, key, r.kind, rejected)
                  && (n.closing <==> m.closing || (EndedUnserved(m, n, key) && m.requests[key].closeConnection)))
  {
    hide RequestParameters.Acceptable, Ready, ConnectionOk;
    assert m.replies + [] == m.replies;
  }

  predicate TakenOut(ready: seq<Key>, left: seq<Key>, key: Key) {
    exists i :: 0 <= i < |ready| && ready[i] == key && left == ready[..i] + ready[i + 1..]
  }

  lemma {:induction false} WithoutTakesOut(ready: seq<Key>, key: Key, i: nat)
    requires key in ready && i <= |ready| && key !in ready[..i]
    ensures TakenOut(ready, Without(ready, key), key)
    decreases |ready| - i
  {
    if ready[i] == key {
      WithoutAt(ready, key, i);
    } else {
      assert ready[..i + 1] == ready[..i] + [ready[i]];
      WithoutTakesOut(ready, key, i + 1);
    }
  }

  lemma ListHandled(m: Connection, cfg: Config, r: Record, rejected: bool)
    requires Meets(m, Key(cfg.fd, r.id), r.kind, |r.content|, rejected)
    ensures var key, ready := Key(cfg.fd, r.id), Handle(m, cfg, r, rejected).ready;
            || ready == m.ready || ready == Without(m.ready, key)
            || (ready == m.ready + [key] && key in m.requests && !AllComplete(m.requests[key]))
  {
    hide RequestParameters.Acceptable, Ready, Without;
  }

  /** Requests are listed in the order in which they become complete: a record appends
      its request, takes it out, or leaves the list alone. */
  lemma ListedInOrder(m: Connection, cfg: Config, r: Record, rejected: bool)
    requires ConnectionOk(m, cfg.fd) && Meets(m, Key(cfg.fd, r.id), r.kind, |r.content|, rejected)
    ensures var key, n := Key(cfg.fd, r.id), Handle(m, cfg, r, rejected);
            if key in m.ready then n.ready == m.ready || TakenOut(m.ready, n.ready, key)
            else n.ready == m.ready || n.ready == m.ready + [key]
  {
    var key := Key(cfg.fd, r.id);
    ListHandled(m, cfg, r, rejected);
    assert key in m.ready ==> key in m.requests && RequestOk(m.requests[key], true);
    hide Handle, ConnectionOk, Without, TakenOut;
    if key in m.ready { WithoutTakesOut(m.ready, key, 0); } else { WithoutAbsent(m.ready, key); }
  }

  lemma {:induction false} WithoutAbsent(ready: seq<Key>, key: Key)
    requires key !in ready
    ensures Without(ready, key) == ready
  {
    if ready != [] {
      assert ready == [ready[0]] + ready[1..];
      WithoutAbsent(ready[1..], key);
    }
  }

  /** A request to abort: one that the application holds is marked, another one ends
      and leaves the list; without a request, or the second time, nothing happens. */
  lemma AbortRecordRead(rd: Reader, cfg: Config, id: nat, padding: nat)
    requires ReaderOk(rd, cfg.fd) && rd.p == EMPTY_PARTIAL && 0 < id < 0x1_0000 && padding < 256
    ensures var key, n := Key(cfg.fd, id), Consume(rd, cfg, Serialize(Record(2, id, [], padding)));
            && n.p == EMPTY_PARTIAL
            && (key !in rd.m.requests || rd.m.requests[key].abort ==>
                  n.m.requests == rd.m.requests && n.m.ready == rd.m.ready)
            && (key in rd.m.requests && rd.m.requests[key].isAssigned ==>
                  n.m.requests == rd.m.requests[key := rd.m.requests[key].(abort := true)] && n.m.ready == rd.m.ready)
            && (key in rd.m.requests && !rd.m.requests[key].isAssigned ==>
                  && n.m.requests == rd.m.requests - {key}
                  && (forall k :: k in n.m.ready <==> k in rd.m.ready && k != key))
  {
    var key, r := Key(cfg.fd, id), Record(2, id, [], padding);
    RecordConsumed(rd, cfg, r);
    WithoutKeeps(rd.m.ready, key);
    if key in rd.m.requests {
      assert RequestOk(rd.m.requests[key], key in rd.m.ready);
      assert rd.m.requests[key := rd.m.requests[key]] == rd.m.requests;
    }
  }

  // ------------------------------------------------------------------
  // A request from its first byte

  lemma NewFromIsNew(q: Request, role: nat, flags: byte)
    requires NewFrom(q, role, flags)
    ensures q == NewRequest(role, flags % 2 == 0)
  {
  }

  /** No abort is among these records of a request, and before the last of them it
      still waits for some. */
  predicate AwaitedRecords(role: nat, rs: seq<Record>) {
    && (forall k :: 0 <= k < |rs| ==> !(rs[k].kind == 2 && rs[k].content == []))
    && (forall k :: 0 <= k < |rs| ==> !Served(role, rs[..k]))
  }

  lemma AwaitedByRecords(role: nat, os: seq<Own>)
    requires AwaitedRecords(role, Records(os))
    ensures Awaited(role, os)
  {
    hide Served;
    var rs := Records(os);
    forall k | 0 <= k < |os| ensures !Aborts(os[k]) && !Served(role, Records(os[..k])) {
      assert rs[k] == os[k].r && Records(os[..k]) == rs[..k];
    }
  }

  /** The request was there and not listed; now it is listed exactly if it has what its
      role needs and acceptable parameters, and gone if only these are not. */
  predicate ListedOrDropped(m: Connection, n: Connection, key: Key, role: nat, flags: byte, rs: seq<Record>) {
    && key in m.requests && key !in m.ready
    && (key in n.ready <==> Served(role, rs) && RequestParameters.Acceptable(StreamOf(rs, 4)))
    && (key in n.requests <==> !Served(role, rs) || RequestParameters.Acceptable(StreamOf(rs, 4)))
    && (key in n.requests ==> Assembled(n.requests[key], role, flags % 2 == 0, rs))
  }

  /** The state behind an accepted begin-request record. */
  lemma AfterBegin(o: Open, cfg: Config, role: nat, flags: byte, padding: nat, later: seq<Input>, id: nat)
    returns (start: Open)
    requires OpenOk(o, cfg.fd) && o.u == [] && 0 < id < 0x1_0000 && role < 0x1_0000 && padding < 256
    requires Key(cfg.fd, id) !in o.m.requests && HasRoom(o.m, cfg)
    requires LifeOk(o, cfg, AsInputs(Serialize(BeginRecord(id, role, flags, padding))) + later)
    ensures OpenOk(start, cfg.fd) && start.u == [] && LifeOk(start, cfg, later)
    ensures Get(start.m, Key(cfg.fd, id)) == Some(NewRequest(role, flags % 2 == 0))
    ensures Life(o, cfg, AsInputs(Serialize(BeginRecord(id, role, flags, padding))) + later) == Life(start, cfg, later)
    ensures forall part :: LifeOk(start, cfg, part) ==>
              var first := AsInputs(Serialize(BeginRecord(id, role, flags, padding)));
              LifeOk(o, cfg, first + part) && Life(o, cfg, first + part) == Life(start, cfg, part)
  {
    var key, r := Key(cfg.fd, id), BeginRecord(id, role, flags, padding);
    var first := AsInputs(Serialize(r));
    LastByte(o, cfg, r);
    BeginHandled(o.m, cfg, id, role, flags, padding);
    start := Life(o, cfg, first);
    NewFromIsNew(start.m.requests[key], role, flags);
    hide Life, LifeOk, OpenOk, Serialize;
    LifeSplit(o, cfg, first, later);
    forall part | LifeOk(start, cfg, part)
      ensures LifeOk(o, cfg, first + part) && Life(o, cfg, first + part) == Life(start, cfg, part)
    {
      LifeAppend(o, cfg, first, part);
    }
  }

  /** The bytes of a begin-request record, then any number of calls with records of
      this and other requests. With the byte that completes the first record after
      which the rule of its role holds of its own records, the request is listed, or
      dropped if its parameters are malformed; before it was there and not listed. */
  lemma RequestServed(o: Open, cfg: Config, role: nat, flags: byte, padding: nat, inputs: seq<Input>, b: byte, id: nat)
    requires OpenOk(o, cfg.fd) && o.u == [] && 0 < id < 0x1_0000 && role < 0x1_0000 && padding < 256
    requires Key(cfg.fd, id) !in o.m.requests && HasRoom(o.m, cfg)
    requires LifeOk(o, cfg, AsInputs(Serialize(BeginRecord(id, role, flags, padding))) + (inputs + [Byte(b)]))
    requires AwaitedRecords(role, Only(Parse(RecordHistory.Received(inputs + [Byte(b)])), id))
    requires StartsWithRecord(Unparsed(RecordHistory.Received(inputs)) + [b])
    requires HeaderId(Unparsed(RecordHistory.Received(inputs)) + [b]) == id
    ensures var first := AsInputs(Serialize(BeginRecord(id, role, flags, padding)));
            && LifeOk(o, cfg, first + inputs)
            && ListedOrDropped(Life(o, cfg, first + inputs).m, Life(o, cfg, first + (inputs + [Byte(b)])).m,
                               Key(cfg.fd, id), role, flags,
                               Only(Parse(RecordHistory.Received(inputs + [Byte(b)])), id))
  {
    var key, all := Key(cfg.fd, id), inputs + [Byte(b)];
    var start := AfterBegin(o, cfg, role, flags, padding, all, id);
    hide OwnEvents, LifeOk, Life, OpenOk, Serialize, RequestParameters.Acceptable, Served, AwaitedRecords,
         Parse, Unparsed;
    LifeSplit(start, cfg, inputs, [Byte(b)]);
    OwnRecords(start, cfg, all, key);
    RecordsRecovered(start, cfg, all);
    RecordsRecovered(start, cfg, inputs);
    assert forall s: seq<byte> :: [] + s == s;
    AwaitedByRecords(role, Arrived(start, cfg, all, key));
    RequestAssembled(start, cfg, inputs, b, key, role, flags % 2 == 0);
  }
}
