/** What complete records do to the requests of a connection. */
module RecordHandling {
  import opened Bytes
  import opened FcgiRecords
  import opened InterfaceMaps
  import opened RequestStreams
  import opened Wrappers
  import RequestParameters

  /** Why a request ended without reaching the application. */
  datatype Status = CantMultiplex | Overloaded | Aborted | Malformed

  datatype Reply = Values(content: seq<byte>) | UnknownType(kind: byte) | EndRequest(id: nat, status: Status)

  /** `ready` is the list that the current call of ReadRecords will return;
      `closing` says that the connection was put into the closure set; `handled`
      counts the records that were processed. */
  datatype Connection = Connection(requests: map<Key, Request>, ready: seq<Key>, replies: seq<Reply>,
                                   closing: bool, handled: nat)

  /** `overload` is the application's overload flag when a record is handled. */
  datatype Config = Config(fd: Fd, maxRequests: nat, overload: nat -> bool)

  function Get(m: Connection, key: Key): Option<Request> {
    if key in m.requests then Some(m.requests[key]) else None
  }

  function RequestsOn(m: Connection, fd: Fd): set<Key> {
    set k | k in m.requests && k.fd == fd
  }

  /** Whether a begin-request record would be accepted now. */
  predicate Admits(m: Connection, cfg: Config) {
    |RequestsOn(m, cfg.fd)| < cfg.maxRequests && !cfg.overload(m.handled)
  }

  // ------------------------------------------------------------------
  // One record

  /** The decision made when a header is complete. */
  predicate Rejected(m: Connection, key: Key, kind: byte, contentLength: nat) {
    && key.id != 0
    && if kind == BEGIN_REQUEST then contentLength != 8 || key in m.requests
       else if kind == ABORT_REQUEST then contentLength != 0 || key !in m.requests || m.requests[key].abort
       else if IsStream(kind) then key !in m.requests || StreamComplete(m.requests[key], kind)
       else true
  }

  function WithRequest(m: Connection, key: Key, q: Request): Connection {
    m.(requests := m.requests[key := q])
  }

  /** The request leaves the map; its connection closes if the client asked so. */
  function Drop(m: Connection, key: Key, status: Status): Connection
    requires key in m.requests
  {
    m.(requests := m.requests - {key}, closing := m.closing || m.requests[key].closeConnection,
       replies := m.replies + [EndRequest(key.id, status)])
  }

  function Without(ready: seq<Key>, key: Key): seq<Key> {
    if ready == [] then []
    else if ready[0] == key then ready[1..]
    else [ready[0]] + Without(ready[1..], key)
  }

  function Manage(m: Connection, kind: byte, content: seq<byte>): Connection {
    m.(replies := m.replies + [if kind == GET_VALUES then Values(content) else UnknownType(kind)])
  }

  function Role(content: seq<byte>): nat
    requires |content| == 8
  {
    content[0] as int * 256 + content[1]
  }

  /** The connection is to be closed unless bit 0 of the flags is set. */
  predicate ClosesConnection(content: seq<byte>)
    requires |content| == 8
  {
    content[2] % 2 == 0
  }

  function Begin(m: Connection, cfg: Config, key: Key, content: seq<byte>): Connection
    requires |content| == 8
  {
    if |RequestsOn(m, cfg.fd)| >= cfg.maxRequests then
      m.(replies := m.replies + [EndRequest(key.id, if cfg.maxRequests == 1 then CantMultiplex else Overloaded)])
    else if cfg.overload(m.handled) then m.(replies := m.replies + [EndRequest(key.id, Overloaded)])
    else WithRequest(m, key, NewRequest(Role(content), ClosesConnection(content)))
  }

  function Abort(m: Connection, key: Key): Connection {
    if key !in m.requests then m
    else if m.requests[key].isAssigned then WithRequest(m, key, m.requests[key].(abort := true))
    else
      var d := Drop(m, key, Aborted);
      if AllComplete(m.requests[key]) then d.(ready := Without(m.ready, key)) else d
  }

  function EndStream(m: Connection, key: Key, kind: byte): Connection
    requires IsStream(kind) && key in m.requests
  {
    var q := CompleteStream(m.requests[key], kind);
    var n := WithRequest(m, key, Conclude(q));
    if !Ready(q) then n
    else if RequestParameters.Acceptable(q.params) then n.(ready := m.ready + [key])
    else Drop(n, key, Malformed)
  }

  function Counted(m: Connection): Connection {
    m.(handled := m.handled + 1)
  }

  /** ProcessCompleteRecord, after the content of a stream record was appended.
      `content` is the content of a management or begin-request record. */
  function Process(m: Connection, cfg: Config, key: Key, kind: byte, contentLength: nat, rejected: bool,
                   content: seq<byte>): Connection
    requires !rejected && key.id != 0 && kind == BEGIN_REQUEST ==> |content| == 8
    requires !rejected && key.id != 0 && IsStream(kind) ==> key in m.requests
  {
    Counted(
      if key.id == 0 then Manage(m, kind, content)
      else if rejected then m
      else if kind == BEGIN_REQUEST then Begin(m, cfg, key, content)
      else if kind == ABORT_REQUEST then Abort(m, key)
      else if IsStream(kind) && contentLength == 0 then EndStream(m, key, kind)
      else m)
  }

  function AppendContent(m: Connection, key: Key, kind: byte, content: seq<byte>): Connection
    requires IsStream(kind) && key in m.requests
  {
    WithRequest(m, key, Append(m.requests[key], kind, content))
  }

  /** A record may be processed although the connection changed since its header
      was judged: an accepted record still meets what it was accepted for. */
  predicate Meets(m: Connection, key: Key, kind: byte, contentLength: nat, rejected: bool) {
    && (key.id == 0 ==> !rejected)
    && (!rejected && key.id != 0 ==>
          if kind == BEGIN_REQUEST then contentLength == 8 && key !in m.requests
          else if kind == ABORT_REQUEST then contentLength == 0
          else IsStream(kind) && key in m.requests && !StreamComplete(m.requests[key], kind))
  }

  /** As long as the request exists the judgement would be the same now. */
  predicate Judged(m: Connection, key: Key, kind: byte, contentLength: nat, rejected: bool) {
    key.id != 0 && key in m.requests ==> rejected == Rejected(m, key, kind, contentLength)
  }

  /** The effect of a whole record, `rejected` being the judgement of its header. */
  function Handle(m: Connection, cfg: Config, r: Record, rejected: bool): Connection
    requires Meets(m, Key(cfg.fd, r.id), r.kind, |r.content|, rejected)
  {
    var key := Key(cfg.fd, r.id);
    if !rejected && r.id != 0 && IsStream(r.kind) then
      Process(AppendContent(m, key, r.kind, r.content), cfg, key, r.kind, |r.content|, rejected, [])
    else
      Process(m, cfg, key, r.kind, |r.content|, rejected, r.content)
  }

  // ------------------------------------------------------------------
  // Invariant

  /** An assigned request is complete; another is complete exactly when it is in
      the list, and is not ready otherwise. */
  ghost predicate RequestOk(q: Request, listed: bool) {
    && (q.isAssigned ==> AllComplete(q) && !listed)
    && (!q.isAssigned ==> !q.abort && (AllComplete(q) <==> listed) && (Ready(q) ==> AllComplete(q)))
    && (listed ==> RequestParameters.Acceptable(q.params))
  }

  predicate Distinct(ready: seq<Key>) {
    forall i, j :: 0 <= i < j < |ready| ==> ready[i] != ready[j]
  }

  ghost predicate ConnectionOk(m: Connection, fd: Fd) {
    && Distinct(m.ready)
    && (forall k :: k in m.ready ==> k in m.requests && k.fd == fd)
    && (forall k :: k in m.requests && k.fd == fd ==> k.id > 0 && RequestOk(m.requests[k], k in m.ready))
  }

  lemma {:induction false} WithoutAt(ready: seq<Key>, key: Key, i: nat)
    requires i < |ready| && ready[i] == key && key !in ready[..i]
    ensures Without(ready, key) == ready[..i] + ready[i + 1..]
  {
    if i > 0 {
      assert ready[0] == ready[..i][0] && ready[1..][..i - 1] == ready[..i][1..];
      WithoutAt(ready[1..], key, i - 1);
      assert ready[..i] + ready[i + 1..] == [ready[0]] + (ready[1..][..i - 1] + ready[1..][i..]);
    }
  }

  lemma {:induction false} WithoutKeeps(ready: seq<Key>, key: Key)
    requires Distinct(ready)
    ensures Distinct(Without(ready, key))
    ensures forall k :: k in Without(ready, key) <==> k in ready && k != key
  {
    if ready != [] {
      assert ready == [ready[0]] + ready[1..];
      WithoutKeeps(ready[1..], key);
      if ready[0] == key {
        assert key !in ready[1..];
      } else {
        var rest := Without(ready[1..], key);
        assert ready[0] !in rest;
        forall k ensures k in [ready[0]] + rest <==> k in ready && k != key {
          assert k in [ready[0]] + rest <==> k == ready[0] || k in rest;
          assert k in ready <==> k == ready[0] || k in ready[1..];
        }
      }
    }
  }

  lemma BeginKeeps(m: Connection, cfg: Config, key: Key, content: seq<byte>)
    requires ConnectionOk(m, cfg.fd) && key !in m.requests && key.fd == cfg.fd && key.id > 0 && |content| == 8
    ensures ConnectionOk(Begin(m, cfg, key, content), cfg.fd)
  {
    assert key !in m.ready;
  }

  lemma AbortKeeps(m: Connection, cfg: Config, key: Key)
    requires ConnectionOk(m, cfg.fd) && key.fd == cfg.fd
    ensures ConnectionOk(Abort(m, key), cfg.fd)
    ensures key in m.requests && !m.requests[key].isAssigned && AllComplete(m.requests[key]) ==> key in m.ready
  {
    if key in m.requests {
      WithoutKeeps(m.ready, key);
    }
  }

  lemma AppendKeeps(m: Connection, cfg: Config, key: Key, kind: byte, content: seq<byte>)
    requires ConnectionOk(m, cfg.fd) && key.fd == cfg.fd && key in m.requests
    requires IsStream(kind) && !StreamComplete(m.requests[key], kind)
    ensures ConnectionOk(AppendContent(m, key, kind, content), cfg.fd)
  {
    var q := m.requests[key];
    if Ready(Append(q, kind, content)) {
      AppendNeverCompletes(q, kind, content);
    }
  }

  lemma EndStreamKeeps(m: Connection, cfg: Config, key: Key, kind: byte)
    requires ConnectionOk(m, cfg.fd) && key.fd == cfg.fd && key in m.requests
    requires IsStream(kind) && !StreamComplete(m.requests[key], kind)
    ensures ConnectionOk(EndStream(m, key, kind), cfg.fd)
  {
    hide RequestParameters.Acceptable;
    var q := CompleteStream(m.requests[key], kind);
    assert key !in m.ready;
    assert Ready(Conclude(q)) <==> Ready(q);
    assert Ready(q) <==> AllComplete(Conclude(q));
    var n := EndStream(m, key, kind);
    forall k ensures k in m.ready + [key] <==> k in m.ready || k == key {}
  }

  /** The list of complete requests stays exact over every record, so that an
      abort always finds what it looks for and no request is listed twice. */
  lemma HandleKeeps(m: Connection, cfg: Config, r: Record, rejected: bool)
    requires ConnectionOk(m, cfg.fd) && Meets(m, Key(cfg.fd, r.id), r.kind, |r.content|, rejected)
    ensures ConnectionOk(Handle(m, cfg, r, rejected), cfg.fd)
  {
    var key := Key(cfg.fd, r.id);
    if r.id != 0 && !rejected {
      if r.kind == BEGIN_REQUEST {
        BeginKeeps(m, cfg, key, r.content);
      } else if r.kind == ABORT_REQUEST {
        AbortKeeps(m, cfg, key);
      } else {
        AppendKeeps(m, cfg, key, r.kind, r.content);
        var n := AppendContent(m, key, r.kind, r.content);
        if r.content == [] {
          EndStreamKeeps(n, cfg, key, r.kind);
        }
      }
    }
  }

  // ------------------------------------------------------------------
  // One request by itself

  /** A record of a request; `admitted` is the answer to a begin-request record. */
  datatype Own = Own(r: Record, admitted: bool)

  /** What happens to a request: a record of its own, its assignment to the
      application, its departure from the map. */
  datatype OwnEvent = Got(o: Own) | Handed | Left

  /** The effect of a record on the request with its id, from that request alone. */
  function OwnStep(q: Option<Request>, o: Own): Option<Request> {
    var r := o.r;
    if r.kind == BEGIN_REQUEST then
      if q.None? && |r.content| == 8 && o.admitted then Some(NewRequest(Role(r.content), ClosesConnection(r.content)))
      else q
    else if q.None? then None
    else if r.kind == ABORT_REQUEST then
      if r.content != [] || q.value.abort then q
      else if q.value.isAssigned then Some(q.value.(abort := true))
      else None
    else if IsStream(r.kind) && !StreamComplete(q.value, r.kind) then
      var n := Receive(q.value, r);
      if r.content == [] && Ready(n) && !RequestParameters.Acceptable(n.params) then None else Some(n)
    else q
  }

  function OwnMove(q: Option<Request>, e: OwnEvent): Option<Request> {
    match e
    case Got(o) => OwnStep(q, o)
    case Handed => if q.None? then None else Some(q.value.(isAssigned := true))
    case Left => None
  }

  function OwnRun(q: Option<Request>, es: seq<OwnEvent>): Option<Request>
    decreases |es|
  {
    if es == [] then q else OwnRun(OwnMove(q, es[0]), es[1..])
  }

  lemma {:induction false} OwnRunAppend(q: Option<Request>, es: seq<OwnEvent>, fs: seq<OwnEvent>)
    ensures OwnRun(q, es + fs) == OwnRun(OwnRun(q, es), fs)
    decreases |es|
  {
    if es == [] {
      assert es + fs == fs;
    } else {
      assert (es + fs)[1..] == es[1..] + fs;
      OwnRunAppend(OwnMove(q, es[0]), es[1..], fs);
    }
  }

  lemma OwnRunOne(q: Option<Request>, e: OwnEvent)
    ensures OwnRun(q, [e]) == OwnMove(q, e)
  {
    assert [e][1..] == [] && OwnRun(OwnMove(q, e), []) == OwnMove(q, e);
  }

  lemma ConcludeReady(q: Request)
    ensures Ready(Conclude(q)) <==> Ready(q)
    ensures Conclude(q).params == q.params
  {
  }

  /** A record acts on the request with its id alone, and as that request alone
      determines, apart from the answer to a begin-request record. */
  lemma HandleOwn(m: Connection, cfg: Config, r: Record, rejected: bool, key: Key)
    requires key.fd == cfg.fd && key.id > 0
    requires Meets(m, Key(cfg.fd, r.id), r.kind, |r.content|, rejected)
    requires Judged(m, Key(cfg.fd, r.id), r.kind, |r.content|, rejected)
    ensures Get(Handle(m, cfg, r, rejected), key) ==
            if r.id == key.id then OwnStep(Get(m, key), Own(r, !rejected && Admits(m, cfg))) else Get(m, key)
  {
    if r.id == key.id && key in m.requests && IsStream(r.kind) && !StreamComplete(m.requests[key], r.kind) {
      var q := m.requests[key];
      if r.content == [] {
        assert Append(q, r.kind, []) == q;
        ConcludeReady(CompleteStream(q, r.kind));
      }
    }
  }

  function Gots(os: seq<Own>): seq<OwnEvent> {
    seq(|os|, k requires 0 <= k < |os| => Got(os[k]))
  }

  /** The records among the events of a request. */
  function Owns(es: seq<OwnEvent>): seq<Own> {
    if es == [] then []
    else if es[0].Got? then [es[0].o] + Owns(es[1..])
    else Owns(es[1..])
  }

  lemma {:induction false} OwnsAppend(es: seq<OwnEvent>, fs: seq<OwnEvent>)
    ensures Owns(es + fs) == Owns(es) + Owns(fs)
    decreases |es|
  {
    if es == [] {
      assert es + fs == fs;
    } else {
      assert (es + fs)[1..] == es[1..] + fs;
      OwnsAppend(es[1..], fs);
    }
  }

  /** The stream records among the records of a request. */
  function Streams(os: seq<Own>): seq<Record>
    ensures AllStreams(Streams(os))
  {
    if os == [] then []
    else
      var before := Streams(os[..|os| - 1]);
      if IsStream(os[|os| - 1].r.kind) then before + [os[|os| - 1].r] else before
  }

  function Records(os: seq<Own>): seq<Record> {
    seq(|os|, k requires 0 <= k < |os| => os[k].r)
  }

  lemma {:induction false} StreamOfStreams(os: seq<Own>, kind: byte)
    requires IsStream(kind)
    ensures StreamOf(Streams(os), kind) == StreamOf(Records(os), kind)
    ensures Ended(Streams(os), kind) <==> Ended(Records(os), kind)
    decreases |os|
  {
    if os != [] {
      var init, r := os[..|os| - 1], os[|os| - 1].r;
      StreamOfStreams(init, kind);
      assert Records(os) == Records(init) + [r];
      StreamOfMore(Records(init), r, kind);
      StreamOfMore(Streams(init), r, kind);
      assert StreamOf(Records(init), kind) + [] == StreamOf(Records(init), kind);
    }
  }

  /** What is left of a request after stream records. */
  function Outcome(q: Request): Option<Request> {
    if Ready(q) && !RequestParameters.Acceptable(q.params) then None else Some(q)
  }

  /** A request to abort, which ends a request that is still being received. */
  predicate Aborts(o: Own) {
    o.r.kind == ABORT_REQUEST && o.r.content == []
  }

  /** No record of these aborts the request, and it is not complete before the
      last of them. Records of other kinds, repeated begin-request records and
      records of ended streams may be among them. */
  predicate StillReceived(q: Request, os: seq<Own>) {
    && (forall k :: 0 <= k < |os| ==> !Aborts(os[k]))
    && (forall k :: 0 <= k < |os| ==> !AllComplete(ReceiveAll(q, Streams(os[..k]))))
  }

  lemma StillReceivedInit(q: Request, os: seq<Own>)
    requires os != [] && StillReceived(q, os)
    ensures StillReceived(q, os[..|os| - 1]) && !AllComplete(ReceiveAll(q, Streams(os[..|os| - 1])))
  {
    var init := os[..|os| - 1];
    forall k | 0 <= k < |init| ensures !Aborts(init[k]) && !AllComplete(ReceiveAll(q, Streams(init[..k]))) {
      assert init[k] == os[k] && init[..k] == os[..k];
    }
  }

  /** A stream completes no request before its last record. */
  lemma {:induction false} StreamsUnfinished(q: Request, os: seq<Own>)
    requires StillReceived(q, os)
    ensures Unfinished(q, Streams(os))
    decreases |os|
  {
    if os != [] {
      var init := os[..|os| - 1];
      StillReceivedInit(q, os);
      StreamsUnfinished(q, init);
      var rs, before := Streams(os), Streams(init);
      forall k | 0 <= k < |rs| ensures !AllComplete(ReceiveAll(q, rs[..k])) {
        if k < |before| {
          assert rs[..k] == before[..k];
        } else {
          assert rs[..k] == before;
        }
      }
    }
  }

  /** The records of a request up to the one that completes it act as its stream
      records do; the others are ignored. */
  lemma {:induction false} OwnStreams(role: nat, close: bool, os: seq<Own>)
    requires StillReceived(NewRequest(role, close), os)
    ensures OwnRun(Some(NewRequest(role, close)), Gots(os)) ==
            Outcome(ReceiveAll(NewRequest(role, close), Streams(os)))
    decreases |os|
  {
    var q := NewRequest(role, close);
    if os != [] {
      var init, o := os[..|os| - 1], os[|os| - 1];
      StillReceivedInit(q, os);
      OwnStreams(role, close, init);
      assert Gots(os) == Gots(init) + [Got(o)];
      OwnRunAppend(Some(q), Gots(init), [Got(o)]);
      var before := ReceiveAll(q, Streams(init));
      StreamsUnfinished(q, init);
      StreamsAreOwnRecords(role, close, Streams(init), PARAMS);
      assert !AllComplete(before) && !Ready(before);
      assert OwnRun(Some(before), [Got(o)]) == OwnStep(Some(before), o);
      NeverAssigned(q, Streams(init));
      if IsStream(o.r.kind) {
        assert Streams(os)[..|Streams(os)| - 1] == Streams(init);
        ReceiveOutcome(before, o);
      }
    }
  }

  lemma ReceiveOutcome(q: Request, o: Own)
    requires IsStream(o.r.kind) && !Ready(q)
    ensures OwnStep(Some(q), o) == Outcome(Receive(q, o.r))
  {
    if !StreamComplete(q, o.r.kind) && o.r.content != [] && Ready(Receive(q, o.r)) {
      AppendNeverCompletes(q, o.r.kind, o.r.content);
    }
  }

  lemma {:induction false} NeverAssigned(q: Request, rs: seq<Record>)
    requires AllStreams(rs) && !q.isAssigned
    ensures !ReceiveAll(q, rs).isAssigned && ReceiveAll(q, rs).abort == q.abort
    decreases |rs|
  {
    if rs != [] {
      NeverAssigned(q, rs[..|rs| - 1]);
    }
  }

  // ------------------------------------------------------------------
  // The same by records

  /** None of these records of a request aborts it, and before the last of them it
      still waits for records that its role needs. */
  predicate Awaited(role: nat, os: seq<Own>) {
    && (forall k :: 0 <= k < |os| ==> !Aborts(os[k]))
    && (forall k :: 0 <= k < |os| ==> !Served(role, Records(os[..k])))
  }

  lemma ServedByStreams(role: nat, os: seq<Own>)
    ensures Served(role, Streams(os)) <==> Served(role, Records(os))
  {
    StreamOfStreams(os, 4);
    StreamOfStreams(os, 5);
    StreamOfStreams(os, 8);
  }

  lemma AwaitedInit(role: nat, os: seq<Own>)
    requires os != [] && Awaited(role, os)
    ensures Awaited(role, os[..|os| - 1]) && !Served(role, Records(os[..|os| - 1]))
  {
    hide Served;
    var init := os[..|os| - 1];
    forall k | 0 <= k < |init| ensures !Aborts(init[k]) && !Served(role, Records(init[..k])) {
      assert init[k] == os[k] && init[..k] == os[..k];
    }
  }

  lemma {:induction false} AwaitedIsReceived(role: nat, close: bool, os: seq<Own>)
    requires Awaited(role, os)
    ensures StillReceived(NewRequest(role, close), os)
    decreases |os|
  {
    hide Served, Ready;
    if os != [] {
      var q, init := NewRequest(role, close), os[..|os| - 1];
      AwaitedInit(role, os);
      AwaitedIsReceived(role, close, init);
      StreamsUnfinished(q, init);
      ReadyWhenServed(role, close, Streams(init));
      ServedByStreams(role, init);
      StreamsAreOwnRecords(role, close, Streams(init), PARAMS);
      forall k | 0 <= k < |os| ensures !AllComplete(ReceiveAll(q, Streams(os[..k]))) {
        assert k < |init| ==> os[..k] == init[..k];
      }
    }
  }

  /** What the records of a request make of it, up to the record that completes it. */
  lemma AwaitedOutcome(role: nat, close: bool, os: seq<Own>)
    requires Awaited(role, os)
    ensures var q, rs := ReceiveAll(NewRequest(role, close), Streams(os)), Records(os);
            && (Ready(q) <==> Served(role, rs))
            && q.role == role && q.closeConnection == close && !q.isAssigned && !q.abort
            && q.params == StreamOf(rs, 4) && q.stdin == StreamOf(rs, 5) && q.data == StreamOf(rs, 8)
  {
    hide Served, Ready, StreamOf;
    var q := NewRequest(role, close);
    AwaitedIsReceived(role, close, os);
    StreamsUnfinished(q, os);
    ReadyWhenServed(role, close, Streams(os));
    ServedByStreams(role, os);
    RoleIsKept(q, Streams(os));
    NeverAssigned(q, Streams(os));
    StreamsAreOwnRecords(role, close, Streams(os), 4);
    StreamsAreOwnRecords(role, close, Streams(os), 5);
    StreamsAreOwnRecords(role, close, Streams(os), 8);
    StreamOfStreams(os, 4);
    StreamOfStreams(os, 5);
    StreamOfStreams(os, 8);
  }
}
