/** RequestData: what has been received of one request. */
module RequestStreams {
  import opened Bytes
  import opened FcgiRecords

  const BEGIN_REQUEST: byte := 1
  const ABORT_REQUEST: byte := 2
  const PARAMS: byte := 4
  const STDIN: byte := 5
  const DATA: byte := 8
  const GET_VALUES: byte := 9

  const RESPONDER := 1
  const AUTHORIZER := 2

  datatype Request = Request(role: nat, closeConnection: bool,
                             params: seq<byte>, stdin: seq<byte>, data: seq<byte>,
                             paramsComplete: bool, stdinComplete: bool, dataComplete: bool,
                             isAssigned: bool, abort: bool)

  function NewRequest(role: nat, closeConnection: bool): Request {
    Request(role, closeConnection, [], [], [], false, false, false, false, false)
  }

  predicate IsStream(kind: byte) {
    kind == PARAMS || kind == STDIN || kind == DATA
  }

  function Stream(q: Request, kind: byte): seq<byte>
    requires IsStream(kind)
  {
    if kind == PARAMS then q.params else if kind == STDIN then q.stdin else q.data
  }

  predicate StreamComplete(q: Request, kind: byte)
    requires IsStream(kind)
  {
    if kind == PARAMS then q.paramsComplete else if kind == STDIN then q.stdinComplete else q.dataComplete
  }

  function Append(q: Request, kind: byte, bytes: seq<byte>): Request
    requires IsStream(kind)
  {
    if kind == PARAMS then q.(params := q.params + bytes)
    else if kind == STDIN then q.(stdin := q.stdin + bytes)
    else q.(data := q.data + bytes)
  }

  function CompleteStream(q: Request, kind: byte): Request
    requires IsStream(kind)
  {
    if kind == PARAMS then q.(paramsComplete := true)
    else if kind == STDIN then q.(stdinComplete := true)
    else q.(dataComplete := true)
  }

  predicate AllComplete(q: Request) {
    q.paramsComplete && q.stdinComplete && q.dataComplete
  }

  /** When a role has what it needs: a stream that the role does not use counts as
      complete while nothing of it was received. */
  predicate Ready(q: Request) {
    if q.role == RESPONDER then q.paramsComplete && q.stdinComplete && (q.data == [] || q.dataComplete)
    else if q.role == AUTHORIZER then
      q.paramsComplete && (q.stdin == [] || q.stdinComplete) && (q.data == [] || q.dataComplete)
    else AllComplete(q)
  }

  function Conclude(q: Request): Request {
    if Ready(q) then q.(paramsComplete := true, stdinComplete := true, dataComplete := true) else q
  }

  /** CheckRequestCompletionWithConditionalUpdate. */
  method CheckCompletion(q: Request) returns (completed: bool, updated: Request)
    ensures completed <==> Ready(q)
    ensures forall rs :: Collected(q, rs) ==> (completed <==> Served(q.role, rs))
    ensures updated == if completed then q.(paramsComplete := true, stdinComplete := true, dataComplete := true) else q
    ensures updated == Conclude(q)
  {
    forall rs | Collected(q, rs) ensures Ready(q) <==> Served(q.role, rs) {
      ReadyIsServed(q, rs);
    }
    updated := q;
    if q.role == RESPONDER {
      completed := q.paramsComplete && q.stdinComplete && (|q.data| == 0 || q.dataComplete);
      if completed && !q.dataComplete {
        updated := updated.(dataComplete := true);
      }
    } else if q.role == AUTHORIZER {
      completed := q.paramsComplete && (|q.stdin| == 0 || q.stdinComplete) && (|q.data| == 0 || q.dataComplete);
      if completed {
        if !q.stdinComplete {
          updated := updated.(stdinComplete := true);
        }
        if !q.dataComplete {
          updated := updated.(dataComplete := true);
        }
      }
    } else {
      completed := q.paramsComplete && q.stdinComplete && q.dataComplete;
    }
  }

  /** More bytes never complete a request, so that only the end of a stream can. */
  lemma AppendNeverCompletes(q: Request, kind: byte, bytes: seq<byte>)
    requires IsStream(kind) && !StreamComplete(q, kind) && Ready(Append(q, kind, bytes))
    ensures Ready(q)
  {
  }

  // ------------------------------------------------------------------
  // The streams of one request, from its own records alone

  /** The content of the records of one kind up to the first empty one. */
  function StreamOf(rs: seq<Record>, kind: byte): seq<byte> {
    if rs == [] then []
    else if rs[0].kind != kind then StreamOf(rs[1..], kind)
    else if rs[0].content == [] then []
    else rs[0].content + StreamOf(rs[1..], kind)
  }

  predicate Ended(rs: seq<Record>, kind: byte) {
    exists k :: 0 <= k < |rs| && rs[k].kind == kind && rs[k].content == []
  }

  lemma {:induction false} StreamOfMore(rs: seq<Record>, r: Record, kind: byte)
    ensures StreamOf(rs + [r], kind) ==
            StreamOf(rs, kind) + if r.kind == kind && !Ended(rs, kind) then r.content else []
    ensures Ended(rs + [r], kind) <==> Ended(rs, kind) || (r.kind == kind && r.content == [])
    decreases |rs|
  {
    EndedMore(rs, r, kind);
    if rs == [] {
      assert [] + [r] == [r] && [r][1..] == [];
    } else {
      StreamOfMore(rs[1..], r, kind);
      assert (rs + [r])[1..] == rs[1..] + [r];
      EndedTail(rs, kind);
    }
  }

  lemma EndedMore(rs: seq<Record>, r: Record, kind: byte)
    ensures Ended(rs + [r], kind) <==> Ended(rs, kind) || (r.kind == kind && r.content == [])
  {
    var more := rs + [r];
    assert more[|rs|] == r;
    if Ended(rs, kind) {
      var k :| 0 <= k < |rs| && rs[k].kind == kind && rs[k].content == [];
      assert more[k] == rs[k];
    }
  }

  lemma EndedTail(rs: seq<Record>, kind: byte)
    requires rs != []
    ensures Ended(rs, kind) <==> Ended(rs[1..], kind) || (rs[0].kind == kind && rs[0].content == [])
  {
    assert rs == [rs[0]] + rs[1..];
    if Ended(rs[1..], kind) {
      var k :| 0 <= k < |rs[1..]| && rs[1..][k].kind == kind && rs[1..][k].content == [];
      assert rs[k + 1] == rs[1..][k];
    }
    if Ended(rs, kind) {
      var k :| 0 <= k < |rs| && rs[k].kind == kind && rs[k].content == [];
      assert k > 0 ==> rs[1..][k - 1] == rs[k];
    }
  }

  /** The effect of a stream record on its request while that is not complete. */
  function Receive(q: Request, r: Record): Request
    requires IsStream(r.kind)
  {
    if StreamComplete(q, r.kind) then q
    else if r.content == [] then Conclude(CompleteStream(q, r.kind))
    else Append(q, r.kind, r.content)
  }

  /** What a request that is not complete has received of one stream. */
  predicate Received(q: Request, rs: seq<Record>, kind: byte)
    requires IsStream(kind)
  {
    Stream(q, kind) == StreamOf(rs, kind) && (StreamComplete(q, kind) <==> Ended(rs, kind))
  }

  /** What a request that is not complete has received after its begin-request
      record. */
  predicate Collected(q: Request, rs: seq<Record>) {
    Received(q, rs, PARAMS) && Received(q, rs, STDIN) && Received(q, rs, DATA)
  }

  predicate AllStreams(rs: seq<Record>) {
    forall k :: 0 <= k < |rs| ==> IsStream(rs[k].kind)
  }

  function ReceiveAll(q: Request, rs: seq<Record>): Request
    requires AllStreams(rs)
  {
    if rs == [] then q else Receive(ReceiveAll(q, rs[..|rs| - 1]), rs[|rs| - 1])
  }

  /** The records up to the one that completes the request. */
  predicate Unfinished(q: Request, rs: seq<Record>)
    requires AllStreams(rs)
  {
    forall k :: 0 <= k < |rs| ==> !AllComplete(ReceiveAll(q, rs[..k]))
  }

  lemma CollectOne(q: Request, rs: seq<Record>, r: Record, kind: byte)
    requires IsStream(r.kind) && IsStream(kind) && Collected(q, rs)
    ensures Stream(Receive(q, r), kind) == StreamOf(rs + [r], kind)
    ensures !Ready(Receive(q, r)) ==> Received(Receive(q, r), rs + [r], kind)
  {
    hide StreamOf, Ended;
    StreamOfMore(rs, r, kind);
    assert StreamOf(rs, kind) + [] == StreamOf(rs, kind);
  }

  /** Until it is complete a request has received exactly its own records: each
      stream is the content of the records of that kind, in order, up to the first
      empty one, and the completing record leaves the streams as they are. */
  lemma {:induction false} StreamsAreOwnRecords(role: nat, close: bool, rs: seq<Record>, kind: byte)
    requires AllStreams(rs) && Unfinished(NewRequest(role, close), rs) && IsStream(kind)
    ensures Stream(ReceiveAll(NewRequest(role, close), rs), kind) == StreamOf(rs, kind)
    ensures !AllComplete(ReceiveAll(NewRequest(role, close), rs)) ==>
              Received(ReceiveAll(NewRequest(role, close), rs), rs, kind)
    ensures AllComplete(ReceiveAll(NewRequest(role, close), rs)) <==> Ready(ReceiveAll(NewRequest(role, close), rs))
    decreases |rs|
  {
    var q := NewRequest(role, close);
    if rs != [] {
      var init, r := rs[..|rs| - 1], rs[|rs| - 1];
      assert rs == init + [r];
      assert Unfinished(q, init) by {
        forall k | 0 <= k < |init| ensures !AllComplete(ReceiveAll(q, init[..k])) {
          assert init[..k] == rs[..k];
        }
      }
      var before := ReceiveAll(q, init);
      assert !AllComplete(before);
      StreamsAreOwnRecords(role, close, init, PARAMS);
      StreamsAreOwnRecords(role, close, init, STDIN);
      StreamsAreOwnRecords(role, close, init, DATA);
      CollectOne(before, init, r, kind);
    }
  }

  // ------------------------------------------------------------------
  // The completion rule in terms of records

  /** The records of one kind have come to an end or brought nothing. */
  predicate EndedOrUnused(rs: seq<Record>, kind: byte) {
    Ended(rs, kind) || StreamOf(rs, kind) == []
  }

  /** What a request waits for, with the role and type numbers of section 8 of the
      FastCGI specification: a Responder (1) for FCGI_PARAMS (4) and FCGI_STDIN (5),
      an Authorizer (2) for FCGI_PARAMS, any other role for these and FCGI_DATA (8).
      A stream that a role need not have counts if it was begun. */
  predicate Served(role: nat, rs: seq<Record>) {
    && Ended(rs, 4)
    && (if role == 1 then Ended(rs, 5) && EndedOrUnused(rs, 8)
        else if role == 2 then EndedOrUnused(rs, 5) && EndedOrUnused(rs, 8)
        else Ended(rs, 5) && Ended(rs, 8))
  }

  lemma ReadyIsServed(q: Request, rs: seq<Record>)
    requires Collected(q, rs)
    ensures Ready(q) <==> Served(q.role, rs)
  {
  }

  /** The end of a stream, before the request is concluded. */
  lemma CollectEnd(q: Request, rs: seq<Record>, r: Record)
    requires IsStream(r.kind) && Collected(q, rs) && r.content == [] && !StreamComplete(q, r.kind)
    ensures Collected(CompleteStream(q, r.kind), rs + [r])
  {
    hide StreamOf, Ended;
    StreamOfMore(rs, r, PARAMS);
    StreamOfMore(rs, r, STDIN);
    StreamOfMore(rs, r, DATA);
    assert forall s: seq<byte> :: s + [] == s;
  }

  lemma ReceiveServed(q: Request, rs: seq<Record>, r: Record)
    requires IsStream(r.kind) && Collected(q, rs) && !Ready(q)
    ensures Ready(Receive(q, r)) <==> Served(q.role, rs + [r])
  {
    hide StreamOf, Ended, Served;
    if Ready(Receive(q, r)) {
      if r.content != [] && !StreamComplete(q, r.kind) {
        AppendNeverCompletes(q, r.kind, r.content);
      }
      CollectEnd(q, rs, r);
      ReadyIsServed(CompleteStream(q, r.kind), rs + [r]);
    } else {
      CollectOne(q, rs, r, PARAMS);
      CollectOne(q, rs, r, STDIN);
      CollectOne(q, rs, r, DATA);
      ReadyIsServed(Receive(q, r), rs + [r]);
    }
  }

  lemma {:induction false} RoleIsKept(q: Request, rs: seq<Record>)
    requires AllStreams(rs)
    ensures ReceiveAll(q, rs).role == q.role && ReceiveAll(q, rs).closeConnection == q.closeConnection
    decreases |rs|
  {
    if rs != [] {
      RoleIsKept(q, rs[..|rs| - 1]);
    }
  }

  /** A request becomes ready exactly with the record after which the rule of its
      role holds of its records. */
  lemma ReadyWhenServed(role: nat, close: bool, rs: seq<Record>)
    requires AllStreams(rs) && Unfinished(NewRequest(role, close), rs)
    ensures Ready(ReceiveAll(NewRequest(role, close), rs)) <==> Served(role, rs)
  {
    hide Ready, Served;
    var q := NewRequest(role, close);
    if rs == [] {
      ReadyIsServed(q, rs);
    } else {
      var init, r := rs[..|rs| - 1], rs[|rs| - 1];
      assert rs == init + [r];
      assert Unfinished(q, init) by {
        forall k | 0 <= k < |init| ensures !AllComplete(ReceiveAll(q, init[..k])) {
          assert init[..k] == rs[..k];
        }
      }
      StreamsAreOwnRecords(role, close, init, PARAMS);
      StreamsAreOwnRecords(role, close, init, STDIN);
      StreamsAreOwnRecords(role, close, init, DATA);
      RoleIsKept(q, init);
      ReceiveServed(ReceiveAll(q, init), init, r);
    }
  }
}
