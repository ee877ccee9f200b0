/** Steps of request threads keep the invariant. */
module LockRequestProofs {
  import opened InterfaceMaps
  import opened Wrappers
  import opened LockProtocol
  import opened LockInvariant

  predicate SameStream(k: Conn, l: Conn) {
    l == k.(owner := l.owner)
  }

  /** How a step of request r may change its connection. */
  predicate ConnFrame(s: State, k: Conn, l: Conn, r: nat) {
    && l.fd == k.fd && l.mutexAlive == k.mutexAlive && l.closes == k.closes
    && (SameStream(k, l) || k.owner == Some(Request(r)))
    && (l.owner == k.owner
        || (k.owner == None && l.owner == Some(Request(r)) && s.im == Some(Request(r)) && k.mutexAlive)
        || (k.owner == Some(Request(r)) && l.owner == None))
  }

  /** How a step of request r may change the maps. */
  predicate MapsFrame(s: State, t: State, r: nat, q: Req) {
    var m, n := s.maps, t.maps;
    && n == m.(requestMap := n.requestMap, requestCount := n.requestCount, closure := n.closure, bad := n.bad)
    && (n != m || t.settled != s.settled ==> s.im == Some(Request(r)))
    && (m.bad ==> n.bad)
    && n.requestCount.Keys == m.requestCount.Keys
    && (forall fd :: fd in m.requestCount ==> n.requestCount[fd] <= m.requestCount[fd])
    && (n.bad != m.bad ==> OwnsSocket(s, q))
    && ((n.requestMap == m.requestMap && n.requestCount == m.requestCount)
        || (q.key in m.requestMap && m.requestMap[q.key].isAssigned && m.requestMap[q.key].holder == r
            && n.requestMap == m.requestMap - {q.key}))
    && ((n.closure == m.closure && t.settled == s.settled)
        || (n.closure == m.closure + {q.key.fd} && t.settled == s.settled + {q.key.fd}
            && OwnsSocket(s, q) && q.conn < |s.conns|
            && (s.conns[q.conn].owner.Some? && s.conns[q.conn].owner.value.Request? ==>
                  s.conns[q.conn].owner.value == Request(r))))
  }

  /** What any step of request r leaves alone. */
  predicate RequestFrame(s: State, t: State, r: nat)
    requires r < |s.reqs| && s.reqs[r].conn < |s.conns|
  {
    var q := s.reqs[r];
    && |t.reqs| == |s.reqs| && |t.conns| == |s.conns|
    && t == s.(im := t.im, maps := t.maps, settled := t.settled, faults := t.faults, terminated := t.terminated,
               conns := s.conns[q.conn := t.conns[q.conn]], reqs := s.reqs[r := t.reqs[r]])
    && t.reqs[r] == q.(completed := t.reqs[r].completed, wasAborted := t.reqs[r].wasAborted,
                       removals := t.reqs[r].removals, pc := t.reqs[r].pc)
    && (t.im == s.im || (s.im == None && t.im == Some(Request(r))) || (s.im == Some(Request(r)) && t.im == None))
    && ConnFrame(s, s.conns[q.conn], t.conns[q.conn], r)
    && MapsFrame(s, t, r, q)
    && (t.maps.requestMap == s.maps.requestMap ==> t.reqs[r].removals == q.removals)
    && (Live(q) && !Live(t.reqs[r]) ==> q.key !in t.maps.requestMap || t.maps.bad || !Current(s, q))
  }

  lemma OtherRequestKept(s: State, t: State, r: nat, o: nat)
    requires r < |s.reqs| && o < |s.reqs| && o != r
    requires ReqOk(s, r) && ReqOk(s, o) && RequestFrame(s, t, r)
    ensures ReqOk(t, o)
  {
    var q, p := s.reqs[r], s.reqs[o];
    assert t.reqs[o] == p;
    assert IdentityOk(t, p);
    assert LocksOk(t, o, p);
    assert LiveOk(t, o, p);
    if p.pc.Writing? && p.key.fd == q.key.fd && OwnsSocket(s, q) {
      assert p.conn == q.conn;
    }
    assert PcOk(t, p);
  }

  lemma OtherConnKept(s: State, t: State, r: nat, c: nat)
    requires r < |s.reqs| && c < |s.conns|
    requires ReqOk(s, r) && ConnOk(s, c) && RequestFrame(s, t, r)
    requires c != s.reqs[r].conn
    ensures ConnOk(t, c)
  {
  }

  lemma EntryKept(s: State, t: State, r: nat, key: Key)
    requires r < |s.reqs| && key in t.maps.requestMap && key in s.maps.requestMap
    requires ReqOk(s, r) && EntryOk(s, key) && RequestFrame(s, t, r)
    ensures EntryOk(t, key)
  {
  }

  lemma FdKept(s: State, t: State, r: nat, fd: Fd)
    requires r < |s.reqs|
    requires ReqOk(s, r) && FdOk(s, fd) && RequestFrame(s, t, r)
    requires s.im == Some(Interface) <==> InterfaceHoldsI(s.ipc)
    ensures FdOk(t, fd)
  {
  }

  lemma IPcKept(s: State, t: State, r: nat)
    requires r < |s.reqs|
    requires ReqOk(s, r) && IPcOk(s) && RequestFrame(s, t, r)
    requires s.im == Some(Interface) <==> InterfaceHoldsI(s.ipc)
    requires forall c :: 0 <= c < |s.conns| ==> ConnOk(s, c)
    ensures IPcOk(t)
  {
    if s.ipc.Sending? || s.ipc.Accepted? {
      assert ConnOk(s, s.ipc.conn);
    }
  }

  /** The part of the state that a step of request r depends on. */
  ghost predicate Around(s: State, r: nat) {
    Near(s, r) && MapsOk(s.maps, s.maxRequests)
  }

  ghost predicate Near(s: State, r: nat) {
    && r < |s.reqs| && ReqOk(s, r) && ConnOk(s, s.reqs[r].conn) && FdOk(s, s.reqs[r].key.fd)
    && s.faults == {}
    && (s.identifier != 0 ==> s.generation > 0 && s.identifier == IdentifierOf(s.generation))
    && (s.identifier == 0 <==> s.ipc.Absent? || s.ipc.Dismantling?)
    && (s.im == Some(Interface) <==> InterfaceHoldsI(s.ipc))
  }

  lemma InvAround(s: State, r: nat)
    requires Inv(s) && r < |s.reqs|
    ensures Around(s, r)
  {
    assert ReqOk(s, r);
    assert ConnOk(s, s.reqs[r].conn);
    assert FdOk(s, s.reqs[r].key.fd);
  }

  /** What a step of request r has to establish. */
  ghost predicate Kept(s: State, t: State, r: nat)
    requires r < |s.reqs| && s.reqs[r].conn < |s.conns|
  {
    && RequestFrame(s, t, r)
    && ReqOk(t, r) && ConnOk(t, s.reqs[r].conn) && MapsOk(t.maps, t.maxRequests) && t.faults == {}
  }

  lemma RequestStepInv(s: State, t: State, r: nat)
    requires Inv(s) && r < |s.reqs| && s.reqs[r].conn < |s.conns| && Kept(s, t, r)
    ensures Inv(t)
  {
    assert ReqOk(s, r);
    forall o | 0 <= o < |t.reqs| ensures ReqOk(t, o) {
      if o != r { OtherRequestKept(s, t, r, o); }
    }
    forall c | 0 <= c < |t.conns| ensures ConnOk(t, c) {
      if c != s.reqs[r].conn { OtherConnKept(s, t, r, c); }
    }
    forall key | key in t.maps.requestMap ensures EntryOk(t, key) {
      EntryKept(s, t, r, key);
    }
    forall fd ensures FdOk(t, fd) {
      FdKept(s, t, r, fd);
    }
    IPcKept(s, t, r);
  }

  // ------------------------------------------------------------------
  // The steps

  lemma RemoveOwnMaps(s: State, r: nat)
    requires Around(s, r) && Current(s, s.reqs[r]) && Live(s.reqs[r])
    ensures var q := s.reqs[r]; var n := RemoveRequest(s.maps, q.key);
            && MapsOk(n, s.maxRequests)
            && n == s.maps.(requestMap := s.maps.requestMap - {q.key}, requestCount := n.requestCount)
            && n.requestCount.Keys == s.maps.requestCount.Keys
            && (forall fd :: fd in s.maps.requestCount ==> n.requestCount[fd] <= s.maps.requestCount[fd])
            && !RemovalFails(s.maps, q.key)
  {
    var q := s.reqs[r];
    RemoveRequestOk(s.maps, q.key, s.maxRequests);
    assert q.key in KeysOn(s.maps.requestMap, q.key.fd);
  }

  function FreeW(s: State, r: nat): State
    requires r < |s.reqs| && s.reqs[r].conn < |s.conns|
  {
    if HoldsW(s.reqs[r].pc) then SetOwner(s, s.reqs[r].conn, None) else s
  }

  /** A live request leaves the map and becomes q: it either returns to the
      application or goes on to schedule the closure of its connection. */
  ghost predicate Leaving(s: State, r: nat, q: Req, im: Option<Thread>) {
    && Near(s, r) && Current(s, s.reqs[r]) && Live(s.reqs[r])
    && s.im == Some(Request(r)) && !s.reqs[r].pc.Writing?
    && q == s.reqs[r].(completed := q.completed, wasAborted := q.wasAborted, pc := q.pc)
    && ((q.pc.Idle? && q.completed) || q.pc.Dead? || (q.pc.WantWToInsert? && EntryGone(q.pc) && q.completed))
    && (q.pc.WantWToInsert? ==> AfterCheck(s.reqs[r].pc) && FoundUnsettled(s.reqs[r].pc))
    && im == if HoldsI(q.pc) then s.im else None
  }

  lemma RemoveOwnMapsFrame(s: State, r: nat, q: Req, im: Option<Thread>)
    requires Leaving(s, r, q, im) && !RemovalFails(s.maps, q.key)
    ensures MapsFrame(s, RemoveOwn(FreeW(s, r), r, q).(im := im), r, s.reqs[r])
  {
    hide ConnOk, FdOk, PcOk;
  }

  lemma RemoveOwnFrame(s: State, r: nat, q: Req, im: Option<Thread>)
    requires Leaving(s, r, q, im) && !RemovalFails(s.maps, q.key)
    ensures RequestFrame(s, RemoveOwn(FreeW(s, r), r, q).(im := im), r)
  {
    RemoveOwnMapsFrame(s, r, q, im);
    hide MapsFrame, FdOk, StreamOk, PcOk;
    var t := RemoveOwn(FreeW(s, r), r, q).(im := im);
    assert t.reqs[r] == q.(removals := 1);
    assert RequestFrame(s, t, r);
  }

  lemma RemoveOwnLocal(s: State, r: nat, q: Req, im: Option<Thread>)
    requires Leaving(s, r, q, im) && !RemovalFails(s.maps, q.key)
    ensures ReqOk(RemoveOwn(FreeW(s, r), r, q).(im := im), r)
  {
    var t := RemoveOwn(FreeW(s, r), r, q).(im := im);
    assert t.reqs[r] == q.(removals := 1);
  }

  lemma RemoveOwnFaultless(s: State, r: nat, q: Req, im: Option<Thread>)
    requires Leaving(s, r, q, im) && !RemovalFails(s.maps, q.key)
    ensures RemoveOwn(FreeW(s, r), r, q).faults == {}
  {
    hide ConnOk, FdOk, PcOk;
    assert OwnsEntry(s, r);
  }

  lemma RemoveOwnConn(s: State, r: nat, q: Req, im: Option<Thread>)
    requires Leaving(s, r, q, im) && !RemovalFails(s.maps, q.key)
    ensures var t := RemoveOwn(FreeW(s, r), r, q).(im := im);
            ConnOk(t, q.conn) && t.faults == {}
  {
    RemoveOwnFaultless(s, r, q, im);
  }

  lemma RemoveOwnKept(s: State, r: nat, q: Req, im: Option<Thread>)
    requires Leaving(s, r, q, im) && MapsOk(s.maps, s.maxRequests)
    ensures Kept(s, RemoveOwn(FreeW(s, r), r, q).(im := im), r)
  {
    RemoveOwnMaps(s, r);
    RemoveOwnFrame(s, r, q, im);
    RemoveOwnLocal(s, r, q, im);
    RemoveOwnConn(s, r, q, im);
  }

  /** Steps that change only the request itself and the interface mutex. */
  lemma MoveKept(s: State, r: nat, q: Req, im: Option<Thread>)
    requires Around(s, r) && !s.reqs[r].pc.Writing?
    requires q == s.reqs[r].(completed := q.completed, wasAborted := q.wasAborted, pc := q.pc)
    requires im == s.im || (s.im == None && im == Some(Request(r))) || (s.im == Some(Request(r)) && im == None)
    requires var t := s.(im := im, reqs := s.reqs[r := q]);
             LocksOk(t, r, q) && PcOk(t, q)
    requires Live(q) ==> Live(s.reqs[r])
    requires Live(s.reqs[r]) ==> Live(q) || s.maps.bad || !Current(s, q)
    ensures Kept(s, s.(im := im, reqs := s.reqs[r := q]), r)
  {
    var t := s.(im := im, reqs := s.reqs[r := q]);
    assert t.reqs[r] == q;
    assert LiveOk(t, r, q);
  }

  lemma StartKept(s: State, r: nat, op: Op)
    requires Around(s, r) && CanStart(s, r, op)
    ensures Kept(s, Start(s, r, op), r)
  {
    MoveKept(s, r, s.reqs[r].(pc := WantI(op)), s.im);
  }

  lemma DropKept(s: State, r: nat)
    requires Around(s, r) && CanDrop(s, r)
    ensures Kept(s, Drop(s, r), r)
  {
    MoveKept(s, r, s.reqs[r].(pc := Dead), s.im);
  }

  lemma LockIKept(s: State, r: nat)
    requires Around(s, r) && CanLockI(s, r)
    ensures Kept(s, LockI(s, r), r)
  {
    MoveKept(s, r, s.reqs[r].(pc := Checking(s.reqs[r].pc.op)), Some(Request(r)));
  }

  /** A request that gives up because its connection is lost leaves the map. */
  lemma WithdrawKept(s: State, r: nat)
    requires Around(s, r) && s.im == Some(Request(r)) && !HoldsW(s.reqs[r].pc)
    requires Current(s, s.reqs[r]) && Live(s.reqs[r])
    ensures Kept(s, Withdraw(s, r), r)
  {
    RemoveOwnKept(s, r, GiveUp(s.reqs[r]), None);
  }

  lemma CheckEntryKept(s: State, r: nat)
    requires Around(s, r) && CanCheck(s, r) && Current(s, s.reqs[r]) && !s.maps.bad
    ensures s.reqs[r].key in s.maps.requestMap
    ensures Kept(s, CheckEntry(s, r, s.maps.requestMap[s.reqs[r].key]), r)
  {
    hide Kept, MapsOk, StreamOk;
    var q := s.reqs[r];
    var e := s.maps.requestMap[q.key];
    if q.pc.op.Abort? {
      if e.closedByInterface { WithdrawKept(s, r); }
      else { MoveKept(s, r, q.(wasAborted := e.clientAbort, pc := Idle), None); }
    } else if q.pc.op.Destroy? {
      if q.closeConnection && !e.closedByInterface {
        MoveKept(s, r, q.(pc := WantWToInsert(ByDestructor)), s.im);
      } else {
        MoveKept(s, r, q.(pc := DestroyRemove), s.im);
      }
    } else if Doomed(s, q.key, e) {
      WithdrawKept(s, r);
    } else if q.pc.op.Fail? {
      MoveKept(s, r, q.(pc := FailBody(q.pc.op.force)), s.im);
    } else {
      MoveKept(s, r, q.(pc := WantW(q.pc.op.End?, q.pc.op.data)), s.im);
    }
  }

  /** Identifiers of interfaces repeat after 2^64 - 1 and are never 0, which stands
      for the absence of an interface. */
  lemma SameIdentifier(g: nat, h: nat)
    requires 1 <= g <= h
    ensures IdentifierOf(g) != 0 && IdentifierOf(h) != 0
    ensures IdentifierOf(g) == IdentifierOf(h) <==> (h - g) % MAX_IDENTIFIER == 0
  {
    var a, b := g - 1, h - 1;
    assert b - a == (b / MAX_IDENTIFIER - a / MAX_IDENTIFIER) * MAX_IDENTIFIER
                    + (b % MAX_IDENTIFIER - a % MAX_IDENTIFIER);
  }

  /** The comparison with interface_identifier_ tells whether the request's own
      interface exists if and only if the identity is fresh. */
  lemma IdentityTest(s: State, q: Req)
    requires IdentityOk(s, q)
    requires s.identifier != 0 ==> s.identifier == IdentifierOf(s.generation)
    ensures (q.identifier == s.identifier <==> Current(s, q)) <==> Fresh(s, q)
  {
    if s.identifier != 0 { SameIdentifier(q.generation, s.generation); }
  }

  lemma CheckKept(s: State, r: nat)
    requires Around(s, r) && CanCheck(s, r) && Fresh(s, s.reqs[r])
    ensures Kept(s, Check(s, r), r)
  {
    hide Kept, MapsOk, ConnOk;
    var q := s.reqs[r];
    IdentityTest(s, q);
    if Current(s, q) && !s.maps.bad {
      CheckEntryKept(s, r);
    } else if q.pc.op.Destroy? {
      MoveKept(s, r, q.(pc := Dead), None);
    } else {
      MoveKept(s, r, GiveUp(q), None);
    }
  }

  lemma LockWKept(s: State, r: nat)
    requires Around(s, r) && CanLockW(s, r)
    ensures Kept(s, LockW(s, r), r)
  {
    var q := s.reqs[r];
    var t := LockW(s, r);
    assert t.reqs[r] == q.(pc := t.reqs[r].pc);
    assert ReqOk(t, r);
    assert OwnerOk(t, q.conn) && SocketOk(t, q.conn) && StreamOk(t, q.conn);
  }

  lemma CheckFlagKept(s: State, r: nat)
    requires Around(s, r) && CanCheckFlag(s, r)
    ensures Kept(s, CheckFlag(s, r), r)
  {
    var q := s.reqs[r];
    if s.conns[q.conn].corrupt {
      RemoveOwnKept(s, r, GiveUp(q), None);
    } else {
      assert !BeingWritten(s, q.conn);
      assert s.conns[q.conn].partial != [] ==> s.conns[q.conn].epipe;
      assert q.pc.data[..0] == [];
      MoveKept(s, r, q.(pc := Writing(q.pc.held, q.pc.data, 0)), if q.pc.held then s.im else None);
    }
  }

  lemma SendLocal(s: State, r: nat, n: nat)
    requires Near(s, r) && CanSend(s, r, n)
    ensures ReqOk(Send(s, r, n), r)
  {
    var q := s.reqs[r];
    EmitStream(s.conns[q.conn], q.pc.data, q.pc.done, n);
    var t := Send(s, r, n);
    assert t.reqs[r] == q.(pc := t.reqs[r].pc);
  }

  lemma SendKept(s: State, r: nat, n: nat)
    requires Around(s, r) && CanSend(s, r, n)
    ensures Kept(s, Send(s, r, n), r)
  {
    var q := s.reqs[r];
    EmitStream(s.conns[q.conn], q.pc.data, q.pc.done, n);
    SendLocal(s, r, n);
    var t := Send(s, r, n);
    assert OwnerOk(t, q.conn) && SocketOk(t, q.conn) && StreamOk(t, q.conn);
  }

  lemma FailWriteKept(s: State, r: nat, e: WriteError)
    requires Around(s, r) && CanFailWrite(s, r, e)
    ensures Kept(s, FailWrite(s, r, e), r)
  {
    var q := s.reqs[r];
    var t := FailWrite(s, r, e);
    assert t.reqs[r] == q.(pc := t.reqs[r].pc);
    assert ReqOk(t, r);
    assert OwnerOk(t, q.conn) && SocketOk(t, q.conn) && StreamOk(t, q.conn);
  }

  lemma FailBodyKept(s: State, r: nat)
    requires Around(s, r) && CanFailBody(s, r)
    ensures Kept(s, DoFailBody(s, r), r)
  {
    var q := s.reqs[r].(completed := true, wasAborted := true);
    if q.pc.force || q.closeConnection {
      RemoveOwnKept(s, r, q.(pc := WantWToInsert(ByWriter)), s.im);
    } else {
      RemoveOwnKept(s, r, q.(pc := Idle), None);
    }
  }

  lemma ReleaseTemporaryKept(s: State, r: nat)
    requires Around(s, r) && CanReleaseTemporary(s, r)
    ensures Kept(s, ReleaseTemporary(s, r), r)
  {
  }

  lemma InsertFrame(s: State, r: nat, pipe: PipeWrite)
    requires Near(s, r) && CanInsert(s, r)
    ensures RequestFrame(s, Insert(s, r, pipe), r)
  {
    var q := s.reqs[r];
    var t := Insert(s, r, pipe);
    assert t.reqs[r] == q.(pc := t.reqs[r].pc);
    assert MapsFrame(s, t, r, q);
  }

  lemma InsertLocal(s: State, r: nat, pipe: PipeWrite)
    requires Near(s, r) && CanInsert(s, r)
    ensures ReqOk(Insert(s, r, pipe), r)
  {
    var t := Insert(s, r, pipe);
    assert t.reqs[r] == s.reqs[r].(pc := t.reqs[r].pc);
    assert LocksOk(t, r, t.reqs[r]) && PcOk(t, t.reqs[r]) && LiveOk(t, r, t.reqs[r]);
  }

  lemma InsertConn(s: State, r: nat, pipe: PipeWrite)
    requires Near(s, r) && CanInsert(s, r)
    ensures var t := Insert(s, r, pipe); ConnOk(t, s.reqs[r].conn) && t.faults == {}
  {
  }

  lemma InsertKept(s: State, r: nat, pipe: PipeWrite)
    requires Around(s, r) && CanInsert(s, r)
    ensures Kept(s, Insert(s, r, pipe), r)
  {
    var t := Insert(s, r, pipe);
    InsertFrame(s, r, pipe);
    InsertLocal(s, r, pipe);
    InsertConn(s, r, pipe);
    ClosureAndBadOk(s.maps, t.maps.closure, t.maps.bad, s.maxRequests);
  }

  lemma EndRemoveKept(s: State, r: nat)
    requires Around(s, r) && CanEndRemove(s, r)
    ensures Kept(s, DoEndRemove(s, r), r)
  {
    var q := s.reqs[r].(completed := true);
    if q.closeConnection {
      RemoveOwnKept(s, r, q.(pc := WantWToInsert(ByEnd)), s.im);
    } else {
      RemoveOwnKept(s, r, q.(pc := Idle), None);
    }
  }

  lemma DestroyRemoveKept(s: State, r: nat)
    requires Around(s, r) && CanDestroyRemove(s, r)
    ensures Kept(s, DoDestroyRemove(s, r), r)
  {
    RemoveOwnKept(s, r, s.reqs[r].(pc := Dead), None);
  }

  lemma RequestStepKept(s: State, r: nat, step: RequestStep)
    requires Around(s, r) && RequestStepEnabled(s, r, step)
    requires step.RCheck? ==> Fresh(s, s.reqs[r])
    ensures Kept(s, RequestStepApply(s, r, step), r)
  {
    match step
    case RStart(op) => StartKept(s, r, op);
    case RDrop => DropKept(s, r);
    case RLockI => LockIKept(s, r);
    case RCheck => CheckKept(s, r);
    case RLockW => LockWKept(s, r);
    case RCheckFlag => CheckFlagKept(s, r);
    case RSend(n) => SendKept(s, r, n);
    case RFailWrite(e) => FailWriteKept(s, r, e);
    case RFailBody => FailBodyKept(s, r);
    case RReleaseTemporary => ReleaseTemporaryKept(s, r);
    case RInsert(pipe) => InsertKept(s, r, pipe);
    case REndRemove => EndRemoveKept(s, r);
    case RDestroyRemove => DestroyRemoveKept(s, r);
  }
}
