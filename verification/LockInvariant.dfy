/** The inductive invariant of the lock protocol, one predicate per element of
    the state so that a step needs to be examined only where it acts. */
module LockInvariant {
  import opened Bytes
  import opened InterfaceMaps
  import opened Wrappers
  import opened LockProtocol

  // ------------------------------------------------------------------
  // What a program counter says about mutexes

  predicate HoldsI(pc: Pc) {
    match pc
    case Idle => false
    case WantI(_) => false
    case Dead => false
    case Writing(held, _, _) => held
    case _ => true
  }

  predicate HoldsW(pc: Pc) {
    pc.HasBoth? || pc.Writing? || pc.HasWToInsert?
  }

  predicate InterfaceHoldsI(ipc: IPc) {
    ipc.CleanDummies? || ipc.CleanClosures? || ipc.SendWantW2? || ipc.SendInsert? || ipc.ClosingConnections?
  }

  predicate InterfaceHoldsW(ipc: IPc, c: nat) {
    (ipc.SendHasW? || ipc.Sending? || ipc.SendInsert?) && ipc.conn == c
  }

  /** The destructor of the interface has not yet closed this connection. */
  predicate ConnectionOpen(ipc: IPc, fd: Fd) {
    match ipc
    case Absent => false
    case Dismantling => false
    case ClosingConnections(todo) => fd in todo
    case _ => true
  }

  predicate DummyOpen(ipc: IPc, fd: Fd) {
    match ipc
    case Absent => false
    case Dismantling => false
    case WantDestroyI => false
    case ClosingConnections(_) => false
    case ClosingDummies(todo) => fd in todo
    case _ => true
  }

  /** The interface for which the request was created exists. */
  predicate Current(s: State, q: Req) {
    s.identifier != 0 && q.generation == s.generation
  }

  predicate Live(q: Req) {
    !q.completed && !q.pc.Dead?
  }

  /** Under the interface mutex, after its tests were passed. */
  predicate AfterCheck(pc: Pc) {
    HoldsI(pc) && !pc.Checking?
  }

  predicate EntryGone(pc: Pc) {
    (pc.WantWToInsert? || pc.HasWToInsert? || pc.BareInsert?) && pc.who != ByDestructor
  }

  /** Since it last acquired the interface mutex the request found its connection
      not scheduled for closure, and nobody else can have scheduled it. */
  predicate FoundUnsettled(pc: Pc) {
    pc.WantW? || pc.HasBoth? || pc.Writing? || pc.FailBody? || pc.EndRemove? || EntryGone(pc)
  }

  predicate OwnsSocket(s: State, q: Req) {
    q.key.fd in s.maps.writeMutex && s.maps.writeMutex[q.key.fd] == q.conn
  }

  // ------------------------------------------------------------------
  // Requests

  predicate IdentityOk(s: State, q: Req) {
    && q.conn < |s.conns| && s.conns[q.conn].fd == q.key.fd
    && 1 <= q.generation <= s.generation && q.identifier == IdentifierOf(q.generation)
  }

  predicate LocksOk(s: State, r: nat, q: Req)
    requires q.conn < |s.conns|
  {
    && (s.im == Some(Request(r)) <==> HoldsI(q.pc))
    && (s.conns[q.conn].owner == Some(Request(r)) <==> HoldsW(q.pc))
    && (q.pc.BareInsert? ==> s.conns[q.conn].owner == None || s.conns[q.conn].owner == Some(Interface))
  }

  predicate LiveOk(s: State, r: nat, q: Req) {
    && (Current(s, q) && Live(q) ==>
          && q.key in s.maps.requestMap
          && s.maps.requestMap[q.key].isAssigned && s.maps.requestMap[q.key].holder == r
          && q.removals == 0
          && (!s.maps.requestMap[q.key].closedByInterface ==> OwnsSocket(s, q)))
    && q.removals <= 1
    && (Current(s, q) && !Live(q) && !s.maps.bad ==> q.removals == 1)
  }

  predicate PcOk(s: State, q: Req)
    requires q.conn < |s.conns|
  {
    && (AfterCheck(q.pc) ==>
          Current(s, q) && !s.maps.bad && (q.pc.DestroyRemove? || OwnsSocket(s, q)))
    && (q.pc.Writing? ==> Current(s, q) && OwnsSocket(s, q) && ConnectionOpen(s.ipc, q.key.fd))
    && (FoundUnsettled(q.pc) ==> q.key.fd !in s.settled)
    && (!Live(q) <==> q.completed || q.pc.Dead?)
    && (EntryGone(q.pc) ==> q.completed)
    && (q.completed ==> EntryGone(q.pc) || q.pc.Idle? || q.pc.Dead?)
    && (q.pc.WantW? || q.pc.HasBoth? ==> q.pc.data != [])
    && ((q.pc.WantI? || q.pc.Checking?) && (q.pc.op.Write? || q.pc.op.End?) ==> q.pc.op.data != [])
    && (q.pc.Writing? ==> q.pc.done < |q.pc.data| && StreamOpen(s.conns[q.conn], q.pc.data, q.pc.done))
  }

  /** A write in progress: what the client received of this batch is exactly the
      part already transferred, or the socket was broken before it began. */
  predicate StreamOpen(k: Conn, data: seq<byte>, done: nat)
    requires done <= |data|
  {
    && !k.corrupt
    && (k.epipe ==> done == 0)
    && (!k.epipe ==> k.partial == data[..done])
  }

  predicate ReqOk(s: State, r: nat)
    requires r < |s.reqs|
  {
    var q := s.reqs[r];
    IdentityOk(s, q) && LocksOk(s, r, q) && LiveOk(s, r, q) && PcOk(s, q)
  }

  /** The identity test of a request is meaningful: no other interface that was
      created a multiple of 2^64 - 1 interfaces later exists. */
  predicate Fresh(s: State, q: Req) {
    s.identifier == 0 || q.generation == s.generation || (s.generation - q.generation) % MAX_IDENTIFIER != 0
  }

  // ------------------------------------------------------------------
  // Connections

  predicate OwnerOk(s: State, c: nat)
    requires c < |s.conns|
  {
    var k := s.conns[c];
    && (k.owner.Some? && k.owner.value.Request? ==>
          k.owner.value.index < |s.reqs| && s.reqs[k.owner.value.index].conn == c)
    && (k.owner == Some(Interface) <==> InterfaceHoldsW(s.ipc, c))
    && (k.owner != None ==> k.mutexAlive)
    && (k.mutexAlive ==> k.fd in s.maps.writeMutex && s.maps.writeMutex[k.fd] == c)
  }

  predicate SocketOk(s: State, c: nat)
    requires c < |s.conns|
  {
    var k := s.conns[c];
    && k.closes <= 1
    && (k.closes == 0 <==> Denotes(s.os, k.fd, c))
    && (k.closes == 0 ==>
          || (k.fd in s.maps.writeMutex && s.maps.writeMutex[k.fd] == c && ConnectionOpen(s.ipc, k.fd))
          || (s.ipc.Accepted? && s.ipc.conn == c))
  }

  predicate Truncated(k: Conn) {
    k.partial != []
  }

  /** The thread that owns the write mutex is inside its write loop. */
  predicate BeingWritten(s: State, c: nat)
    requires c < |s.conns|
  {
    match s.conns[c].owner
    case None => false
    case Some(Interface) => s.ipc.Sending?
    case Some(Request(r)) => r < |s.reqs| && s.reqs[r].pc.Writing?
  }

  ghost predicate StreamOk(s: State, c: nat)
    requires c < |s.conns|
  {
    var k := s.conns[c];
    && k.out == Flatten(k.whole) + k.partial
    && (Truncated(k) ==> |k.partial| < |k.batch| && k.partial == k.batch[..|k.partial|])
    && (Truncated(k) && !k.corrupt && !k.epipe ==> BeingWritten(s, c))
  }

  ghost predicate ConnOk(s: State, c: nat)
    requires c < |s.conns|
  {
    OwnerOk(s, c) && SocketOk(s, c) && StreamOk(s, c)
  }

  // ------------------------------------------------------------------
  // Entries of the request map, descriptors, the interface

  predicate EntryOk(s: State, key: Key)
    requires key in s.maps.requestMap
  {
    var e := s.maps.requestMap[key];
    e.isAssigned ==>
      && e.holder < |s.reqs| && s.reqs[e.holder].key == key
      && s.reqs[e.holder].generation == s.generation
      && s.reqs[e.holder].removals == 0
      && (!s.maps.bad && s.identifier != 0 ==> Live(s.reqs[e.holder]))
  }

  /** The closure set may name removed connections only during the cleanup that
      removes them and after a cleanup that failed. */
  predicate ClosureMayBeStale(s: State, fd: Fd) {
    match s.ipc
    case CleanClosures(todo) => fd !in todo
    case Ready => s.maps.bad
    case ClosingDummies(_) => s.maps.bad
    case WantDestroyI => s.maps.bad
    case ClosingConnections(_) => s.maps.bad
    case Dismantling => s.maps.bad
    case _ => false
  }

  predicate FdOk(s: State, fd: Fd) {
    && (fd in s.maps.writeMutex ==>
          var c := s.maps.writeMutex[fd];
          && c < |s.conns| && s.conns[c].fd == fd && s.conns[c].mutexAlive
          && (ConnectionOpen(s.ipc, fd) ==> Denotes(s.os, fd, c)))
    && (fd in s.maps.dummy && DummyOpen(s.ipc, fd) ==> fd in s.os && s.os[fd] == ListenerCopy)
    && (fd in s.os && s.os[fd].Socket? ==>
          s.os[fd].conn < |s.conns| && s.conns[s.os[fd].conn].fd == fd)
    && (fd in s.os && s.os[fd] == ListenerCopy ==> fd in s.maps.dummy && DummyOpen(s.ipc, fd))
    && (fd in s.maps.closure ==> fd in s.maps.writeMutex || ClosureMayBeStale(s, fd))
    && (fd in s.settled ==> fd in s.maps.closure)
  }

  predicate SendOk(s: State, fd: Fd, c: nat) {
    fd in s.maps.writeMutex && s.maps.writeMutex[fd] == c && c < |s.conns|
  }

  predicate IPcOk(s: State) {
    match s.ipc
    case CleanDummies(todo) => todo <= s.maps.dummy && !s.maps.bad
    case CleanClosures(todo) =>
      && todo <= s.maps.closure && todo <= s.maps.writeMutex.Keys && !s.maps.bad
      && s.maps.closure * s.maps.writeMutex.Keys <= todo
    case BeginAdmitted(fd, id) =>
      && fd in s.maps.recordStatus && s.maps.recordStatus[fd] == Some(id)
      && fd in s.maps.requestCount && s.maps.requestCount[fd] < s.maxRequests
    case SendWantW(fd, c, _) => SendOk(s, fd, c)
    case SendHasW(fd, c, _) => SendOk(s, fd, c)
    case Sending(fd, c, data, done) =>
      SendOk(s, fd, c) && done < |data| && StreamOpen(s.conns[c], data, done)
    case SendFailed(fd, c) => SendOk(s, fd, c)
    case SendWantW2(fd, c) => SendOk(s, fd, c)
    case SendInsert(fd, c) => SendOk(s, fd, c)
    case Accepted(fd, c) =>
      && c < |s.conns| && s.conns[c].fd == fd && Denotes(s.os, fd, c)
      && !s.conns[c].mutexAlive
    case ClosingDummies(todo) => todo <= s.maps.dummy
    case ClosingConnections(todo) => todo <= s.maps.writeMutex.Keys
    case _ => true
  }

  ghost predicate InterfaceOk(s: State) {
    && MapsOk(s.maps, s.maxRequests)
    && (s.im == Some(Interface) <==> InterfaceHoldsI(s.ipc))
    && (s.im.Some? && s.im.value.Request? ==> s.im.value.index < |s.reqs|)
    && (s.identifier == 0 <==> s.ipc.Absent? || s.ipc.Dismantling?)
    && (s.identifier != 0 ==> s.generation > 0 && s.identifier == IdentifierOf(s.generation))
    && (s.ipc.Absent? ==> s.maps == EMPTY_MAPS && s.settled == {})
    && s.faults == {}
    && IPcOk(s)
  }

  ghost predicate Inv(s: State) {
    && InterfaceOk(s)
    && (forall r :: 0 <= r < |s.reqs| ==> ReqOk(s, r))
    && (forall c :: 0 <= c < |s.conns| ==> ConnOk(s, c))
    && (forall key :: key in s.maps.requestMap ==> EntryOk(s, key))
    && (forall fd :: FdOk(s, fd))
  }

  lemma InitInv(s: State)
    requires Init(s)
    ensures Inv(s)
  {
  }

  /** A transfer extends what the client received by the next bytes of the batch. */
  lemma EmitStream(k: Conn, data: seq<byte>, done: nat, n: nat)
    requires k.out == Flatten(k.whole) + k.partial
    requires done + n <= |data| && n > 0 && !k.epipe && done < |data| && StreamOpen(k, data, done)
    ensures var l := Emit(k, data, done, n);
            && l.out == Flatten(l.whole) + l.partial
            && (done + n == |data| ==> l.partial == [])
            && (done + n < |data| ==> l.partial == data[..done + n] && l.batch == data && StreamOpen(l, data, done + n))
  {
    hide Flatten;
    var l := Emit(k, data, done, n);
    if done + n == |data| {
      FlattenMore(k.whole, data);
      assert data == data[..done] + data[done..];
    } else {
      assert data[..done + n] == data[..done] + data[done..done + n];
    }
  }
}
