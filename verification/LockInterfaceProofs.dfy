/** Steps of the interface thread keep the invariant. */
module LockInterfaceProofs {
  import opened Bytes
  import opened InterfaceMaps
  import opened Wrappers
  import opened LockProtocol
  import opened LockInvariant
  import opened LockInterfaceFrame

  // ------------------------------------------------------------------
  // Moving on without touching anything shared

  lemma NoFocus(s: State, t: State)
    requires Inv(s) && Steady(s, t)
    requires t == s.(ipc := t.ipc, im := t.im, maps := t.maps, settled := t.settled)
    requires t.maps == s.maps.(closure := t.maps.closure, recordStatus := t.maps.recordStatus, bad := t.maps.bad)
    requires t.maps.closure <= s.maps.closure && t.settled <= s.settled && t.settled <= t.maps.closure
    requires forall c :: !InterfaceHoldsW(s.ipc, c) && !InterfaceHoldsW(t.ipc, c)
    requires forall fd :: fd in s.maps.writeMutex ==> ConnectionOpen(t.ipc, fd) == ConnectionOpen(s.ipc, fd)
    requires forall fd :: fd in s.maps.dummy ==> DummyOpen(t.ipc, fd) == DummyOpen(s.ipc, fd)
    requires forall fd :: ClosureMayBeStale(s, fd) ==> ClosureMayBeStale(t, fd) || fd !in t.maps.closure
    requires !s.ipc.Accepted? && !t.ipc.Accepted?
    requires InterfaceOk(t)
    ensures Inv(t)
  {
    hide MapsOk;
    InterfaceStepInv(s, t, |s.conns|, None);
  }

  lemma BeginCleanupInv(s: State)
    requires Inv(s) && CleanupStepEnabled(s, IBeginCleanup)
    ensures Inv(BeginCleanup(s))
  {
    SettledInClosure(s);
    NoFocus(s, BeginCleanup(s));
  }

  lemma DummiesCleanedInv(s: State)
    requires Inv(s) && CleanupStepEnabled(s, IDummiesCleaned)
    ensures Inv(DummiesCleaned(s))
  {
    forall fd | fd in s.maps.closure ensures fd in s.maps.writeMutex { assert FdOk(s, fd); }
    SettledInClosure(s);
    NoFocus(s, DummiesCleaned(s));
  }

  lemma AbandonCleanupInv(s: State)
    requires Inv(s) && CleanupStepEnabled(s, IAbandonCleanup)
    ensures Inv(AbandonCleanup(s))
  {
    ClosureAndBadOk(s.maps, s.maps.closure, true, s.maxRequests);
    SettledInClosure(s);
    NoFocus(s, AbandonCleanup(s));
  }

  lemma SettledInClosure(s: State)
    requires Inv(s)
    ensures s.settled <= s.maps.closure
  {
    forall fd | fd in s.settled ensures fd in s.maps.closure { assert FdOk(s, fd); }
  }

  lemma ClosuresCleanedInv(s: State)
    requires Inv(s) && CleanupStepEnabled(s, IClosuresCleaned)
    ensures Inv(ClosuresCleaned(s))
  {
    ClosureAndBadOk(s.maps, {}, s.maps.bad, s.maxRequests);
    NoFocus(s, ClosuresCleaned(s));
  }

  lemma FinishReadingInv(s: State)
    requires Inv(s) && ReadingStepEnabled(s, IFinishReading)
    ensures Inv(FinishReading(s))
  {
    SettledInClosure(s);
    NoFocus(s, FinishReading(s));
  }

  lemma BeginDestroyInv(s: State)
    requires Inv(s) && CleanupStepEnabled(s, IBeginDestroy)
    ensures Inv(BeginDestroy(s))
  {
    SettledInClosure(s);
    NoFocus(s, BeginDestroy(s));
  }

  lemma DummiesClosedInv(s: State)
    requires Inv(s) && CleanupStepEnabled(s, IDummiesClosed)
    ensures Inv(DummiesClosed(s))
  {
    SettledInClosure(s);
    NoFocus(s, DummiesClosed(s));
  }

  lemma DestroyLockIInv(s: State)
    requires Inv(s) && CleanupStepEnabled(s, IDestroyLockI)
    ensures Inv(DestroyLockI(s))
  {
    SettledInClosure(s);
    NoFocus(s, DestroyLockI(s));
  }

  lemma HeaderInv(s: State, fd: Fd, id: nat, begin: bool)
    requires Inv(s) && CanHeader(s, fd, id)
    ensures Inv(Header(s, fd, id, begin))
  {
    SettledInClosure(s);
    NoFocus(s, Header(s, fd, id, begin));
  }

  lemma AdmitInv(s: State, fd: Fd, overload: bool, reply: seq<byte>)
    requires Inv(s) && CanAdmit(s, fd)
    ensures Inv(Admit(s, fd, overload, reply))
  {
    SettledInClosure(s);
    assert FdOk(s, fd);
    NoFocus(s, Admit(s, fd, overload, reply));
  }

  lemma ReplyInv(s: State, fd: Fd, data: seq<byte>)
    requires Inv(s) && CanReply(s, fd)
    ensures Inv(Reply(s, fd, data))
  {
    SettledInClosure(s);
    assert FdOk(s, fd);
    NoFocus(s, Reply(s, fd, data));
  }

  lemma SendLockIInv(s: State)
    requires Inv(s) && ReadingStepEnabled(s, ISendLockI)
    ensures Inv(SendLockI(s))
  {
    SettledInClosure(s);
    NoFocus(s, SendLockI(s));
  }

  // ------------------------------------------------------------------
  // Sending a record

  lemma OneConn(s: State, t: State, c: nat)
    requires Inv(s) && Steady(s, t) && c < |s.conns| && |t.conns| == |s.conns|
    requires t == s.(ipc := t.ipc, conns := s.conns[c := t.conns[c]])
    requires ConnStep(s.conns[c], t.conns[c]) && t.conns[c].mutexAlive == s.conns[c].mutexAlive
    requires forall d :: d != c ==> IPcFrame(s.ipc, t.ipc, d)
    requires forall fd :: ConnectionOpen(t.ipc, fd) && ConnectionOpen(s.ipc, fd)
    requires forall fd :: DummyOpen(t.ipc, fd) && DummyOpen(s.ipc, fd)
    requires forall fd :: !ClosureMayBeStale(s, fd)
    requires InterfaceOk(t) && ConnOk(t, c)
    ensures Inv(t)
  {
    SettledInClosure(s);
    InterfaceStepInv(s, t, c, None);
  }

  lemma SendLockWInv(s: State)
    requires Inv(s) && CanSendLockW(s)
    ensures Inv(SendLockW(s))
  {
    var c := s.ipc.conn;
    assert FdOk(s, s.ipc.fd) && ConnOk(s, c);
    var t := SendLockW(s);
    assert ConnOk(t, c);
    OneConn(s, t, c);
  }

  lemma SendCheckFlagInv(s: State)
    requires Inv(s) && ReadingStepEnabled(s, ISendCheckFlag)
    ensures Inv(SendCheckFlag(s))
  {
    hide MapsOk, StreamOk, LiveOk;
    var c := s.ipc.conn;
    var t := SendCheckFlag(s);
    SendCheckFlagLocal(s);
    OneConn(s, t, c);
  }

  lemma SendCheckFlagConn(s: State)
    requires IPcOk(s) && ReadingStepEnabled(s, ISendCheckFlag) && ConnOk(s, s.ipc.conn)
    ensures var t := SendCheckFlag(s);
            ConnOk(t, s.ipc.conn) && (t.ipc.Sending? ==> StreamOpen(t.conns[s.ipc.conn], t.ipc.data, 0))
  {
    assert !BeingWritten(s, s.ipc.conn);
    assert s.ipc.data[..0] == [];
  }

  lemma SendCheckFlagLocal(s: State)
    requires InterfaceOk(s) && ReadingStepEnabled(s, ISendCheckFlag) && ConnOk(s, s.ipc.conn)
    ensures var t := SendCheckFlag(s); ConnOk(t, s.ipc.conn) && InterfaceOk(t)
  {
    SendCheckFlagConn(s);
    hide MapsOk, ConnOk, StreamOpen;
    assert InterfaceOk(SendCheckFlag(s));
  }

  lemma SendBytesInv(s: State, n: nat)
    requires Inv(s) && CanSendBytes(s, n)
    ensures Inv(SendBytes(s, n))
  {
    var p := s.ipc;
    assert FdOk(s, p.fd) && ConnOk(s, p.conn);
    EmitStream(s.conns[p.conn], p.data, p.done, n);
    var t := SendBytes(s, n);
    assert OwnerOk(t, p.conn) && SocketOk(t, p.conn) && StreamOk(t, p.conn);
    OneConn(s, t, p.conn);
  }

  lemma SendFailInv(s: State, e: WriteError)
    requires Inv(s) && CanSendFail(s, e)
    ensures Inv(SendFail(s, e))
  {
    var p := s.ipc;
    assert FdOk(s, p.fd) && ConnOk(s, p.conn);
    var t := SendFail(s, e);
    assert OwnerOk(t, p.conn) && SocketOk(t, p.conn) && StreamOk(t, p.conn);
    OneConn(s, t, p.conn);
  }

  lemma SendLockW2Inv(s: State)
    requires Inv(s) && CanSendLockW2(s)
    ensures Inv(SendLockW2(s))
  {
    var p := s.ipc;
    assert FdOk(s, p.fd) && ConnOk(s, p.conn);
    var t := SendLockW2(s);
    assert ConnOk(t, p.conn);
    OneConn(s, t, p.conn);
  }

  // ------------------------------------------------------------------
  // Steps about one descriptor number

  lemma OneFd(s: State, t: State, c: nat, fd: Fd)
    requires Inv(s) && IFrame(s, t, c, Some(fd)) && InterfaceOk(t)
    requires t.maps.requestMap == s.maps.requestMap
    requires c < |t.conns| ==> ConnOk(t, c)
    requires c < |s.conns| ==> (t.conns[c].mutexAlive || !s.conns[c].mutexAlive || fd == s.conns[c].fd)
    requires FdOk(t, fd)
    ensures Inv(t)
  {
    forall k | k in t.maps.requestMap ensures EntryOk(t, k) { assert EntryOk(s, k); }
    InterfaceStepInv(s, t, c, Some(fd));
  }

  lemma SendInsertedLocal(s: State)
    requires InterfaceOk(s) && ReadingStepEnabled(s, ISendInserted)
    requires FdOk(s, s.ipc.fd) && ConnOk(s, s.ipc.conn)
    ensures var t := SendInserted(s);
            ConnOk(t, s.ipc.conn) && FdOk(t, s.ipc.fd) && InterfaceOk(t)
  {
    hide CountsOk, FlagsOk, PendingOk;
    ClosureAndBadOk(s.maps, s.maps.closure + {s.ipc.fd}, s.maps.bad, s.maxRequests);
  }

  lemma SendInsertedFrame(s: State)
    requires InterfaceOk(s) && ReadingStepEnabled(s, ISendInserted)
    requires FdOk(s, s.ipc.fd) && ConnOk(s, s.ipc.conn) && s.settled <= s.maps.closure
    ensures IFrame(s, SendInserted(s), s.ipc.conn, Some(s.ipc.fd))
  {
    hide CountsOk, FlagsOk, PendingOk, StreamOk;
  }

  /** The insertion happens while the interface itself owns the write mutex. */
  lemma SendInsertedInv(s: State)
    requires Inv(s) && ReadingStepEnabled(s, ISendInserted)
    ensures Inv(SendInserted(s))
  {
    assert FdOk(s, s.ipc.fd) && ConnOk(s, s.ipc.conn);
    SendInsertedLocal(s);
    SettledInClosure(s);
    SendInsertedFrame(s);
    OneFd(s, SendInserted(s), s.ipc.conn, s.ipc.fd);
  }

  lemma AcceptCallLocal(s: State, fd: Fd)
    requires InterfaceOk(s) && s.ipc.Reading? && fd !in s.os && FdOk(s, fd)
    ensures var t := AcceptCall(s, fd);
            ConnOk(t, |s.conns|) && FdOk(t, fd) && InterfaceOk(t)
  {
  }

  lemma AcceptCallInv(s: State, fd: Fd)
    requires Inv(s) && s.ipc.Reading? && fd !in s.os
    ensures Inv(AcceptCall(s, fd))
  {
    hide MapsOk, StreamOk, ReqOk, EntryOk;
    assert FdOk(s, fd);
    AcceptCallLocal(s, fd);
    SettledInClosure(s);
    OneFd(s, AcceptCall(s, fd), |s.conns|, fd);
  }

  lemma AcceptRejectLocal(s: State)
    requires InterfaceOk(s) && s.ipc.Accepted? && FdOk(s, s.ipc.fd) && ConnOk(s, s.ipc.conn)
    ensures var t := AcceptReject(s);
            ConnOk(t, s.ipc.conn) && FdOk(t, s.ipc.fd) && InterfaceOk(t)
  {
  }

  lemma AcceptRejectFrame(s: State)
    requires InterfaceOk(s) && s.ipc.Accepted?
    requires FdOk(s, s.ipc.fd) && ConnOk(s, s.ipc.conn) && s.settled <= s.maps.closure
    ensures IFrame(s, AcceptReject(s), s.ipc.conn, Some(s.ipc.fd))
  {
    hide CountsOk, FlagsOk, PendingOk, StreamOk;
  }

  lemma AcceptRejectInv(s: State)
    requires Inv(s) && s.ipc.Accepted?
    ensures Inv(AcceptReject(s))
  {
    assert FdOk(s, s.ipc.fd) && ConnOk(s, s.ipc.conn);
    AcceptRejectLocal(s);
    SettledInClosure(s);
    AcceptRejectFrame(s);
    OneFd(s, AcceptReject(s), s.ipc.conn, s.ipc.fd);
  }

  lemma AcceptRecordLocal(s: State)
    requires InterfaceOk(s) && ReadingStepEnabled(s, IAcceptRecord)
    requires FdOk(s, s.ipc.fd) && ConnOk(s, s.ipc.conn)
    ensures var t := AcceptRecord(s);
            && ConnOk(t, s.ipc.conn) && FdOk(t, s.ipc.fd) && InterfaceOk(t)
            && s.ipc.fd !in s.maps.requestCount
  {
    assert s.ipc.fd !in s.maps.requestCount;
    AddConnectionOk(s.maps, s.ipc.fd, s.ipc.conn, s.maxRequests);
  }

  lemma AcceptRecordIs(s: State)
    requires InterfaceOk(s) && ReadingStepEnabled(s, IAcceptRecord) && FdOk(s, s.ipc.fd)
    ensures s.ipc.fd !in s.maps.recordStatus && s.ipc.fd !in s.maps.writeMutex && s.ipc.fd !in s.maps.requestCount
    ensures forall k :: k in s.maps.requestMap ==> k.fd != s.ipc.fd
    ensures AcceptRecord(s) ==
            s.(maps := AddConnection(s.maps, s.ipc.fd, s.ipc.conn), ipc := Reading,
               conns := s.conns[s.ipc.conn := s.conns[s.ipc.conn].(mutexAlive := true)])
  {
  }

  lemma AcceptRecordOthers(s: State, t: State)
    requires s.ipc.Accepted? && s.ipc.conn < |s.conns| && s.settled <= s.maps.closure && s.im == None
    requires t == s.(maps := AddConnection(s.maps, s.ipc.fd, s.ipc.conn), ipc := Reading,
                     conns := s.conns[s.ipc.conn := s.conns[s.ipc.conn].(mutexAlive := true)])
    ensures Steady(s, t) && ConnsFrame(s, t, s.ipc.conn)
    ensures forall fd: Fd :: fd != s.ipc.fd ==> FdSame(s, t, fd)
  {
  }

  lemma AcceptRecordFocus(s: State, t: State)
    requires s.ipc.Accepted? && s.ipc.fd !in s.maps.writeMutex && Denotes(s.os, s.ipc.fd, s.ipc.conn)
    requires forall k :: k in s.maps.requestMap ==> k.fd != s.ipc.fd
    requires t == s.(maps := AddConnection(s.maps, s.ipc.fd, s.ipc.conn), ipc := Reading, conns := t.conns)
    ensures FocusFd(s, t, s.ipc.conn, s.ipc.fd) && FocusRequests(s, t, s.ipc.fd)
  {
  }

  lemma AcceptRecordFrame(s: State)
    requires InterfaceOk(s) && ReadingStepEnabled(s, IAcceptRecord)
    requires FdOk(s, s.ipc.fd) && ConnOk(s, s.ipc.conn) && s.settled <= s.maps.closure
    ensures IFrame(s, AcceptRecord(s), s.ipc.conn, Some(s.ipc.fd))
  {
    AcceptRecordIs(s);
    AcceptRecordOthers(s, AcceptRecord(s));
    AcceptRecordFocus(s, AcceptRecord(s));
    hide InterfaceOk, ConnOk, FdOk, FdSame, Steady, ConnsFrame, FocusFd, FocusRequests;
    assert IFrame(s, AcceptRecord(s), s.ipc.conn, Some(s.ipc.fd));
  }

  /** A new connection never meets an old one under the same number. */
  lemma AcceptRecordInv(s: State)
    requires Inv(s) && ReadingStepEnabled(s, IAcceptRecord)
    ensures Inv(AcceptRecord(s))
  {
    assert FdOk(s, s.ipc.fd) && ConnOk(s, s.ipc.conn);
    AcceptRecordLocal(s);
    SettledInClosure(s);
    AcceptRecordFrame(s);
    OneFd(s, AcceptRecord(s), s.ipc.conn, s.ipc.fd);
  }
}
