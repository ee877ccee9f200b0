/** Steps that add and remove requests, connections and interfaces keep the
    invariant. */
module LockCleanupProofs {
  import opened Bytes
  import opened InterfaceMaps
  import opened Wrappers
  import opened LockProtocol
  import opened LockInvariant
  import opened LockInterfaceFrame
  import opened LockInterfaceProofs

  // ------------------------------------------------------------------
  // The cleanup at the start of AcceptRequests

  lemma CleanDummyLocal(s: State, fd: Fd)
    requires InterfaceOk(s) && CleanupStepEnabled(s, ICleanDummy(fd)) && FdOk(s, fd)
    requires KeysOn(s.maps.requestMap, fd) == {}
    ensures var t := CleanDummy(s, fd);
            && FdOk(t, fd) && InterfaceOk(t)
            && (s.settled <= s.maps.closure ==> IFrame(s, t, |s.conns|, Some(fd)))
  {
    forall k | k in s.maps.requestMap ensures k.fd != fd {
      assert k in KeysOn(s.maps.requestMap, k.fd);
    }
    DropDummyOk(s.maps, fd, s.maxRequests);
  }

  lemma CleanDummyInv(s: State, fd: Fd)
    requires Inv(s) && CleanupStepEnabled(s, ICleanDummy(fd))
    ensures Inv(CleanDummy(s, fd))
  {
    assert FdOk(s, fd);
    SettledInClosure(s);
    if KeysOn(s.maps.requestMap, fd) == {} {
      CleanDummyLocal(s, fd);
      OneFd(s, CleanDummy(s, fd), |s.conns|, fd);
    } else {
      NoFocus(s, CleanDummy(s, fd));
    }
  }

  /** The steps of RemoveConnection that go through. */
  predicate Removes(s: State, fd: Fd, dup2Works: bool) {
    && CanRemoveConn(s, fd) && fd in s.maps.writeMutex && s.maps.writeMutex[fd] < |s.conns|
    && s.conns[s.maps.writeMutex[fd]].owner == None
    && (AssignedOn(s.maps.requestMap, fd) ==> dup2Works)
  }

  ghost predicate RemovedMaps(m: Maps, n: Maps, fd: Fd) {
    && n.writeMutex == m.writeMutex - {fd}
    && n.requestMap == CleanedRequests(m.requestMap, fd)
    && n.dummy == (if AssignedOn(m.requestMap, fd) then m.dummy + {fd} else m.dummy)
    && n.bad == m.bad && n.closure == m.closure
  }

  lemma RemoveConnMaps(s: State, fd: Fd, dup2Works: bool)
    requires InterfaceOk(s) && Removes(s, fd, dup2Works)
    ensures var t := RemoveConn(s, fd, dup2Works);
            MapsOk(t.maps, s.maxRequests) && RemovedMaps(s.maps, t.maps, fd)
  {
    RemoveConnectionOk(s.maps, fd, s.maxRequests);
  }

  lemma RemoveConnLocal(s: State, fd: Fd, dup2Works: bool)
    requires InterfaceOk(s) && Removes(s, fd, dup2Works)
    requires FdOk(s, fd) && ConnOk(s, s.maps.writeMutex[fd])
    ensures var t := RemoveConn(s, fd, dup2Works);
            ConnOk(t, s.maps.writeMutex[fd]) && FdOk(t, fd) && InterfaceOk(t)
  {
    hide CountsOk, FlagsOk, PendingOk;
    RemoveConnMaps(s, fd, dup2Works);
  }

  /** Everything a completed RemoveConnection changes. */
  ghost predicate Removal(s: State, t: State, fd: Fd, c: nat) {
    && c < |s.conns| && |t.conns| == |s.conns|
    && s.ipc.CleanClosures? && t.ipc == CleanClosures(s.ipc.todo - {fd})
    && t == s.(ipc := t.ipc, maps := t.maps, conns := t.conns, os := t.os)
    && (forall d :: 0 <= d < |s.conns| && d != c ==> t.conns[d] == s.conns[d])
    && t.conns[c] == s.conns[c].(mutexAlive := false, closes := s.conns[c].closes + 1)
    && (t.os == s.os - {fd} || t.os == s.os[fd := ListenerCopy])
    && RemovedMaps(s.maps, t.maps, fd)
  }

  lemma RemoveConnEffect(s: State, fd: Fd, dup2Works: bool)
    requires Removes(s, fd, dup2Works) && s.faults == {}
    requires fd in s.maps.requestCount && fd in s.maps.recordStatus
    requires RemovedMaps(s.maps, RemoveConn(s, fd, dup2Works).maps, fd)
    requires FdOk(s, fd) && OwnerOk(s, s.maps.writeMutex[fd]) && ConnectionOpen(s.ipc, fd)
    ensures Removal(s, RemoveConn(s, fd, dup2Works), fd, s.maps.writeMutex[fd])
  {
  }

  lemma RemovalFrame(s: State, t: State, fd: Fd, c: nat)
    requires Removal(s, t, fd, c) && s.settled <= s.maps.closure && s.im == Some(Interface)
    requires fd in s.maps.writeMutex && s.maps.writeMutex[fd] == c && Denotes(s.os, fd, c)
    requires s.conns[c].owner == None
    ensures IFrame(s, t, c, Some(fd))
  {
    assert ConnsFrame(s, t, c);
    assert FocusFd(s, t, c, fd);
    assert FocusRequests(s, t, fd);
  }

  /** dup2 failed after the requests were flagged: the interface is bad. */
  lemma FailedDup2Local(s: State, fd: Fd)
    requires InterfaceOk(s) && s.ipc.CleanClosures? && fd in s.maps.writeMutex && FdOk(s, fd)
    ensures var t := AbandonCleanup(s.(maps := CleanupRequests(s.maps, fd)));
            FdOk(t, fd) && InterfaceOk(t)
  {
    CleanupRequestsOk(s.maps, fd, s.maxRequests);
  }

  lemma FailedDup2Frame(s: State, fd: Fd)
    requires s.im == Some(Interface) && s.ipc.CleanClosures? && fd in s.maps.writeMutex
    requires fd in s.maps.requestCount && s.settled <= s.maps.closure
    ensures IFrame(s, AbandonCleanup(s.(maps := CleanupRequests(s.maps, fd))), |s.conns|, Some(fd))
  {
    var t := AbandonCleanup(s.(maps := CleanupRequests(s.maps, fd)));
    assert FocusRequests(s, t, fd);
  }

  lemma RemoveConnInv(s: State, fd: Fd, dup2Works: bool)
    requires Inv(s) && CanRemoveConn(s, fd)
    ensures Inv(RemoveConn(s, fd, dup2Works))
  {
    assert FdOk(s, fd);
    SettledInClosure(s);
    var c := s.maps.writeMutex[fd];
    assert ConnOk(s, c);
    if s.conns[c].owner != None {
      AbandonCleanupInv(s);
    } else {
      var t := RemoveConn(s, fd, dup2Works);
      if Removes(s, fd, dup2Works) {
        RemoveConnLocal(s, fd, dup2Works);
        RemoveConnMaps(s, fd, dup2Works);
        RemoveConnEffect(s, fd, dup2Works);
        RemovalFrame(s, t, fd, c);
        forall k | k in t.maps.requestMap && k.fd == fd ensures EntryOk(t, k) { assert EntryOk(s, k); }
        InterfaceStepInv(s, t, c, Some(fd));
      } else {
        FailedDup2Local(s, fd);
        FailedDup2Frame(s, fd);
        forall k | k in t.maps.requestMap && k.fd == fd ensures EntryOk(t, k) { assert EntryOk(s, k); }
        InterfaceStepInv(s, t, |s.conns|, Some(fd));
      }
    }
  }

  // ------------------------------------------------------------------
  // Requests seen while reading

  /** Updates of the entries and closure membership of one number. */
  ghost predicate NumberUpdate(s: State, t: State, fd: Fd) {
    && (MayUpdate(s) || CanAdd(s))
    && t == s.(ipc := t.ipc, maps := t.maps)
    && t.maps == s.maps.(requestMap := t.maps.requestMap, requestCount := t.maps.requestCount,
                         closure := t.maps.closure, recordStatus := t.maps.recordStatus)
    && (t.ipc.Reading? || t.ipc.SendWantW?)
    && (fd in s.maps.writeMutex || t.maps.closure == s.maps.closure)
    && s.maps.closure <= t.maps.closure <= s.maps.closure + {fd}
    && (forall k: Key :: k.fd != fd ==> (k in t.maps.requestMap <==> k in s.maps.requestMap))
    && (forall k: Key :: k.fd != fd && k in s.maps.requestMap ==> t.maps.requestMap[k] == s.maps.requestMap[k])
    && FocusRequests(s, t, fd)
  }

  lemma NumberFrame(s: State, t: State, fd: Fd)
    requires NumberUpdate(s, t, fd) && s.settled <= s.maps.closure
    ensures IFrame(s, t, |s.conns|, Some(fd))
  {
  }

  lemma OneNumber(s: State, t: State, fd: Fd)
    requires Inv(s) && NumberUpdate(s, t, fd) && InterfaceOk(t)
    requires forall k :: k in t.maps.requestMap && k.fd == fd ==> EntryOk(t, k)
    ensures Inv(t)
  {
    assert FdOk(s, fd);
    SettledInClosure(s);
    NumberFrame(s, t, fd);
    InterfaceStepInv(s, t, |s.conns|, Some(fd));
  }

  lemma ScheduleInv(s: State, fd: Fd)
    requires Inv(s) && CanSchedule(s, fd)
    ensures Inv(Schedule(s, fd))
  {
    var t := Schedule(s, fd);
    ClosureAndBadOk(s.maps, t.maps.closure, s.maps.bad, s.maxRequests);
    forall k | k in t.maps.requestMap && k.fd == fd ensures EntryOk(t, k) { assert EntryOk(s, k); }
    OneNumber(s, t, fd);
  }

  lemma MarkAbortedMaps(m: Maps, key: Key, maxRequests: nat)
    requires MapsOk(m, maxRequests) && key in m.requestMap && m.requestMap[key].isAssigned
    ensures MapsOk(m.(requestMap := m.requestMap[key := m.requestMap[key].(clientAbort := true)]), maxRequests)
  {
    var e := m.requestMap[key].(clientAbort := true);
    SameKeysOn(m.requestMap, key, e);
  }

  lemma SameKeysOn(requestMap: map<Key, Entry>, key: Key, e: Entry)
    requires key in requestMap
    ensures forall fd :: KeysOn(requestMap[key := e], fd) == KeysOn(requestMap, fd)
  {
  }

  lemma MarkAbortedLocal(s: State, key: Key)
    requires InterfaceOk(s) && CanMarkAborted(s, key)
    ensures var t := MarkAborted(s, key);
            NumberUpdate(s, t, key.fd) && InterfaceOk(t)
  {
    hide CountsOk, FlagsOk, PendingOk;
    MarkAbortedMaps(s.maps, key, s.maxRequests);
  }

  lemma MarkAbortedInv(s: State, key: Key)
    requires Inv(s) && CanMarkAborted(s, key)
    ensures Inv(MarkAborted(s, key))
  {
    var t := MarkAborted(s, key);
    MarkAbortedLocal(s, key);
    forall k | k in t.maps.requestMap && k.fd == key.fd ensures EntryOk(t, k) { assert EntryOk(s, k); }
    OneNumber(s, t, key.fd);
  }

  lemma AddLocal(s: State, closeConnection: bool)
    requires InterfaceOk(s) && CanAdd(s)
    ensures Add(s, closeConnection).faults == {}
    ensures InterfaceOk(Add(s, closeConnection))
  {
    AddRequestOk(s.maps, Key(s.ipc.fd, s.ipc.id), closeConnection, s.maxRequests);
  }

  lemma AddNumber(s: State, closeConnection: bool)
    requires CanAdd(s) && Add(s, closeConnection).faults == {} == s.faults
    requires s.ipc.fd in s.maps.requestCount && Key(s.ipc.fd, s.ipc.id) !in s.maps.requestMap
    requires s.ipc.fd in s.maps.writeMutex
    ensures NumberUpdate(s, Add(s, closeConnection), s.ipc.fd)
  {
    var t := Add(s, closeConnection);
    var key := Key(s.ipc.fd, s.ipc.id);
    var e := Entry(false, false, false, closeConnection, 0);
    assert t.maps.requestMap == s.maps.requestMap[key := e];
    assert FocusRequests(s, t, s.ipc.fd);
  }

  lemma AddInv(s: State, closeConnection: bool)
    requires Inv(s) && CanAdd(s)
    ensures Inv(Add(s, closeConnection))
  {
    var t := Add(s, closeConnection);
    AddLocal(s, closeConnection);
    AddNumber(s, closeConnection);
    forall k | k in t.maps.requestMap && k.fd == s.ipc.fd ensures EntryOk(t, k) {
      if k in s.maps.requestMap { assert EntryOk(s, k); }
    }
    OneNumber(s, t, s.ipc.fd);
  }

  /** The maps after a rejection. */
  function RejectedMaps(m: Maps, key: Key): Maps
    requires key in m.requestMap
  {
    var closure := if m.requestMap[key].closeConnection then m.closure + {key.fd} else m.closure;
    var n := RemoveRequest(m.(closure := closure), key);
    n.(recordStatus := n.recordStatus[key.fd := None])
  }

  lemma RejectedMapsOk(m: Maps, key: Key, maxRequests: nat)
    requires MapsOk(m, maxRequests) && key in m.requestMap && key.fd in m.recordStatus
    ensures var n := RejectedMaps(m, key);
            && MapsOk(n, maxRequests) && !RemovalFails(m, key)
            && n == m.(requestMap := m.requestMap - {key}, requestCount := n.requestCount,
                       closure := n.closure, recordStatus := n.recordStatus)
            && m.closure <= n.closure <= m.closure + {key.fd}
  {
    hide CountsOk, FlagsOk;
    var closure := if m.requestMap[key].closeConnection then m.closure + {key.fd} else m.closure;
    ClosureAndBadOk(m, closure, m.bad, maxRequests);
    RemoveRequestOk(m.(closure := closure), key, maxRequests);
    assert key in KeysOn(m.requestMap, key.fd);
  }

  lemma RejectMaps(s: State, key: Key, reply: seq<byte>)
    requires InterfaceOk(s) && CanReject(s, key) && FdOk(s, key.fd)
    ensures var t := Reject(s, key, reply);
            && InterfaceOk(t) && t.ipc.SendWantW?
            && t == s.(ipc := t.ipc, maps := RejectedMaps(s.maps, key))
  {
    RejectedMapsOk(s.maps, key, s.maxRequests);
  }

  lemma RejectNumber(s: State, t: State, key: Key)
    requires CanReject(s, key) && key.fd in s.maps.writeMutex && t.ipc.SendWantW?
    requires t == s.(ipc := t.ipc, maps := t.maps)
    requires t.maps == s.maps.(requestMap := s.maps.requestMap - {key}, requestCount := t.maps.requestCount,
                               closure := t.maps.closure, recordStatus := t.maps.recordStatus)
    requires s.maps.closure <= t.maps.closure <= s.maps.closure + {key.fd}
    ensures NumberUpdate(s, t, key.fd)
  {
  }

  lemma RejectInv(s: State, key: Key, reply: seq<byte>)
    requires Inv(s) && CanReject(s, key)
    ensures Inv(Reject(s, key, reply))
  {
    var t := Reject(s, key, reply);
    assert FdOk(s, key.fd);
    RejectMaps(s, key, reply);
    RejectedMapsOk(s.maps, key, s.maxRequests);
    RejectNumber(s, t, key);
    forall k | k in t.maps.requestMap && k.fd == key.fd ensures EntryOk(t, k) { assert EntryOk(s, k); }
    OneNumber(s, t, key.fd);
  }

  // ------------------------------------------------------------------
  // Handing out a request

  lemma AssignMaps(m: Maps, key: Key, holder: nat, maxRequests: nat)
    requires MapsOk(m, maxRequests) && key in m.requestMap && !m.requestMap[key].isAssigned
    ensures MapsOk(m.(requestMap := m.requestMap[key := m.requestMap[key].(isAssigned := true, holder := holder)]),
                   maxRequests)
  {
    var e := m.requestMap[key].(isAssigned := true, holder := holder);
    SameKeysOn(m.requestMap, key, e);
  }

  lemma AssignOldRequest(s: State, key: Key, r: nat)
    requires CanAssign(s, key) && key.fd in s.maps.writeMutex && r < |s.reqs| && ReqOk(s, r)
    ensures ReqOk(Assign(s, key), r)
  {
    assert Assign(s, key).reqs[r] == s.reqs[r];
  }

  /** An entry that is not assigned is not closed, so its connection exists. */
  lemma AssignNewRequest(s: State, key: Key)
    requires CanAssign(s, key) && InterfaceOk(s) && FdOk(s, key.fd)
    ensures key.fd in s.maps.writeMutex
    ensures forall c :: 0 <= c < |s.conns| && OwnerOk(s, c) && c == s.maps.writeMutex[key.fd] ==>
              ReqOk(Assign(s, key), |s.reqs|)
  {
    assert key.fd in s.maps.requestCount;
    var t := Assign(s, key);
    assert t.reqs[|s.reqs|].key == key;
  }

  lemma AssignConn(s: State, key: Key, c: nat)
    requires CanAssign(s, key) && key.fd in s.maps.writeMutex && c < |s.conns| && ConnOk(s, c)
    ensures ConnOk(Assign(s, key), c)
  {
    var t := Assign(s, key);
    assert forall r :: 0 <= r < |s.reqs| ==> t.reqs[r] == s.reqs[r];
  }

  lemma AssignEntry(s: State, key: Key, k: Key)
    requires CanAssign(s, key) && key.fd in s.maps.writeMutex && k in s.maps.requestMap && EntryOk(s, k)
    ensures EntryOk(Assign(s, key), k)
  {
    var t := Assign(s, key);
    assert forall r :: 0 <= r < |s.reqs| ==> t.reqs[r] == s.reqs[r];
  }

  lemma AssignInv(s: State, key: Key)
    requires Inv(s) && CanAssign(s, key)
    ensures Inv(Assign(s, key))
  {
    var t := Assign(s, key);
    assert FdOk(s, key.fd);
    AssignNewRequest(s, key);
    AssignMaps(s.maps, key, |s.reqs|, s.maxRequests);
    forall r | 0 <= r < |t.reqs| ensures ReqOk(t, r) {
      if r < |s.reqs| {
        assert ReqOk(s, r);
        AssignOldRequest(s, key, r);
      } else {
        assert ConnOk(s, s.maps.writeMutex[key.fd]);
      }
    }
    forall c | 0 <= c < |t.conns| ensures ConnOk(t, c) {
      assert ConnOk(s, c);
      AssignConn(s, key, c);
    }
    forall k | k in t.maps.requestMap ensures EntryOk(t, k) {
      assert EntryOk(s, k);
      AssignEntry(s, key, k);
    }
    forall fd: Fd ensures FdOk(t, fd) { assert FdOk(s, fd); }
  }

  // ------------------------------------------------------------------
  // The life of an interface

  lemma ConstructInv(s: State)
    requires Inv(s) && CleanupStepEnabled(s, IConstruct)
    ensures Inv(Construct(s))
  {
    var t := Construct(s);
    forall r | 0 <= r < |t.reqs| ensures ReqOk(t, r) { assert ReqOk(s, r); }
    forall c | 0 <= c < |t.conns| ensures ConnOk(t, c) { assert ConnOk(s, c); }
    forall fd: Fd ensures FdOk(t, fd) { assert FdOk(s, fd); }
  }

  lemma CloseDummyLocal(s: State, fd: Fd)
    requires InterfaceOk(s) && CleanupStepEnabled(s, ICloseDummy(fd)) && FdOk(s, fd)
    requires s.settled <= s.maps.closure
    ensures var t := CloseDummy(s, fd);
            FdOk(t, fd) && InterfaceOk(t) && IFrame(s, t, |s.conns|, Some(fd))
  {
  }

  lemma CloseDummyInv(s: State, fd: Fd)
    requires Inv(s) && CleanupStepEnabled(s, ICloseDummy(fd))
    ensures Inv(CloseDummy(s, fd))
  {
    assert FdOk(s, fd);
    SettledInClosure(s);
    CloseDummyLocal(s, fd);
    OneFd(s, CloseDummy(s, fd), |s.conns|, fd);
  }

  lemma CloseConnLocal(s: State, fd: Fd)
    requires InterfaceOk(s) && CanCloseConn(s, fd) && FdOk(s, fd) && ConnOk(s, s.maps.writeMutex[fd])
    ensures var t := CloseConn(s, fd);
            ConnOk(t, s.maps.writeMutex[fd]) && FdOk(t, fd) && InterfaceOk(t)
  {
  }

  lemma CloseConnFrame(s: State, fd: Fd)
    requires InterfaceOk(s) && CanCloseConn(s, fd) && FdOk(s, fd) && ConnOk(s, s.maps.writeMutex[fd])
    requires s.settled <= s.maps.closure
    ensures IFrame(s, CloseConn(s, fd), s.maps.writeMutex[fd], Some(fd))
  {
    hide MapsOk, StreamOk;
  }

  /** The destructor closes a socket only when its write mutex was free, and no
      request can acquire it again. */
  lemma CloseConnInv(s: State, fd: Fd)
    requires Inv(s) && CanCloseConn(s, fd)
    ensures Inv(CloseConn(s, fd))
  {
    assert FdOk(s, fd);
    assert ConnOk(s, s.maps.writeMutex[fd]);
    SettledInClosure(s);
    CloseConnLocal(s, fd);
    CloseConnFrame(s, fd);
    OneFd(s, CloseConn(s, fd), s.maps.writeMutex[fd], fd);
  }

  lemma ConnectionsClosedInv(s: State)
    requires Inv(s) && CleanupStepEnabled(s, IConnectionsClosed)
    ensures Inv(ConnectionsClosed(s))
  {
    hide MapsOk, Flatten;
    var t := ConnectionsClosed(s);
    forall r | 0 <= r < |t.reqs| ensures ReqOk(t, r) { assert ReqOk(s, r); }
    forall c | 0 <= c < |t.conns| ensures ConnOk(t, c) { assert ConnOk(s, c); }
    forall k | k in t.maps.requestMap ensures EntryOk(t, k) { assert EntryOk(s, k); }
    forall fd: Fd ensures FdOk(t, fd) { assert FdOk(s, fd); }
  }

  /** When the members are destroyed no write mutex is held. */
  lemma NoOwnerWhenDismantling(s: State, c: nat)
    requires Inv(s) && s.ipc.Dismantling? && c < |s.conns|
    ensures s.conns[c].owner == None
  {
    assert ConnOk(s, c);
    assert s.conns[c].owner.Some? && s.conns[c].owner.value.Request? ==> ReqOk(s, s.conns[c].owner.value.index);
  }

  lemma DismantleInv(s: State)
    requires Inv(s) && s.ipc.Dismantling?
    ensures Inv(Dismantle(s))
  {
    hide ReqOk, ConnOk, FdOk, InterfaceOk;
    var t := Dismantle(s);
    forall c | 0 <= c < |s.conns| ensures s.conns[c].owner == None { NoOwnerWhenDismantling(s, c); }
    DismantleInterface(s);
    forall r | 0 <= r < |t.reqs| ensures ReqOk(t, r) { DismantleReq(s, r); }
    forall c | 0 <= c < |t.conns| ensures ConnOk(t, c) { DismantleConn(s, c); }
    forall fd: Fd ensures FdOk(t, fd) { DismantleFd(s, fd); }
  }

  lemma DismantleInterface(s: State)
    requires InterfaceOk(s) && s.ipc.Dismantling?
    requires forall c :: 0 <= c < |s.conns| ==> s.conns[c].owner == None
    ensures InterfaceOk(Dismantle(s)) && Dismantle(s).maps.requestMap == map[]
  {
  }

  lemma DismantleReq(s: State, r: nat)
    requires InterfaceOk(s) && s.ipc.Dismantling? && r < |s.reqs| && ReqOk(s, r)
    ensures ReqOk(Dismantle(s), r)
  {
  }

  lemma DismantleConn(s: State, c: nat)
    requires InterfaceOk(s) && s.ipc.Dismantling? && c < |s.conns| && ConnOk(s, c) && s.conns[c].owner == None
    ensures ConnOk(Dismantle(s), c)
  {
  }

  lemma DismantleFd(s: State, fd: Fd)
    requires InterfaceOk(s) && s.ipc.Dismantling? && FdOk(s, fd)
    ensures FdOk(Dismantle(s), fd)
  {
  }

  // ------------------------------------------------------------------
  // The rest of the application

  lemma AppStepInv(s: State, t: State, f: Fd)
    requires Inv(s) && t == s.(os := t.os)
    requires (f !in s.os && t.os == s.os[f := Foreign]) || (f in s.os && s.os[f] == Foreign && t.os == s.os - {f})
    ensures Inv(t)
  {
    hide MapsOk;
    assert FdOk(s, f);
    forall r | 0 <= r < |t.reqs| ensures ReqOk(t, r) { assert ReqOk(s, r); }
    forall c | 0 <= c < |t.conns| ensures ConnOk(t, c) { assert ConnOk(s, c); }
    forall k | k in t.maps.requestMap ensures EntryOk(t, k) { assert EntryOk(s, k); }
    forall fd: Fd ensures FdOk(t, fd) { assert FdOk(s, fd); }
  }
}
