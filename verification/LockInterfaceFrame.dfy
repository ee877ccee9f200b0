/** A step of the interface thread disturbs at most one connection and one
    descriptor number; everything else keeps its part of the invariant. */
module LockInterfaceFrame {
  import opened InterfaceMaps
  import opened Wrappers
  import opened LockProtocol
  import opened LockInvariant

  predicate NoRequestOwner(k: Conn) {
    k.owner == None || k.owner == Some(Interface)
  }

  predicate ConnStep(k: Conn, l: Conn) {
    && l.fd == k.fd
    && (l.owner == k.owner || (NoRequestOwner(k) && NoRequestOwner(l)))
    && (k.owner == Some(Interface)
        || (l.corrupt == k.corrupt && l.epipe == k.epipe && l.partial == k.partial))
  }

  /** Descriptor number fd keeps its meaning. */
  predicate FdSame(s: State, t: State, fd: Fd) {
    && (fd in t.os <==> fd in s.os) && (fd in s.os ==> t.os[fd] == s.os[fd])
    && (fd in t.maps.writeMutex <==> fd in s.maps.writeMutex)
    && (fd in s.maps.writeMutex ==> t.maps.writeMutex[fd] == s.maps.writeMutex[fd])
    && (fd in t.maps.dummy <==> fd in s.maps.dummy)
    && (fd in t.maps.closure ==> fd in s.maps.closure)
    && (fd in t.settled ==> fd in s.settled && fd in t.maps.closure)
    && (fd in s.maps.writeMutex ==> ConnectionOpen(t.ipc, fd) == ConnectionOpen(s.ipc, fd))
    && (fd in s.maps.dummy ==> DummyOpen(t.ipc, fd) == DummyOpen(s.ipc, fd))
    && (ClosureMayBeStale(s, fd) ==> ClosureMayBeStale(t, fd) || fd !in t.maps.closure)
  }

  /** The number in focus may change, but only with the connection in focus. */
  predicate FocusFd(s: State, t: State, c: nat, fd: Fd) {
    && (fd in t.os && t.os[fd].Socket? ==> t.os[fd].conn == c || (fd in s.os && s.os[fd] == t.os[fd]))
    && (fd in s.os && s.os[fd].Socket? ==> s.os[fd].conn == c || (fd in t.os && s.os[fd] == t.os[fd]))
    && (fd in s.maps.writeMutex && s.maps.writeMutex[fd] != c ==>
          && fd in t.maps.writeMutex && t.maps.writeMutex[fd] == s.maps.writeMutex[fd]
          && ConnectionOpen(t.ipc, fd) == ConnectionOpen(s.ipc, fd))
    && (fd in t.maps.writeMutex && t.maps.writeMutex[fd] != c ==>
          fd in s.maps.writeMutex && t.maps.writeMutex[fd] == s.maps.writeMutex[fd])
  }

  /** Requests of the number in focus keep their entries and, unless no request
      owns the write mutex, their socket. */
  ghost predicate FocusRequests(s: State, t: State, fd: Fd) {
    && (forall k :: k in s.maps.requestMap && k.fd == fd && s.maps.requestMap[k].isAssigned ==>
          && k in t.maps.requestMap && t.maps.requestMap[k].isAssigned
          && t.maps.requestMap[k].holder == s.maps.requestMap[k].holder
          && (s.maps.requestMap[k].closedByInterface ==> t.maps.requestMap[k].closedByInterface))
    && (fd in s.maps.writeMutex ==>
          var c := s.maps.writeMutex[fd];
          || (&& fd in t.maps.writeMutex && t.maps.writeMutex[fd] == c
              && (ConnectionOpen(s.ipc, fd) ==> ConnectionOpen(t.ipc, fd))
              && (fd in t.settled ==> fd in s.settled))
          || (&& c < |s.conns| && NoRequestOwner(s.conns[c])
              && ((fd in t.maps.writeMutex && t.maps.writeMutex[fd] == c)
                  || (forall k :: k in t.maps.requestMap && k.fd == fd ==> t.maps.requestMap[k].closedByInterface))))
  }

  predicate Steady(s: State, t: State) {
    && t.reqs == s.reqs && t.generation == s.generation && t.identifier == s.identifier
    && t.maxRequests == s.maxRequests && t.terminated == s.terminated
    && (t.im == s.im || (s.im == None && t.im == Some(Interface)) || (s.im == Some(Interface) && t.im == None))
    && (t.maps != s.maps || t.settled != s.settled ==> s.im == None || s.im == Some(Interface))
    && (s.maps.bad ==> t.maps.bad)
  }

  ghost predicate ConnsFrame(s: State, t: State, c0: nat) {
    && |s.conns| <= |t.conns| <= |s.conns| + 1
    && (|t.conns| > |s.conns| ==> c0 == |s.conns|)
    && (forall c :: 0 <= c < |s.conns| && c != c0 ==> t.conns[c] == s.conns[c])
    && (c0 < |s.conns| ==> ConnStep(s.conns[c0], t.conns[c0]))
    && (forall c :: 0 <= c < |s.conns| && c != c0 ==> IPcFrame(s.ipc, t.ipc, c))
  }

  /** The interface's dealings with connection c do not change. */
  predicate IPcFrame(p: IPc, q: IPc, c: nat) {
    && (InterfaceHoldsW(p, c) ==> q == p)
    && (InterfaceHoldsW(q, c) ==> q == p)
    && (p.Accepted? && p.conn == c ==> q.Accepted? && q.conn == c)
  }

  ghost predicate IFrame(s: State, t: State, c0: nat, f0: Option<Fd>) {
    && Steady(s, t)
    && ConnsFrame(s, t, c0)
    && (forall fd: Fd :: f0 != Some(fd) ==> FdSame(s, t, fd))
    && (forall k: Key :: f0 != Some(k.fd) ==> (k in t.maps.requestMap <==> k in s.maps.requestMap))
    && (forall k: Key :: f0 != Some(k.fd) && k in s.maps.requestMap ==>
          t.maps.requestMap[k] == s.maps.requestMap[k])
    && (f0.Some? ==> FocusFd(s, t, c0, f0.value) && FocusRequests(s, t, f0.value))
  }

  lemma ReqKept(s: State, t: State, c0: nat, f0: Option<Fd>, r: nat)
    requires IFrame(s, t, c0, f0) && r < |s.reqs| && ReqOk(s, r)
    requires ConnOk(s, s.reqs[r].conn)
    ensures ReqOk(t, r)
  {
    var q := s.reqs[r];
    var fd := q.key.fd;
    assert f0 != Some(fd) ==> FdSame(s, t, fd);
    assert IdentityOk(t, q);
    assert LocksOk(t, r, q);
    assert LiveOk(t, r, q);
    assert PcOk(t, q);
  }

  lemma ConnKept(s: State, t: State, c0: nat, f0: Option<Fd>, c: nat)
    requires IFrame(s, t, c0, f0) && c < |s.conns| && c != c0 && ConnOk(s, c)
    ensures ConnOk(t, c)
  {
    var fd := s.conns[c].fd;
    assert f0 != Some(fd) ==> FdSame(s, t, fd);
    assert IPcFrame(s.ipc, t.ipc, c);
  }

  lemma FdKept(s: State, t: State, c0: nat, f0: Option<Fd>, fd: Fd)
    requires IFrame(s, t, c0, f0) && f0 != Some(fd) && FdOk(s, fd)
    requires c0 < |s.conns| ==> (t.conns[c0].mutexAlive || !s.conns[c0].mutexAlive || f0 == Some(s.conns[c0].fd))
    ensures FdOk(t, fd)
  {
    assert FdSame(s, t, fd);
  }

  lemma EntryKept(s: State, t: State, c0: nat, f0: Option<Fd>, key: Key)
    requires IFrame(s, t, c0, f0) && f0 != Some(key.fd)
    requires key in t.maps.requestMap
    requires key in s.maps.requestMap ==> EntryOk(s, key)
    ensures EntryOk(t, key)
  {
  }

  /** A step of the interface thread keeps the invariant when it respects the
      frame and leaves what is in focus in order. */
  lemma InterfaceStepInv(s: State, t: State, c0: nat, f0: Option<Fd>)
    requires Inv(s) && IFrame(s, t, c0, f0) && InterfaceOk(t)
    requires c0 < |t.conns| ==> ConnOk(t, c0)
    requires c0 < |s.conns| ==> (t.conns[c0].mutexAlive || !s.conns[c0].mutexAlive || f0 == Some(s.conns[c0].fd))
    requires f0.Some? ==> FdOk(t, f0.value)
    requires f0.Some? ==> forall k :: k in t.maps.requestMap && k.fd == f0.value ==> EntryOk(t, k)
    ensures Inv(t)
  {
    forall r | 0 <= r < |t.reqs| ensures ReqOk(t, r) {
      assert ReqOk(s, r);
      assert ConnOk(s, s.reqs[r].conn);
      ReqKept(s, t, c0, f0, r);
    }
    forall c | 0 <= c < |t.conns| ensures ConnOk(t, c) {
      if c != c0 { ConnKept(s, t, c0, f0, c); }
    }
    forall fd: Fd ensures FdOk(t, fd) {
      if f0 != Some(fd) { FdKept(s, t, c0, f0, fd); }
    }
    forall key | key in t.maps.requestMap ensures EntryOk(t, key) {
      if f0 != Some(key.fd) { EntryKept(s, t, c0, f0, key); }
    }
  }
}
