/** The maps and sets of an FcgiServerInterface that describe connections and
    requests, and the operations which keep them consistent. Every operation
    here runs while the interface mutex is held. */
module InterfaceMaps {
  import opened Common
  import opened Wrappers

  type Fd = nat

  /** FcgiRequestIdentifier: the descriptor of the connection and the request
      id chosen by the client. */
  datatype Key = Key(fd: Fd, id: nat)

  /** The part of RequestData that threads share. `holder` is the index of the
      FcgiRequest object built from the entry; it is meaningful only once the
      entry is assigned. */
  datatype Entry = Entry(isAssigned: bool, closedByInterface: bool,
                         clientAbort: bool, closeConnection: bool, holder: nat)

  /** `writeMutex` maps a descriptor to the connection that owns the mutex and
      corruption flag; `recordStatus` remembers the id of an accepted but
      incomplete begin-request record. */
  datatype Maps = Maps(
    requestMap: map<Key, Entry>,
    requestCount: map<Fd, int>,
    closure: set<Fd>,
    dummy: set<Fd>,
    writeMutex: map<Fd, nat>,
    recordStatus: map<Fd, Option<nat>>,
    bad: bool)

  const EMPTY_MAPS := Maps(map[], map[], {}, {}, map[], map[], false)

  /** The identifiers of the requests present on one connection. */
  function KeysOn(requestMap: map<Key, Entry>, fd: Fd): set<Key> {
    set k | k in requestMap && k.fd == fd
  }

  /** The count kept for each descriptor is the number of its requests, and it
      never exceeds the configured maximum. */
  ghost predicate CountsOk(requestMap: map<Key, Entry>, requestCount: map<Fd, int>, maxRequests: nat) {
    && (forall k :: k in requestMap ==> k.fd in requestCount && k.id > 0)
    && (forall fd :: fd in requestCount ==> requestCount[fd] == |KeysOn(requestMap, fd)| <= maxRequests)
  }

  /** Connections are either active (write mutex and record status) or dummies
      kept for their remaining requests; exactly these have a request count. */
  ghost predicate DescriptorsOk(m: Maps) {
    && m.writeMutex.Keys == m.recordStatus.Keys
    && m.writeMutex.Keys !! m.dummy
    && m.requestCount.Keys == m.writeMutex.Keys + m.dummy
  }

  /** A request is flagged as closed exactly when its descriptor is a dummy, and
      then it is assigned. Only the first direction can be lost in a bad state. */
  ghost predicate FlagsOk(requestMap: map<Key, Entry>, dummy: set<Fd>, bad: bool) {
    && (forall k :: k in requestMap && requestMap[k].closedByInterface ==>
          requestMap[k].isAssigned && (!bad ==> k.fd in dummy))
    && (forall k :: k in requestMap && k.fd in dummy ==> requestMap[k].closedByInterface)
  }

  /** An accepted begin-request record still names an unused request id. */
  ghost predicate PendingOk(requestMap: map<Key, Entry>, recordStatus: map<Fd, Option<nat>>) {
    forall fd :: fd in recordStatus && recordStatus[fd].Some? ==>
      recordStatus[fd].value > 0 && Key(fd, recordStatus[fd].value) !in requestMap
  }

  ghost predicate MapsOk(m: Maps, maxRequests: nat) {
    && CountsOk(m.requestMap, m.requestCount, maxRequests)
    && DescriptorsOk(m)
    && FlagsOk(m.requestMap, m.dummy, m.bad)
    && PendingOk(m.requestMap, m.recordStatus)
  }

  // ------------------------------------------------------------------
  // Operations

  /** RemoveRequestHelper: an error puts the interface into a bad state. */
  function RemoveRequest(m: Maps, key: Key): Maps {
    if key !in m.requestMap || key.fd !in m.requestCount || m.requestCount[key.fd] == 0 then
      m.(bad := true)
    else
      m.(requestCount := m.requestCount[key.fd := m.requestCount[key.fd] - 1],
         requestMap := m.requestMap - {key})
  }

  /** AddRequest: a missing count or a key already present is an error. */
  function AddRequest(m: Maps, key: Key, closeConnection: bool): Maps {
    if key.fd !in m.requestCount || key in m.requestMap then
      m.(bad := true)
    else
      m.(requestCount := m.requestCount[key.fd := m.requestCount[key.fd] + 1],
         requestMap := m.requestMap[key := Entry(false, false, false, closeConnection, 0)])
  }

  /** RequestCleanupDuringConnectionClosure on the request map: requests that
      were handed out are flagged, the others disappear. */
  function CleanedRequests(requestMap: map<Key, Entry>, fd: Fd): map<Key, Entry> {
    map k | k in requestMap && (k.fd == fd ==> requestMap[k].isAssigned) ::
      if k.fd == fd then requestMap[k].(closedByInterface := true) else requestMap[k]
  }

  predicate AssignedOn(requestMap: map<Key, Entry>, fd: Fd) {
    exists k :: k in requestMap && k.fd == fd && requestMap[k].isAssigned
  }

  function CleanupRequests(m: Maps, fd: Fd): Maps
    requires fd in m.requestCount
  {
    var cleaned := CleanedRequests(m.requestMap, fd);
    m.(requestMap := cleaned, requestCount := m.requestCount[fd := |KeysOn(cleaned, fd)|])
  }

  /** RemoveConnection once the write mutex was found free: with assigned
      requests the descriptor becomes a dummy, otherwise it is forgotten. */
  function RemoveConnection(m: Maps, fd: Fd): Maps
    requires fd in m.requestCount
  {
    var c := CleanupRequests(m, fd);
    if AssignedOn(m.requestMap, fd) then
      c.(dummy := c.dummy + {fd}, recordStatus := c.recordStatus - {fd}, writeMutex := c.writeMutex - {fd})
    else
      c.(recordStatus := c.recordStatus - {fd}, writeMutex := c.writeMutex - {fd},
         requestCount := c.requestCount - {fd})
  }

  /** A dummy descriptor without requests leaves the interface. */
  function DropDummy(m: Maps, fd: Fd): Maps {
    m.(dummy := m.dummy - {fd}, requestCount := m.requestCount - {fd})
  }

  /** The update made by AcceptConnection for a new connection. */
  function AddConnection(m: Maps, fd: Fd, conn: nat): Maps {
    m.(recordStatus := m.recordStatus[fd := None], writeMutex := m.writeMutex[fd := conn],
       requestCount := m.requestCount[fd := 0])
  }

  // ------------------------------------------------------------------
  // Each operation keeps the maps consistent

  lemma KeysOnAdd(requestMap: map<Key, Entry>, key: Key, e: Entry, fd: Fd)
    ensures KeysOn(requestMap[key := e], fd) ==
            if key.fd == fd then KeysOn(requestMap, fd) + {key} else KeysOn(requestMap, fd)
  {
  }

  lemma KeysOnRemove(requestMap: map<Key, Entry>, key: Key, fd: Fd)
    ensures KeysOn(requestMap - {key}, fd) == KeysOn(requestMap, fd) - {key}
  {
  }

  /** Removing a present request never fails and keeps every count exact. */
  lemma RemoveRequestOk(m: Maps, key: Key, maxRequests: nat)
    requires MapsOk(m, maxRequests) && key in m.requestMap
    ensures var n := RemoveRequest(m, key);
            && MapsOk(n, maxRequests)
            && n == m.(requestCount := n.requestCount, requestMap := m.requestMap - {key})
            && n.requestCount.Keys == m.requestCount.Keys
  {
    assert key in KeysOn(m.requestMap, key.fd);
    var n := RemoveRequest(m, key);
    forall fd | fd in n.requestCount
      ensures n.requestCount[fd] == |KeysOn(n.requestMap, fd)| <= maxRequests
    {
      KeysOnRemove(m.requestMap, key, fd);
    }
  }

  lemma AddedCounts(requestMap: map<Key, Entry>, requestCount: map<Fd, int>, key: Key, e: Entry, maxRequests: nat)
    requires CountsOk(requestMap, requestCount, maxRequests)
    requires key !in requestMap && key.id > 0
    requires key.fd in requestCount && requestCount[key.fd] < maxRequests
    ensures CountsOk(requestMap[key := e], requestCount[key.fd := requestCount[key.fd] + 1], maxRequests)
  {
    var count := requestCount[key.fd := requestCount[key.fd] + 1];
    forall fd | fd in count
      ensures count[fd] == |KeysOn(requestMap[key := e], fd)| <= maxRequests
    {
      KeysOnAdd(requestMap, key, e, fd);
      assert key !in KeysOn(requestMap, fd);
    }
  }

  /** A begin-request record that was accepted by its header and admitted by the
      limit test adds its request without error. */
  lemma AddRequestOk(m: Maps, key: Key, closeConnection: bool, maxRequests: nat)
    requires MapsOk(m, maxRequests)
    requires key.fd in m.recordStatus && m.recordStatus[key.fd] == Some(key.id)
    requires m.requestCount[key.fd] < maxRequests
    ensures var n := AddRequest(m, key, closeConnection).(recordStatus := m.recordStatus[key.fd := None]);
            && MapsOk(n, maxRequests)
            && n == m.(requestCount := n.requestCount, recordStatus := m.recordStatus[key.fd := None],
                       requestMap := m.requestMap[key := Entry(false, false, false, closeConnection, 0)])
            && n.requestCount.Keys == m.requestCount.Keys
  {
    hide CountsOk, KeysOn;
    var e := Entry(false, false, false, closeConnection, 0);
    AddedCounts(m.requestMap, m.requestCount, key, e, maxRequests);
    assert FlagsOk(m.requestMap[key := e], m.dummy, m.bad);
    assert PendingOk(m.requestMap[key := e], m.recordStatus[key.fd := None]);
  }

  lemma CleanedCounts(requestMap: map<Key, Entry>, requestCount: map<Fd, int>, fd: Fd, maxRequests: nat)
    requires CountsOk(requestMap, requestCount, maxRequests) && fd in requestCount
    ensures var cleaned := CleanedRequests(requestMap, fd);
            && CountsOk(cleaned, requestCount[fd := |KeysOn(cleaned, fd)|], maxRequests)
            && KeysOn(cleaned, fd) <= KeysOn(requestMap, fd)
            && (KeysOn(cleaned, fd) != {} <==> AssignedOn(requestMap, fd))
  {
    var cleaned := CleanedRequests(requestMap, fd);
    var count := requestCount[fd := |KeysOn(cleaned, fd)|];
    assert KeysOn(cleaned, fd) <= KeysOn(requestMap, fd);
    Subset(KeysOn(cleaned, fd), KeysOn(requestMap, fd));
    forall f | f in count
      ensures count[f] == |KeysOn(cleaned, f)| <= maxRequests
    {
      assert f != fd ==> KeysOn(cleaned, f) == KeysOn(requestMap, f);
    }
    if AssignedOn(requestMap, fd) {
      var k :| k in requestMap && k.fd == fd && requestMap[k].isAssigned;
      assert k in KeysOn(cleaned, fd);
    }
  }

  lemma CleanedFlags(requestMap: map<Key, Entry>, dummy: set<Fd>, bad: bool, fd: Fd)
    requires FlagsOk(requestMap, dummy, bad) && fd !in dummy
    ensures var cleaned := CleanedRequests(requestMap, fd);
            && FlagsOk(cleaned, dummy, true)
            && FlagsOk(cleaned, dummy + {fd}, bad)
            && (KeysOn(cleaned, fd) == {} ==> FlagsOk(cleaned, dummy, bad))
  {
    var cleaned := CleanedRequests(requestMap, fd);
    forall k | k in cleaned && k.fd == fd ensures KeysOn(cleaned, fd) != {} {
      assert k in KeysOn(cleaned, fd);
    }
  }

  lemma CleanedPending(requestMap: map<Key, Entry>, recordStatus: map<Fd, Option<nat>>, fd: Fd)
    requires PendingOk(requestMap, recordStatus)
    ensures PendingOk(CleanedRequests(requestMap, fd), recordStatus)
    ensures PendingOk(CleanedRequests(requestMap, fd), recordStatus - {fd})
  {
  }

  /** Cleanup followed by a failure, which leaves the interface in a bad state. */
  lemma CleanupRequestsOk(m: Maps, fd: Fd, maxRequests: nat)
    requires MapsOk(m, maxRequests) && fd in m.writeMutex
    ensures MapsOk(CleanupRequests(m, fd).(bad := true), maxRequests)
  {
    CleanedCounts(m.requestMap, m.requestCount, fd, maxRequests);
    CleanedFlags(m.requestMap, m.dummy, m.bad, fd);
    CleanedPending(m.requestMap, m.recordStatus, fd);
  }

  lemma ForgottenCounts(requestMap: map<Key, Entry>, requestCount: map<Fd, int>, fd: Fd, maxRequests: nat)
    requires CountsOk(requestMap, requestCount, maxRequests) && KeysOn(requestMap, fd) == {}
    ensures CountsOk(requestMap, requestCount - {fd}, maxRequests)
  {
    forall k | k in requestMap ensures k.fd in requestCount - {fd} {
      assert k in KeysOn(requestMap, k.fd);
    }
  }

  /** Removing a connection moves its descriptor to the dummies exactly when
      requests of the connection are still held by the application. */
  lemma RemoveConnectionOk(m: Maps, fd: Fd, maxRequests: nat)
    requires MapsOk(m, maxRequests) && fd in m.writeMutex
    ensures var n := RemoveConnection(m, fd);
            && MapsOk(n, maxRequests)
            && n.bad == m.bad && n.closure == m.closure
            && n.writeMutex == m.writeMutex - {fd}
            && n.dummy == (if AssignedOn(m.requestMap, fd) then m.dummy + {fd} else m.dummy)
            && n.requestMap == CleanedRequests(m.requestMap, fd)
  {
    hide CountsOk, FlagsOk, PendingOk, CleanedRequests;
    CleanedCounts(m.requestMap, m.requestCount, fd, maxRequests);
    CleanedFlags(m.requestMap, m.dummy, m.bad, fd);
    CleanedPending(m.requestMap, m.recordStatus, fd);
    var c := CleanupRequests(m, fd);
    if !AssignedOn(m.requestMap, fd) {
      ForgottenCounts(c.requestMap, c.requestCount, fd, maxRequests);
    }
  }

  lemma DropDummyOk(m: Maps, fd: Fd, maxRequests: nat)
    requires MapsOk(m, maxRequests) && fd in m.dummy && KeysOn(m.requestMap, fd) == {}
    ensures MapsOk(DropDummy(m, fd), maxRequests)
  {
    ForgottenCounts(m.requestMap, m.requestCount, fd, maxRequests);
    forall k | k in m.requestMap ensures k.fd != fd {
      assert k in KeysOn(m.requestMap, k.fd);
    }
  }

  lemma AddConnectionOk(m: Maps, fd: Fd, conn: nat, maxRequests: nat)
    requires MapsOk(m, maxRequests) && fd !in m.requestCount
    ensures MapsOk(AddConnection(m, fd, conn), maxRequests)
  {
    assert KeysOn(m.requestMap, fd) == {} by {
      forall k | k in m.requestMap ensures k.fd != fd {}
    }
  }

  /** Neither the closure set nor a transition to the bad state matters. */
  lemma ClosureAndBadOk(m: Maps, closure: set<Fd>, bad: bool, maxRequests: nat)
    requires MapsOk(m, maxRequests) && (m.bad ==> bad)
    ensures MapsOk(m.(closure := closure, bad := bad), maxRequests)
  {
  }
}
