/** The FcgiServerInterface methods that update the shared maps, in the form
    that loops over and mutates them. Each is proved against the operation on
    maps that the lock protocol uses. */
module ServerInterface {
  import opened InterfaceMaps
  import opened Wrappers

  /** What became of one call of RemoveConnection. */
  datatype Removal = Removed | MutexHeld | Failed

  /** What became of the cleanup of dummies. */
  datatype DummyCleanup = Cleaned | CountMissing | CloseFailed

  /** The entries of `requestMap` after those in `done` were cleaned up. */
  function CleanedSome(requestMap: map<Key, Entry>, done: set<Key>): map<Key, Entry> {
    map k | k in requestMap && (k in done ==> requestMap[k].isAssigned) ::
      if k in done then requestMap[k].(closedByInterface := true) else requestMap[k]
  }

  /** The entries after the connections in `done` were removed. */
  function CleanedOn(requestMap: map<Key, Entry>, done: set<Fd>): map<Key, Entry> {
    map k | k in requestMap && (k.fd in done ==> requestMap[k].isAssigned) ::
      if k.fd in done then requestMap[k].(closedByInterface := true) else requestMap[k]
  }

  /** One turn of the cleanup loop: the entry is flagged in place, or removed
      together with one unit of the count. */
  lemma CleanedSomeStep(start: map<Key, Entry>, done: set<Key>, key: Key)
    requires key in start && key !in done
    ensures var now := CleanedSome(start, done);
            && key in now && now[key] == start[key]
            && (start[key].isAssigned ==>
                  var flagged := now[key := start[key].(closedByInterface := true)];
                  && flagged == CleanedSome(start, done + {key})
                  && KeysOn(flagged, key.fd) == KeysOn(now, key.fd))
            && (!start[key].isAssigned ==>
                  && now - {key} == CleanedSome(start, done + {key})
                  && |KeysOn(now - {key}, key.fd)| == |KeysOn(now, key.fd)| - 1)
  {
    var now := CleanedSome(start, done);
    KeysOnAdd(now, key, start[key].(closedByInterface := true), key.fd);
    KeysOnRemove(now, key, key.fd);
    assert key in KeysOn(now, key.fd);
  }

  lemma CleanedSomeAll(start: map<Key, Entry>, fd: Fd)
    ensures CleanedSome(start, {}) == start
    ensures CleanedSome(start, KeysOn(start, fd)) == CleanedRequests(start, fd)
    ensures AssignedOn(start, fd) <==> AssignedIn(start, KeysOn(start, fd))
  {
    if AssignedOn(start, fd) {
      var k :| k in start && k.fd == fd && start[k].isAssigned;
      assert k in KeysOn(start, fd);
    }
  }

  predicate AssignedIn(requestMap: map<Key, Entry>, keys: set<Key>) {
    exists k :: k in keys && k in requestMap && requestMap[k].isAssigned
  }

  /** `m` is `start` after the entries in `done`, all on `fd`, were cleaned up. */
  ghost predicate CleanedSoFar(start: Maps, m: Maps, fd: Fd, done: set<Key>, assignedRequests: bool) {
    && m == start.(requestMap := CleanedSome(start.requestMap, done),
                   requestCount := start.requestCount[fd := |KeysOn(m.requestMap, fd)|])
    && (assignedRequests <==> AssignedIn(start.requestMap, done))
  }

  lemma CleanedSoFarStep(start: Maps, m: Maps, fd: Fd, done: set<Key>, assignedRequests: bool, key: Key)
    requires CleanedSoFar(start, m, fd, done, assignedRequests)
    requires key in start.requestMap && key !in done && key.fd == fd
    ensures key in m.requestMap && m.requestMap[key] == start.requestMap[key]
    ensures m.requestMap[key].isAssigned ==>
              var flagged := m.requestMap[key := m.requestMap[key].(closedByInterface := true)];
              CleanedSoFar(start, m.(requestMap := flagged), fd, done + {key}, true)
    ensures !m.requestMap[key].isAssigned ==>
              CleanedSoFar(start, RemoveRequest(m, key), fd, done + {key}, assignedRequests)
  {
    CleanedSomeStep(start.requestMap, done, key);
    assert AssignedIn(start.requestMap, done + {key}) <==>
           AssignedIn(start.requestMap, done) || start.requestMap[key].isAssigned;
    assert key in KeysOn(m.requestMap, fd);
  }

  lemma CleanedNone(start: Maps, fd: Fd)
    requires fd in start.requestCount && start.requestCount[fd] == |KeysOn(start.requestMap, fd)|
    ensures CleanedSoFar(start, start, fd, {}, false)
  {
    CleanedSomeAll(start.requestMap, fd);
  }

  lemma CleanedAll(start: Maps, m: Maps, fd: Fd, assignedRequests: bool)
    requires fd in start.requestCount
    requires CleanedSoFar(start, m, fd, KeysOn(start.requestMap, fd), assignedRequests)
    ensures m == CleanupRequests(start, fd)
    ensures assignedRequests <==> AssignedOn(start.requestMap, fd)
  {
    CleanedSomeAll(start.requestMap, fd);
  }

  lemma ActiveCount(m: Maps, fd: Fd, maxRequests: nat)
    requires MapsOk(m, maxRequests) && fd in m.writeMutex
    ensures fd in m.requestCount && m.requestCount[fd] == |KeysOn(m.requestMap, fd)|
  {
  }

  lemma CleanedOnStep(requestMap: map<Key, Entry>, done: set<Fd>, fd: Fd)
    requires fd !in done
    ensures CleanedOn(requestMap, done + {fd}) == CleanedRequests(CleanedOn(requestMap, done), fd)
    ensures AssignedOn(CleanedOn(requestMap, done), fd) <==> AssignedOn(requestMap, fd)
  {
    if AssignedOn(requestMap, fd) {
      var k :| k in requestMap && k.fd == fd && requestMap[k].isAssigned;
      assert k in CleanedOn(requestMap, done);
    }
  }

  /** One element is taken from those still to do. */
  lemma MoveOne<T>(todo: set<T>, done: set<T>, x: T)
    requires x in todo && todo !! done
    ensures (todo - {x}) + (done + {x}) == todo + done
    ensures (todo - {x}) !! (done + {x})
    ensures |todo - {x}| < |todo|
  {
  }

  /** Every descriptor of `fds` was closed exactly once and no other was. */
  predicate ClosedOnce(closed: seq<Fd>, fds: set<Fd>) {
    multiset(closed) == multiset(fds)
  }

  lemma ClosedNone()
    ensures ClosedOnce([], {})
  {
  }

  lemma ClosedOnceStep(closed: seq<Fd>, fds: set<Fd>, fd: Fd)
    requires ClosedOnce(closed, fds) && fd !in fds
    ensures ClosedOnce(closed + [fd], fds + {fd})
  {
    assert multiset(fds + {fd}) == multiset(fds) + multiset{fd};
  }

  /** Those of `fds` that have no requests left. */
  function WithoutRequests(requestMap: map<Key, Entry>, fds: set<Fd>): set<Fd> {
    set fd | fd in fds && KeysOn(requestMap, fd) == {}
  }

  /** Those of `fds` with requests that the application still holds. */
  function StillAssigned(requestMap: map<Key, Entry>, fds: set<Fd>): set<Fd> {
    set fd | fd in fds && AssignedOn(requestMap, fd)
  }

  lemma DropDummiesOk(m: Maps, dead: set<Fd>, maxRequests: nat)
    requires MapsOk(m, maxRequests) && dead <= WithoutRequests(m.requestMap, m.dummy)
    ensures MapsOk(m.(dummy := m.dummy - dead, requestCount := m.requestCount - dead), maxRequests)
  {
    forall k | k in m.requestMap ensures k.fd !in dead {
      assert k in KeysOn(m.requestMap, k.fd);
    }
  }

  /** `m` is `start` after the connections in `done` were removed. */
  ghost predicate RemovedSome(start: Maps, m: Maps, done: set<Fd>) {
    && m.bad == start.bad && m.closure == start.closure
    && m.writeMutex == start.writeMutex - done && m.recordStatus == start.recordStatus - done
    && m.requestMap == CleanedOn(start.requestMap, done)
    && m.dummy == start.dummy + StillAssigned(start.requestMap, done)
  }

  lemma RemovedNone(start: Maps)
    ensures RemovedSome(start, start, {})
  {
    assert CleanedOn(start.requestMap, {}) == start.requestMap;
    assert start.writeMutex - {} == start.writeMutex && start.recordStatus - {} == start.recordStatus;
  }

  lemma RemovedSomeStep(start: Maps, m: Maps, done: set<Fd>, fd: Fd)
    requires RemovedSome(start, m, done) && fd in m.requestCount && fd !in done
    ensures RemovedSome(start, RemoveConnection(m, fd), done + {fd})
  {
    CleanedOnStep(start.requestMap, done, fd);
    StillAssignedStep(start.requestMap, done, fd);
    assert start.writeMutex - done - {fd} == start.writeMutex - (done + {fd});
    assert start.recordStatus - done - {fd} == start.recordStatus - (done + {fd});
  }

  lemma StillAssignedStep(requestMap: map<Key, Entry>, done: set<Fd>, fd: Fd)
    ensures StillAssigned(requestMap, done + {fd}) ==
            StillAssigned(requestMap, done) + if AssignedOn(requestMap, fd) then {fd} else {}
  {
  }

  lemma WithoutRequestsStep(requestMap: map<Key, Entry>, done: set<Fd>, fd: Fd)
    ensures WithoutRequests(requestMap, done + {fd}) ==
            WithoutRequests(requestMap, done) + if KeysOn(requestMap, fd) == {} then {fd} else {}
  {
  }

  /** `m` is `start` after those dummies in `done` that have no requests were
      closed and forgotten. */
  ghost predicate DroppedSome(start: Maps, m: Maps, done: set<Fd>, closed: seq<Fd>) {
    var dead := WithoutRequests(start.requestMap, done);
    && m == start.(dummy := start.dummy - dead, requestCount := start.requestCount - dead)
    && ClosedOnce(closed, dead)
  }

  lemma DroppedSomeStep(start: Maps, m: Maps, done: set<Fd>, closed: seq<Fd>, fd: Fd)
    requires DroppedSome(start, m, done, closed) && fd !in done
    ensures KeysOn(m.requestMap, fd) == {} ==> DroppedSome(start, DropDummy(m, fd), done + {fd}, closed + [fd])
    ensures KeysOn(m.requestMap, fd) != {} ==> DroppedSome(start, m, done + {fd}, closed)
  {
    hide ClosedOnce;
    var dead := WithoutRequests(start.requestMap, done);
    assert dead + {} == dead;
    WithoutRequestsStep(start.requestMap, done, fd);
    ClosedOnceStep(closed, dead, fd);
    assert start.dummy - dead - {fd} == start.dummy - (dead + {fd});
    assert start.requestCount - dead - {fd} == start.requestCount - (dead + {fd});
  }

  lemma DroppedNone(start: Maps)
    ensures DroppedSome(start, start, {}, [])
  {
    assert WithoutRequests(start.requestMap, {}) == {};
    assert start.dummy - {} == start.dummy && start.requestCount - {} == start.requestCount;
  }

  /** Wherever the loop ends the maps are consistent. */
  lemma DroppedEnds(start: Maps, m: Maps, done: set<Fd>, closed: seq<Fd>, maxRequests: nat)
    requires DroppedSome(start, m, done, closed) && done <= start.dummy
    ensures m.bad == start.bad
    ensures MapsOk(start, maxRequests) ==> MapsOk(m, maxRequests) && MapsOk(m.(bad := true), maxRequests)
  {
    hide ClosedOnce, CountsOk, FlagsOk, PendingOk, KeysOn;
    if MapsOk(start, maxRequests) {
      DropDummiesOk(start, WithoutRequests(start.requestMap, done), maxRequests);
      ClosureAndBadOk(m, m.closure, true, maxRequests);
    }
  }

  /** Closing those of `fds` that have no requests does not fail. */
  predicate AllClose(requestMap: map<Key, Entry>, fds: set<Fd>, failing: set<Fd>) {
    forall fd :: fd in fds && KeysOn(requestMap, fd) == {} ==> fd !in failing
  }

  lemma AllCloseStep(requestMap: map<Key, Entry>, fds: set<Fd>, fd: Fd, failing: set<Fd>)
    requires AllClose(requestMap, fds, failing)
    ensures AllClose(requestMap, fds + {fd}, failing) <==> (KeysOn(requestMap, fd) == {} ==> fd !in failing)
  {
  }

  lemma CountPresent(start: Maps, m: Maps, visited: set<Fd>, closed: seq<Fd>, fd: Fd, maxRequests: nat)
    requires DroppedSome(start, m, visited, closed) && fd in start.dummy && fd !in visited
    ensures fd in m.requestCount <==> fd in start.requestCount
    ensures MapsOk(start, maxRequests) ==> fd in start.requestCount
  {
    hide ClosedOnce, CountsOk, FlagsOk, PendingOk, KeysOn;
  }

  /** One turn of the loop over the dummies. */
  lemma VisitDummy(start: Maps, m: Maps, visited: set<Fd>, closed: seq<Fd>, fd: Fd, failing: set<Fd>, maxRequests: nat)
    requires DroppedSome(start, m, visited, closed) && visited <= start.dummy
    requires fd in start.dummy && fd !in visited && AllClose(start.requestMap, visited, failing)
    ensures m.requestMap == start.requestMap && m.bad == start.bad
    ensures KeysOn(m.requestMap, fd) != {} ==>
              DroppedSome(start, m, visited + {fd}, closed) && AllClose(start.requestMap, visited + {fd}, failing)
    ensures KeysOn(m.requestMap, fd) == {} ==>
              var n := DropDummy(m, fd);
              && DroppedSome(start, n, visited + {fd}, closed + [fd]) && n.(bad := true).(bad := start.bad) == n
              && (fd !in failing ==> AllClose(start.requestMap, visited + {fd}, failing))
              && (fd in failing ==> !AllClose(start.requestMap, start.dummy, failing))
              && (MapsOk(start, maxRequests) ==> MapsOk(n.(bad := true), maxRequests))
    ensures fd !in m.requestCount ==> fd !in start.requestCount && !MapsOk(start, maxRequests)
  {
    hide ClosedOnce, MapsOk, KeysOn;
    CountPresent(start, m, visited, closed, fd, maxRequests);
    DroppedSomeStep(start, m, visited, closed, fd);
    AllCloseStep(start.requestMap, visited, fd, failing);
    if KeysOn(m.requestMap, fd) == {} {
      DroppedEnds(start, DropDummy(m, fd), visited + {fd}, closed + [fd], maxRequests);
    }
  }

  // ------------------------------------------------------------------
  // Single requests

  /** The state in which a begin-request record is answered with a new request. */
  predicate AwaitsRequest(m: Maps, key: Key, maxRequests: nat) {
    && key.fd in m.recordStatus && m.recordStatus[key.fd] == Some(key.id)
    && key.fd in m.requestCount && m.requestCount[key.fd] < maxRequests
  }

  lemma AddedIsExact(m: Maps, key: Key, closeConnection: bool, maxRequests: nat)
    requires MapsOk(m, maxRequests) && AwaitsRequest(m, key, maxRequests)
    ensures var n := InterfaceMaps.AddRequest(m, key, closeConnection);
            && n.bad == m.bad && key !in m.requestMap
            && MapsOk(n.(recordStatus := m.recordStatus[key.fd := None]), maxRequests)
            && n.requestMap.Keys == m.requestMap.Keys + {key} && n.requestMap - {key} == m.requestMap
            && n.requestCount.Keys == m.requestCount.Keys
            && |KeysOn(n.requestMap, key.fd)| == |KeysOn(m.requestMap, key.fd)| + 1
  {
    assert key !in m.requestMap;
    hide CountsOk, FlagsOk, PendingOk;
    AddRequestOk(m, key, closeConnection, maxRequests);
    AddedKeys(m.requestMap, key, Entry(false, false, false, closeConnection, 0));
  }

  lemma AddedKeys(requestMap: map<Key, Entry>, key: Key, e: Entry)
    requires key !in requestMap
    ensures requestMap[key := e].Keys == requestMap.Keys + {key} && requestMap[key := e] - {key} == requestMap
    ensures |KeysOn(requestMap[key := e], key.fd)| == |KeysOn(requestMap, key.fd)| + 1
  {
    KeysOnAdd(requestMap, key, e, key.fd);
    assert key !in KeysOn(requestMap, key.fd);
  }

  /** A request that was added and then removed leaves no trace. */
  lemma AddThenRemove(m: Maps, key: Key, closeConnection: bool, maxRequests: nat)
    ensures MapsOk(m, maxRequests) && key.fd in m.requestCount && key !in m.requestMap ==>
              RemoveRequest(InterfaceMaps.AddRequest(m, key, closeConnection), key) == m
  {
    if MapsOk(m, maxRequests) && key.fd in m.requestCount && key !in m.requestMap {
      var n := InterfaceMaps.AddRequest(m, key, closeConnection);
      assert n.requestCount[key.fd] == |KeysOn(m.requestMap, key.fd)| + 1;
      assert n.requestMap - {key} == m.requestMap;
      assert n.requestCount[key.fd := n.requestCount[key.fd] - 1] == m.requestCount;
    }
  }

  lemma RemovedIsExact(m: Maps, key: Key, maxRequests: nat)
    ensures var n := RemoveRequest(m, key);
            MapsOk(m, maxRequests) ==>
              && MapsOk(n, maxRequests)
              && (key in m.requestMap ==>
                    && key.fd in m.requestCount && m.requestCount[key.fd] != 0
                    && n.bad == m.bad && n.requestCount.Keys == m.requestCount.Keys
                    && |KeysOn(n.requestMap, key.fd)| == |KeysOn(m.requestMap, key.fd)| - 1)
  {
    if MapsOk(m, maxRequests) {
      if key in m.requestMap {
        RemoveRequestOk(m, key, maxRequests);
        KeysOnRemove(m.requestMap, key, key.fd);
        assert key in KeysOn(m.requestMap, key.fd);
      } else {
        ClosureAndBadOk(m, m.closure, true, maxRequests);
      }
    }
  }

  /** What the removal of a scheduled connection needs to succeed. */
  predicate Removable(requestMap: map<Key, Entry>, fd: Fd, free: set<Fd>, dup2Fails: set<Fd>, closeFails: set<Fd>) {
    fd in free && if AssignedOn(requestMap, fd) then fd !in dup2Fails else fd !in closeFails
  }

  class FcgiServerInterface {
    var requestMap: map<Key, Entry>
    var requestCount: map<Fd, int>
    var applicationClosureRequestSet: set<Fd>
    var dummyDescriptorSet: set<Fd>
    var writeMutexMap: map<Fd, nat>
    var recordStatusMap: map<Fd, Option<nat>>
    var badInterfaceStateDetected: bool
    const maximumRequestCountPerConnection: nat

    function View(): Maps
      reads this
    {
      Maps(requestMap, requestCount, applicationClosureRequestSet, dummyDescriptorSet, writeMutexMap,
           recordStatusMap, badInterfaceStateDetected)
    }

    ghost predicate Valid()
      reads this
    {
      MapsOk(View(), maximumRequestCountPerConnection)
    }

    constructor (maxRequests: nat)
      ensures Valid() && View() == EMPTY_MAPS && maximumRequestCountPerConnection == maxRequests
    {
      requestMap, requestCount := map[], map[];
      applicationClosureRequestSet, dummyDescriptorSet := {}, {};
      writeMutexMap, recordStatusMap := map[], map[];
      badInterfaceStateDetected := false;
      maximumRequestCountPerConnection := maxRequests;
    }

    method AddRequest(key: Key, closeConnection: bool) returns (added: bool)
      modifies this`requestMap, this`requestCount, this`badInterfaceStateDetected
      ensures View() == InterfaceMaps.AddRequest(old(View()), key, closeConnection)
      ensures added <==> key.fd in old(requestCount) && key !in old(requestMap)
      ensures !added ==> badInterfaceStateDetected && requestMap == old(requestMap) && requestCount == old(requestCount)
      ensures old(Valid()) && AwaitsRequest(old(View()), key, maximumRequestCountPerConnection) ==>
                && added
                && MapsOk(View().(recordStatus := recordStatusMap[key.fd := None]), maximumRequestCountPerConnection)
                && requestMap.Keys == old(requestMap).Keys + {key} && requestMap - {key} == old(requestMap)
                && requestCount[key.fd] == |KeysOn(requestMap, key.fd)| == |KeysOn(old(requestMap), key.fd)| + 1
                && (forall fd :: fd in requestCount && fd != key.fd ==>
                      requestCount[fd] == old(requestCount)[fd] == |KeysOn(requestMap, fd)|)
      ensures added && old(Valid()) ==> InterfaceMaps.RemoveRequest(View(), key) == old(View())
    {
      ghost var m := View();
      if Valid() && AwaitsRequest(m, key, maximumRequestCountPerConnection) {
        AddedIsExact(m, key, closeConnection, maximumRequestCountPerConnection);
      }
      AddThenRemove(m, key, closeConnection, maximumRequestCountPerConnection);
      if key.fd !in requestCount || key in requestMap {
        badInterfaceStateDetected := true;
        return false;
      }
      requestCount := requestCount[key.fd := requestCount[key.fd] + 1];
      requestMap := requestMap[key := Entry(false, false, false, closeConnection, 0)];
      return true;
    }

    method RemoveRequestHelper(key: Key) returns (removed: bool)
      modifies this`requestMap, this`requestCount, this`badInterfaceStateDetected
      ensures View() == InterfaceMaps.RemoveRequest(old(View()), key)
      ensures removed <==>
              key in old(requestMap) && key.fd in old(requestCount) && old(requestCount)[key.fd] != 0
      ensures !removed ==>
                badInterfaceStateDetected && requestMap == old(requestMap) && requestCount == old(requestCount)
      ensures old(Valid()) ==> Valid() && (removed <==> key in old(requestMap))
      ensures old(Valid()) && removed ==>
                && badInterfaceStateDetected == old(badInterfaceStateDetected)
                && key !in requestMap && requestMap == old(requestMap) - {key}
                && requestCount[key.fd] == |KeysOn(requestMap, key.fd)| == |KeysOn(old(requestMap), key.fd)| - 1
                && (forall fd :: fd in requestCount && fd != key.fd ==>
                      requestCount[fd] == old(requestCount)[fd] == |KeysOn(requestMap, fd)|)
    {
      RemovedIsExact(View(), key, maximumRequestCountPerConnection);
      if key !in requestMap || key.fd !in requestCount || requestCount[key.fd] == 0 {
        badInterfaceStateDetected := true;
        return false;
      }
      requestCount := requestCount[key.fd := requestCount[key.fd] - 1];
      requestMap := requestMap - {key};
      return true;
    }

    /** Flags the assigned requests of a connection and removes the others. */
    method RequestCleanupDuringConnectionClosure(fd: Fd) returns (assignedRequests: bool)
      requires fd in requestCount && requestCount[fd] == |KeysOn(requestMap, fd)|
      modifies this`requestMap, this`requestCount, this`badInterfaceStateDetected
      ensures View() == CleanupRequests(old(View()), fd)
      ensures assignedRequests <==> AssignedOn(old(requestMap), fd)
    {
      hide CleanedSoFar, CleanupRequests, AssignedOn;
      ghost var start := View();
      ghost var done: set<Key> := {};
      CleanedNone(start, fd);
      assignedRequests := false;
      var todo := KeysOn(requestMap, fd);
      while todo != {}
        invariant todo + done == KeysOn(start.requestMap, fd) && todo !! done
        invariant CleanedSoFar(start, View(), fd, done, assignedRequests)
        decreases |todo|
      {
        var key :| key in todo;
        CleanedSoFarStep(start, View(), fd, done, assignedRequests, key);
        if requestMap[key].isAssigned {
          requestMap := requestMap[key := requestMap[key].(closedByInterface := true)];
          assignedRequests := true;
        } else {
          var removed := RemoveRequestHelper(key);
        }
        MoveOne(todo, done, key);
        todo, done := todo - {key}, done + {key};
      }
      assert done == KeysOn(start.requestMap, fd);
      CleanedAll(start, View(), fd, assignedRequests);
    }

    /** `locked` is the result of try_lock on the write mutex, `dup2Works` and
        `closeWorks` say how dup2 and close end. A descriptor leaves the active
        maps only together with the dup2 that makes it a dummy, or ahead of the
        close that ends it, so that it is never closed again. */
    method RemoveConnection(fd: Fd, locked: bool, dup2Works: bool, closeWorks: bool) returns (r: Removal)
      requires Valid() && fd in writeMutexMap
      modifies this
      ensures Valid() && applicationClosureRequestSet == old(applicationClosureRequestSet)
      ensures r.MutexHeld? <==> !locked
      ensures r.MutexHeld? ==> View() == old(View())
      ensures r.Removed? ==> View() == InterfaceMaps.RemoveConnection(old(View()), fd)
      ensures r.Failed? <==> locked && if AssignedOn(old(requestMap), fd) then !dup2Works else !closeWorks
      ensures r.Failed? && AssignedOn(old(requestMap), fd) ==>
                View() == CleanupRequests(old(View()), fd).(bad := true)
      ensures r.Failed? && !AssignedOn(old(requestMap), fd) ==>
                View() == InterfaceMaps.RemoveConnection(old(View()), fd).(bad := true)
    {
      hide CountsOk, FlagsOk, PendingOk, CleanedRequests, KeysOn, AssignedOn;
      ghost var m := View();
      ActiveCount(m, fd, maximumRequestCountPerConnection);
      RemoveConnectionOk(m, fd, maximumRequestCountPerConnection);
      CleanupRequestsOk(m, fd, maximumRequestCountPerConnection);
      ClosureAndBadOk(InterfaceMaps.RemoveConnection(m, fd), m.closure, true, maximumRequestCountPerConnection);
      if !locked {
        return MutexHeld;
      }
      var assignedRequests := RequestCleanupDuringConnectionClosure(fd);
      // The program is terminated if an entry to erase is missing.
      assert fd in recordStatusMap && fd in writeMutexMap && fd in requestCount;
      if assignedRequests {
        if !dup2Works {
          badInterfaceStateDetected := true;
          return Failed;
        }
        dummyDescriptorSet := dummyDescriptorSet + {fd};
        recordStatusMap := recordStatusMap - {fd};
        writeMutexMap := writeMutexMap - {fd};
      } else {
        recordStatusMap := recordStatusMap - {fd};
        writeMutexMap := writeMutexMap - {fd};
        requestCount := requestCount - {fd};
        if !closeWorks {
          badInterfaceStateDetected := true;
          return Failed;
        }
      }
      return Removed;
    }

    /** Erasure precedes the close. */
    method ForgetDummy(fd: Fd, closeWorks: bool) returns (r: DummyCleanup)
      modifies this`dummyDescriptorSet, this`requestCount, this`badInterfaceStateDetected
      ensures r.CountMissing? <==> fd !in old(requestCount)
      ensures r.CloseFailed? <==> fd in old(requestCount) && !closeWorks
      ensures r.CountMissing? ==> View() == old(View()).(dummy := old(dummyDescriptorSet) - {fd}, bad := true)
      ensures r.CloseFailed? ==> View() == DropDummy(old(View()), fd).(bad := true)
      ensures r.Cleaned? ==> View() == DropDummy(old(View()), fd)
    {
      dummyDescriptorSet := dummyDescriptorSet - {fd};
      if fd !in requestCount {
        badInterfaceStateDetected := true;
        return CountMissing;
      }
      requestCount := requestCount - {fd};
      if !closeWorks {
        badInterfaceStateDetected := true;
        return CloseFailed;
      }
      return Cleaned;
    }

    /** The first loop of AcceptRequests: dummies without requests are forgotten
        and closed, each once; the others stay. `failing` are the descriptors on
        which close fails; such a failure ends the loop in a bad state. In every
        outcome no descriptor that was closed is still a dummy. */
    method CleanupDummies(failing: set<Fd>)
        returns (r: DummyCleanup, closed: seq<Fd>, ghost visited: set<Fd>)
      modifies this`dummyDescriptorSet, this`requestCount, this`badInterfaceStateDetected
      ensures visited <= old(dummyDescriptorSet)
      ensures r.Cleaned? ==>
                visited == old(dummyDescriptorSet) && badInterfaceStateDetected == old(badInterfaceStateDetected)
      ensures !r.Cleaned? ==> badInterfaceStateDetected
      ensures !r.CountMissing? ==>
                DroppedSome(old(View()), View().(bad := old(badInterfaceStateDetected)), visited, closed)
      ensures r.CloseFailed? ==> closed != [] && closed[|closed| - 1] in failing
      ensures r.CountMissing? ==> exists fd :: fd in old(dummyDescriptorSet) && fd !in old(requestCount)
      ensures old(Valid()) ==>
                && Valid() && !r.CountMissing?
                && (r.Cleaned? <==> AllClose(old(requestMap), old(dummyDescriptorSet), failing))
    {
      assert AllClose(requestMap, {}, failing);
      hide MapsOk, DroppedSome, KeysOn, AllClose, DropDummy;
      ghost var start := View();
      visited := {};
      DroppedNone(start);
      closed := [];
      var todo := dummyDescriptorSet;
      while todo != {}
        invariant todo !! visited && todo + visited == start.dummy
        invariant DroppedSome(start, View(), visited, closed)
        invariant AllClose(start.requestMap, visited, failing)
        decreases |todo|
      {
        var fd :| fd in todo;
        VisitDummy(start, View(), visited, closed, fd, failing, maximumRequestCountPerConnection);
        MoveOne(todo, visited, fd);
        todo, visited := todo - {fd}, visited + {fd};
        if KeysOn(requestMap, fd) == {} {
          r := ForgetDummy(fd, fd !in failing);
          if r.CountMissing? {
            return r, closed, visited;
          }
          closed := closed + [fd];
          if r.CloseFailed? {
            return r, closed, visited;
          }
        }
      }
      assert visited == start.dummy;
      DroppedEnds(start, View(), visited, closed, maximumRequestCountPerConnection);
      return Cleaned, closed, visited;
    }

    /** The second loop of AcceptRequests. `free` are the connections whose write
        mutex try_lock can acquire, `dup2Fails` and `closeFails` those on which
        dup2 and close fail. If every scheduled connection can be removed, each is
        closed exactly once and leaves the active maps, becoming a dummy exactly
        when the application still holds requests of it; otherwise the interface
        turns bad. In every outcome what was closed left the active maps and
        nothing else did. */
    method CleanupConnections(free: set<Fd>, dup2Fails: set<Fd>, closeFails: set<Fd>)
        returns (ok: bool, closed: seq<Fd>, ghost removed: set<Fd>)
      requires Valid() && !badInterfaceStateDetected && applicationClosureRequestSet <= writeMutexMap.Keys
      modifies this
      ensures Valid()
      ensures ok <==> forall fd :: fd in old(applicationClosureRequestSet) ==>
                                     Removable(old(requestMap), fd, free, dup2Fails, closeFails)
      ensures badInterfaceStateDetected <==> !ok
      ensures removed <= old(applicationClosureRequestSet) && ClosedOnce(closed, removed)
      ensures writeMutexMap == old(writeMutexMap) - removed
      ensures ok ==> removed == old(applicationClosureRequestSet)
      ensures ok ==> RemovedSome(old(View()).(closure := {}), View(), removed)
      ensures !ok ==> applicationClosureRequestSet == old(applicationClosureRequestSet)
    {
      hide CountsOk, FlagsOk, PendingOk, CleanedOn, ClosedOnce, AssignedOn;
      ghost var start := View();
      RemovedNone(start);
      ClosedNone();
      var todo := applicationClosureRequestSet;
      removed := {};
      closed := [];
      while todo != {}
        invariant Valid()
        invariant todo + removed == start.closure && todo !! removed
        invariant RemovedSome(start, View(), removed)
        invariant forall fd :: fd in removed ==> Removable(start.requestMap, fd, free, dup2Fails, closeFails)
        invariant ClosedOnce(closed, removed)
        decreases |todo|
      {
        var fd :| fd in todo;
        RemovedSomeStep(start, View(), removed, fd);
        CleanedOnStep(start.requestMap, removed, fd);
        ClosedOnceStep(closed, removed, fd);
        MoveOne(todo, removed, fd);
        ghost var before := View();
        var r := RemoveConnection(fd, fd in free, fd !in dup2Fails, fd !in closeFails);
        if !r.Removed? {
          if r.Failed? && fd !in writeMutexMap {
            closed, removed := closed + [fd], removed + {fd};
          }
          ClosureAndBadOk(View(), applicationClosureRequestSet, true, maximumRequestCountPerConnection);
          badInterfaceStateDetected := true;
          return false, closed, removed;
        }
        closed := closed + [fd];
        todo, removed := todo - {fd}, removed + {fd};
      }
      assert removed == start.closure;
      ClosureAndBadOk(View(), {}, badInterfaceStateDetected, maximumRequestCountPerConnection);
      applicationClosureRequestSet := {};
      return true, closed, removed;
    }
  }
}
