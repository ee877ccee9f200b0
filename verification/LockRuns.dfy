/** Runs that show that the conditions in the theorems cannot be dropped. */
module LockRuns {
  import opened InterfaceMaps
  import opened Wrappers
  import opened LockProtocol
  import opened LockInvariant
  import opened LockTheorems
  import opened LockDiscipline

  // ------------------------------------------------------------------
  // A destructor on a settled connection

  /** A connection of one request, whose interface thread is at `ipc`. */
  predicate OneRequest(s: State, ipc: IPc) {
    && !s.terminated && s.generation == 1 && s.identifier == 1 && !s.maps.bad && s.ipc == ipc
    && s.reqs == [Req(1, 1, Key(5, 1), 0, true, false, false, 0, Idle)] && |s.conns| == 1
    && Key(5, 1) in s.maps.requestMap && s.maps.requestMap[Key(5, 1)] == Entry(true, false, false, true, 0)
  }

  /** A reply is about to be sent ... */
  lemma ReplyingRun() returns (s: State)
    ensures Reachable(s) && OneRequest(s, Sending(5, 0, [9], 0))
    ensures s.im == None && !s.conns[0].epipe && s.settled == {}
  {
    s := AssignedRun(true);
    hide Reachable;
    s := Next(s, Accepting(IReply(5, [9])));
    s := Next(s, Accepting(ISendLockW));
    s := Next(s, Accepting(ISendCheckFlag));
  }

  /** ... and cannot be ... */
  lemma UnsentReplyRun() returns (s: State)
    ensures Reachable(s) && OneRequest(s, SendWantW2(5, 0))
    ensures s.im == Some(Interface) && s.conns[0].owner == None && s.settled == {}
  {
    s := ReplyingRun();
    hide Reachable;
    s := Next(s, Accepting(ISendFail(Timeout)));
    s := Next(s, Accepting(ISendLockI));
  }

  /** ... so that the connection is scheduled for closure under its write mutex. */
  lemma SettledRun() returns (s: State)
    ensures Reachable(s) && OneRequest(s, Reading)
    ensures s.im == None && s.conns[0].owner == None && s.settled == {5}
  {
    s := UnsentReplyRun();
    hide Reachable;
    s := Next(s, Accepting(ISendLockW2));
    s := Next(s, Accepting(ISendInserted));
  }

  /** The destructor of its request does not look at the closure set and takes the
      write mutex all the same. */
  lemma DestructorRun() returns (s: State)
    ensures Reachable(s) && |s.reqs| == 1 && s.reqs[0].key.fd in s.settled
    ensures s.reqs[0].pc == HasWToInsert(ByDestructor)
    ensures s.reqs[0].conn < |s.conns| && s.conns[s.reqs[0].conn].owner == Some(Request(0))
  {
    s := SettledRun();
    hide Reachable;
    s := Next(s, RequestThread(0, RStart(Destroy)));
    s := Next(s, RequestThread(0, RLockI));
    s := Next(s, RequestThread(0, RCheck));
    s := Next(s, RequestThread(0, RLockW));
  }

  // ------------------------------------------------------------------
  // Two answers of AbortStatus

  /** The only request asks whether it was aborted. */
  lemma Asks(s: State, close: bool, aborted: bool) returns (t: State)
    requires Reachable(s) && !s.terminated && s.im == None && s.identifier == 1 && s.generation == 1 && !s.maps.bad
    requires s.reqs == [Req(1, 1, Key(5, 1), 0, close, false, false, 0, Idle)]
    requires Key(5, 1) in s.maps.requestMap && s.maps.requestMap[Key(5, 1)] == Entry(true, false, aborted, close, 0)
    ensures Reachable(t) && t == s.(reqs := [Req(1, 1, Key(5, 1), 0, close, false, aborted, 0, Idle)])
  {
    hide Reachable;
    t := Next(s, RequestThread(0, RStart(Abort)));
    t := Next(t, RequestThread(0, RLockI));
    t := Next(t, RequestThread(0, RCheck));
  }

  /** First the client has not aborted the request, then it has. */
  lemma AbortRun() returns (before: State, after: State)
    ensures Reachable(before) && Reachable(after) && |before.reqs| == |after.reqs| == 1
    ensures before.reqs[0].pc == after.reqs[0].pc == Idle && !before.reqs[0].completed && !after.reqs[0].completed
    ensures !before.reqs[0].wasAborted && after.reqs[0].wasAborted
  {
    before := AssignedRun(false);
    before := Asks(before, false, false);
    hide Reachable;
    after := Next(before, Accepting(IMarkAborted(Key(5, 1))));
    after := Asks(after, false, true);
  }

  // ------------------------------------------------------------------
  // A mistaken identity test

  /** No interface exists, and the request of an earlier one is idle. */
  predicate Outlived(s: State, q: Req) {
    && !s.terminated && s.im == None && s.ipc == Absent && s.reqs == [q] && q.pc == Idle
    && s.maps == EMPTY_MAPS
  }

  /** The interface of a request is being destroyed ... */
  lemma ClosingRun() returns (s: State)
    ensures Reachable(s) && !s.terminated && s.im == Some(Interface) && s.ipc == ClosingConnections({5})
    ensures s.generation == 1 && s.identifier == 1 && s.maps.writeMutex == map[5 := 0]
    ensures s.reqs == [Req(1, 1, Key(5, 1), 0, false, false, false, 0, Idle)]
    ensures |s.conns| == 1 && s.conns[0].owner == None
  {
    s := AssignedRun(false);
    hide Reachable;
    s := Next(s, Accepting(IFinishReading));
    s := Next(s, Cleaning(IBeginDestroy));
    s := Next(s, Cleaning(IDummiesClosed));
    s := Next(s, Cleaning(IDestroyLockI));
  }

  /** ... and the request outlives it. */
  lemma OutlivedRun() returns (s: State)
    ensures Reachable(s) && s.generation == 1
    ensures Outlived(s, Req(1, 1, Key(5, 1), 0, false, false, false, 0, Idle))
  {
    s := ClosingRun();
    hide Reachable;
    s := Next(s, Cleaning(ICloseConn(5)));
    s := Next(s, Cleaning(IConnectionsClosed));
    s := Next(s, Cleaning(IDismantle));
  }

  /** An interface is created and destroyed. */
  lemma AnotherInterface(s: State, q: Req) returns (t: State)
    requires Reachable(s) && Outlived(s, q)
    ensures Reachable(t) && Outlived(t, q) && t.generation == s.generation + 1
  {
    hide Reachable;
    t := Next(s, Cleaning(IConstruct));
    t := Next(t, Cleaning(IBeginDestroy));
    t := Next(t, Cleaning(IDummiesClosed));
    t := Next(t, Cleaning(IDestroyLockI));
    t := Next(t, Cleaning(IConnectionsClosed));
    t := Next(t, Cleaning(IDismantle));
  }

  lemma {:induction false} ManyInterfaces(s: State, q: Req, n: nat) returns (t: State)
    requires Reachable(s) && Outlived(s, q)
    ensures Reachable(t) && Outlived(t, q) && t.generation == s.generation + n
    decreases n
  {
    if n == 0 {
      t := s;
    } else {
      t := ManyInterfaces(s, q, n - 1);
      t := AnotherInterface(t, q);
    }
  }

  /** After 2^64 - 1 more interfaces the identifier of the first is used again: its
      request takes the new interface for its own and would use request data that
      do not exist. */
  lemma MistakenIdentity() returns (s: State)
    ensures Reachable(s) && s.generation == MAX_IDENTIFIER + 1 && s.faults == {}
    ensures CanCheck(s, 0) && s.reqs[0].identifier == s.identifier && !Current(s, s.reqs[0])
    ensures DanglingRequestData in Check(s, 0).faults
  {
    var q := Req(1, 1, Key(5, 1), 0, false, false, false, 0, Idle);
    s := OutlivedRun();
    s := ManyInterfaces(s, q, MAX_IDENTIFIER - 1);
    s := Next(s, Cleaning(IConstruct));
    s := Next(s, RequestThread(0, RStart(Write([7]))));
    s := Next(s, RequestThread(0, RLockI));
    NoFaults(s);
  }
}
