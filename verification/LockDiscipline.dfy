/** The mutex discipline, and what it implies for descriptors, requests and the
    closure set. */
module LockDiscipline {
  import opened Bytes
  import opened InterfaceMaps
  import opened Wrappers
  import opened LockProtocol
  import opened LockInvariant
  import opened LockTheorems

  // ------------------------------------------------------------------
  // Mutexes

  datatype Mutex = InterfaceMutex | WriteMutex(conn: nat)

  predicate Holds(s: State, t: Thread, m: Mutex) {
    match m
    case InterfaceMutex => s.im == Some(t)
    case WriteMutex(c) => c < |s.conns| && s.conns[c].owner == Some(t)
  }

  /** The mutexes that a thread may block on in its next step; RemoveConnection
      only tries and so never blocks. */
  predicate Wants(s: State, t: Thread, m: Mutex) {
    match t
    case Request(r) =>
      && r < |s.reqs|
      && (s.reqs[r].pc.WantI? ==> m == InterfaceMutex)
      && (s.reqs[r].pc.WantW? || s.reqs[r].pc.WantWToInsert? ==> m == WriteMutex(s.reqs[r].conn))
      && (s.reqs[r].pc.WantI? || s.reqs[r].pc.WantW? || s.reqs[r].pc.WantWToInsert?)
    case Interface =>
      match s.ipc
      case Absent => m == InterfaceMutex
      case Ready => m == InterfaceMutex
      case Reading => m == InterfaceMutex
      case BeginAdmitted(_, _) => m == InterfaceMutex
      case Accepted(_, _) => m == InterfaceMutex
      case SendWantW(_, c, _) => m == WriteMutex(c)
      case SendFailed(_, _) => m == InterfaceMutex
      case SendWantW2(_, c) => m == WriteMutex(c)
      case WantDestroyI => m == InterfaceMutex
      case ClosingConnections(todo) =>
        exists fd :: fd in todo && fd in s.maps.writeMutex && m == WriteMutex(s.maps.writeMutex[fd])
      case _ => false
  }

  lemma HolderIsARequest(s: State, t: Thread, m: Mutex)
    requires Inv(s) && Holds(s, t, m)
    ensures t.Request? ==>
              && t.index < |s.reqs| && ReqOk(s, t.index)
              && (m.WriteMutex? ==> s.reqs[t.index].conn == m.conn && HoldsW(s.reqs[t.index].pc))
              && (m.InterfaceMutex? ==> HoldsI(s.reqs[t.index].pc))
    ensures t.Interface? && m.WriteMutex? ==> InterfaceHoldsW(s.ipc, m.conn)
  {
    if m.WriteMutex? { assert ConnOk(s, m.conn); }
    if t.Request? { assert ReqOk(s, t.index); }
  }

  /** A thread that holds a write mutex waits for nothing; in particular it never
      wants the interface mutex. No thread holds two write mutexes, and none
      wants a mutex it already holds. */
  lemma MutexDiscipline(s: State, t: Thread, m: Mutex)
    requires Reachable(s) && Holds(s, t, m)
    ensures m.WriteMutex? ==> forall w :: !Wants(s, t, w)
    ensures m.WriteMutex? ==> forall c :: Holds(s, t, WriteMutex(c)) ==> c == m.conn
    ensures !Wants(s, t, m)
  {
    ReachableInv(s);
    HolderIsARequest(s, t, m);
    forall c | Holds(s, t, WriteMutex(c)) && m.WriteMutex? ensures c == m.conn {
      HolderIsARequest(s, t, WriteMutex(c));
    }
  }

  /** Whoever blocks another thread is at most one wait away from running. */
  lemma WaitsAreShort(s: State, t: Thread, m: Mutex, u: Thread, w: Mutex, v: Thread)
    requires Reachable(s)
    requires Wants(s, t, m) && Holds(s, u, m) && Wants(s, u, w) && Holds(s, v, w)
    ensures m == InterfaceMutex && w.WriteMutex? && v != t && v != u && forall x :: !Wants(s, v, x)
  {
    ReachableInv(s);
    MutexDiscipline(s, u, m);
    HolderIsARequest(s, u, m);
    HolderIsARequest(s, v, w);
    MutexDiscipline(s, v, w);
  }

  predicate Busy(s: State, t: Thread) {
    match t
    case Request(r) => r < |s.reqs| && !s.reqs[r].pc.Idle? && !s.reqs[r].pc.Dead?
    case Interface => !s.ipc.Absent? && !s.ipc.Ready?
  }

  predicate StepOf(step: Step, t: Thread) {
    match step
    case RequestThread(r, p) => t == Request(r) && !p.RStart? && !p.RDrop?
    case Cleaning(p) => t == Interface && !p.IConstruct?
    case Accepting(_) => t == Interface
    case _ => false
  }

  /** Nothing fails in this step that could succeed: a write fails only on a socket
      that the peer closed, and an operation is given up only in a bad state. */
  predicate Ordinary(s: State, step: Step) {
    match step
    case RequestThread(r, p) =>
      && (p.RFailWrite? ==> InWriteLoop(s, r) && s.conns[s.reqs[r].conn].epipe)
      && (p.RInsert? ==> p.pipe == Written)
    case Cleaning(p) => !p.IAbandonCleanup? && (p.IRemoveConn? ==> p.dup2Works)
    case Accepting(p) =>
      && !p.IAcceptReject?
      && (p.IFinishReading? ==> s.ipc.Reading? || s.maps.bad)
      && (p.ISendFail? ==> s.ipc.Sending? && s.ipc.conn < |s.conns| && s.conns[s.ipc.conn].epipe)
    case _ => true
  }

  /** A busy thread whose mutex is free can go on. */
  lemma RequestCanRun(s: State, r: nat) returns (step: Step)
    requires Inv(s) && !s.terminated && Busy(s, Request(r))
    requires forall m, u :: Wants(s, Request(r), m) ==> !Holds(s, u, m)
    ensures StepOf(step, Request(r)) && Ordinary(s, step) && Enabled(s, step)
  {
    assert ReqOk(s, r);
    var q := s.reqs[r];
    assert s.im.Some? ==> Holds(s, s.im.value, InterfaceMutex);
    assert Wants(s, Request(r), WriteMutex(q.conn)) && s.conns[q.conn].owner.Some? ==>
             Holds(s, s.conns[q.conn].owner.value, WriteMutex(q.conn));
    step := RequestThread(r, match q.pc
                             case WantI(_) => RLockI
                             case Checking(_) => RCheck
                             case WantW(_, _) => RLockW
                             case HasBoth(_, _) => RCheckFlag
                             case Writing(_, _, _) => if s.conns[q.conn].epipe then RFailWrite(BrokenPipe) else RSend(1)
                             case FailBody(_) => RFailBody
                             case WantWToInsert(_) => RLockW
                             case HasWToInsert(who) => if who == ByWriter then RInsert(Written) else RReleaseTemporary
                             case BareInsert(_) => RInsert(Written)
                             case EndRemove => REndRemove
                             case _ => RDestroyRemove);
  }

  lemma CloseConnCanRun(s: State, fd: Fd)
    requires Inv(s) && !s.terminated && s.ipc.ClosingConnections? && fd in s.ipc.todo
    requires forall c: nat :: Wants(s, Interface, WriteMutex(c)) && c < |s.conns| ==> s.conns[c].owner == None
    ensures Enabled(s, Cleaning(ICloseConn(fd)))
  {
    assert FdOk(s, fd);
    assert Wants(s, Interface, WriteMutex(s.maps.writeMutex[fd]));
  }

  lemma RemoveConnCanRun(s: State, fd: Fd)
    requires Inv(s) && !s.terminated && s.ipc.CleanClosures? && fd in s.ipc.todo
    ensures Enabled(s, Cleaning(IRemoveConn(fd, true)))
  {
    assert FdOk(s, fd);
  }

  predicate InCleanup(ipc: IPc) {
    ipc.CleanDummies? || ipc.CleanClosures? || ipc.ClosingDummies? || ipc.ClosingConnections?
  }

  lemma CleanupCanRun(s: State) returns (step: Step)
    requires Inv(s) && !s.terminated
    requires InCleanup(s.ipc)
    requires forall c: nat :: Wants(s, Interface, WriteMutex(c)) && c < |s.conns| ==> s.conns[c].owner == None
    ensures StepOf(step, Interface) && Ordinary(s, step) && Enabled(s, step)
  {
    if fd :| fd in s.ipc.todo {
      match s.ipc
      case CleanDummies(_) => step := Cleaning(ICleanDummy(fd));
      case CleanClosures(_) =>
        RemoveConnCanRun(s, fd);
        step := Cleaning(IRemoveConn(fd, true));
      case ClosingDummies(_) => step := Cleaning(ICloseDummy(fd));
      case ClosingConnections(_) =>
        CloseConnCanRun(s, fd);
        step := Cleaning(ICloseConn(fd));
    } else {
      step := Cleaning(match s.ipc
                       case CleanDummies(_) => IDummiesCleaned
                       case CleanClosures(_) => IClosuresCleaned
                       case ClosingDummies(_) => IDummiesClosed
                       case ClosingConnections(_) => IConnectionsClosed);
    }
  }

  lemma SendCanRun(s: State) returns (step: Step)
    requires IPcOk(s) && !s.terminated
    requires s.ipc.SendHasW? || s.ipc.Sending? || s.ipc.SendInsert?
    ensures StepOf(step, Interface) && Ordinary(s, step) && Enabled(s, step)
  {
    step := Accepting(match s.ipc
                      case SendHasW(_, _, _) => ISendCheckFlag
                      case Sending(_, c, _, _) => if s.conns[c].epipe then ISendFail(BrokenPipe) else ISendBytes(1)
                      case SendInsert(_, _) => ISendInserted);
  }

  /** What the interface thread waits for is free. */
  ghost predicate Unblocked(s: State) {
    && (Wants(s, Interface, InterfaceMutex) ==> s.im == None)
    && forall c: nat :: Wants(s, Interface, WriteMutex(c)) && c < |s.conns| ==> s.conns[c].owner == None
  }

  lemma NotBlocked(s: State)
    requires forall m, u :: Wants(s, Interface, m) ==> !Holds(s, u, m)
    ensures Unblocked(s)
  {
    assert s.im.Some? ==> Holds(s, s.im.value, InterfaceMutex);
    forall c: nat | Wants(s, Interface, WriteMutex(c)) && c < |s.conns| ensures s.conns[c].owner == None {
      assert s.conns[c].owner.Some? ==> Holds(s, s.conns[c].owner.value, WriteMutex(c));
    }
  }

  lemma InterfaceGoesOn(s: State) returns (step: Step)
    requires IPcOk(s) && !s.terminated && Busy(s, Interface) && Unblocked(s) && !InCleanup(s.ipc)
    ensures StepOf(step, Interface) && Ordinary(s, step) && Enabled(s, step)
  {
    match s.ipc
    case Reading => step := Accepting(IFinishReading);
    case BeginAdmitted(_, _) => step := Accepting(if s.maps.bad then IFinishReading else IAdd(false));
    case SendWantW(_, _, _) => step := Accepting(ISendLockW);
    case SendFailed(_, _) => step := Accepting(ISendLockI);
    case SendWantW2(_, _) => step := Accepting(ISendLockW2);
    case Accepted(_, _) => step := Accepting(IAcceptRecord);
    case WantDestroyI => step := Cleaning(IDestroyLockI);
    case Dismantling => step := Cleaning(IDismantle);
    case _ => step := SendCanRun(s);
  }

  lemma InterfaceCanRun(s: State) returns (step: Step)
    requires Inv(s) && !s.terminated && Busy(s, Interface)
    requires forall m, u :: Wants(s, Interface, m) ==> !Holds(s, u, m)
    ensures StepOf(step, Interface) && Ordinary(s, step) && Enabled(s, step)
  {
    NotBlocked(s);
    if InCleanup(s.ipc) {
      step := CleanupCanRun(s);
    } else {
      hide Unblocked, Ordinary, Enabled;
      step := InterfaceGoesOn(s);
    }
  }

  /** Follows the waits from a busy thread to one that can run. */
  lemma Unblock(s: State, t: Thread) returns (u: Thread)
    requires Reachable(s) && Busy(s, t)
    ensures Busy(s, u) && forall m, v :: Wants(s, u, m) ==> !Holds(s, v, m)
  {
    ReachableInv(s);
    if m, v :| Wants(s, t, m) && Holds(s, v, m) {
      HolderIsBusy(s, v, m);
      if w, x :| Wants(s, v, w) && Holds(s, x, w) {
        WaitsAreShort(s, t, m, v, w, x);
        HolderIsBusy(s, x, w);
        u := x;
      } else {
        u := v;
      }
    } else {
      u := t;
    }
  }

  lemma HolderIsBusy(s: State, t: Thread, m: Mutex)
    requires Inv(s) && Holds(s, t, m)
    ensures Busy(s, t)
  {
    HolderIsARequest(s, t, m);
  }

  /** No reachable state is a deadlock: as long as some thread is inside an
      operation, a thread inside an operation can take its next step, and does not
      need a failure to do so. */
  lemma NoDeadlock(s: State, t: Thread)
    requires Reachable(s) && !s.terminated && Busy(s, t)
    ensures exists u, step :: Busy(s, u) && StepOf(step, u) && Ordinary(s, step) && Enabled(s, step)
  {
    ReachableInv(s);
    var u := Unblock(s, t);
    var step: Step;
    match u
    case Request(r) => step := RequestCanRun(s, r);
    case Interface => step := InterfaceCanRun(s);
  }

  // ------------------------------------------------------------------
  // Descriptors

  /** Outside a cleanup and in a good state, exactly the known descriptors are
      counted, the closure set names active connections only, and it is
      disjoint from the dummies. */
  lemma DescriptorSets(s: State)
    requires Reachable(s) && !s.maps.bad && !s.ipc.CleanClosures?
    ensures s.maps.closure <= s.maps.writeMutex.Keys == s.maps.recordStatus.Keys
    ensures s.maps.writeMutex.Keys !! s.maps.dummy
    ensures s.maps.requestCount.Keys == s.maps.writeMutex.Keys + s.maps.dummy
    ensures s.maps.closure !! s.maps.dummy
  {
    ReachableInv(s);
    forall fd | fd in s.maps.closure ensures fd in s.maps.writeMutex { assert FdOk(s, fd); }
  }

  /** No accepted descriptor is closed twice, and none is left open when the
      interface is gone. While the interface exists and is not being destroyed
      the open ones are exactly the active connections. */
  lemma ClosedExactlyOnce(s: State, c: nat)
    requires Reachable(s) && c < |s.conns|
    ensures s.conns[c].closes <= 1
    ensures s.ipc.Absent? || s.ipc.Dismantling? ==> s.conns[c].closes == 1
    ensures ConnectionOpen(s.ipc, s.conns[c].fd) ==>
              (s.conns[c].closes == 0 <==>
                || (s.conns[c].fd in s.maps.writeMutex && s.maps.writeMutex[s.conns[c].fd] == c)
                || (s.ipc.Accepted? && s.ipc.conn == c))
  {
    ReachableInv(s);
    assert ConnOk(s, c) && FdOk(s, s.conns[c].fd);
  }

  /** The number of a live request is in use until its entry is removed, so a
      new connection cannot be given the same number. */
  lemma LiveRequestsKeepTheirNumber(s: State, key: Key)
    requires Reachable(s) && key in s.maps.requestMap
    requires ConnectionOpen(s.ipc, key.fd) && DummyOpen(s.ipc, key.fd)
    ensures key.fd in s.os
    ensures s.ipc.Accepted? ==> s.ipc.fd != key.fd
    ensures s.maps.requestMap[key].closedByInterface && !s.maps.bad ==> s.os[key.fd] == ListenerCopy
    ensures !s.maps.requestMap[key].closedByInterface ==>
              key.fd in s.maps.writeMutex && s.os[key.fd] == Socket(s.maps.writeMutex[key.fd])
  {
    ReachableInv(s);
    hide ReqOk, ConnOk, CountsOk, PendingOk;
    assert FdOk(s, key.fd) && EntryOk(s, key);
  }

  /** In a good state a request is flagged as closed exactly when its descriptor
      is a dummy, and every request on a dummy is assigned. */
  lemma FlagsMarkDummies(s: State, key: Key)
    requires Reachable(s) && !s.maps.bad && key in s.maps.requestMap
    ensures s.maps.requestMap[key].closedByInterface <==> key.fd in s.maps.dummy
    ensures key.fd in s.maps.dummy ==> s.maps.requestMap[key].isAssigned
  {
    ReachableInv(s);
  }

  // ------------------------------------------------------------------
  // Requests

  /** The count of a connection is the number of its requests, at most the
      configured maximum. */
  lemma CountsAreExact(s: State, fd: Fd)
    requires Reachable(s)
    ensures fd in s.maps.requestCount ==>
              0 <= s.maps.requestCount[fd] == |KeysOn(s.maps.requestMap, fd)| <= s.maxRequests
    ensures fd !in s.maps.requestCount ==> KeysOn(s.maps.requestMap, fd) == {}
  {
    ReachableInv(s);
  }

  /** A request object leaves the map exactly once, when it becomes completed or
      is destroyed, and until then its entry is its own. */
  lemma RequestsLeaveOnce(s: State, r: nat)
    requires Reachable(s) && r < |s.reqs|
    ensures s.reqs[r].removals <= 1
    ensures Current(s, s.reqs[r]) && !s.maps.bad ==>
              var q := s.reqs[r];
              && (Live(q) <==> q.removals == 0)
              && (Live(q) <==> q.key in s.maps.requestMap && s.maps.requestMap[q.key].isAssigned
                               && s.maps.requestMap[q.key].holder == r)
  {
    ReachableInv(s);
    assert ReqOk(s, r);
    if s.reqs[r].key in s.maps.requestMap { assert EntryOk(s, s.reqs[r].key); }
  }

  // ------------------------------------------------------------------
  // Scheduling a connection for closure

  /** Once a connection was added to the closure set under its write mutex, no
      request starts or continues a write on it, and a request that holds its
      write mutex is in its destructor, which is about to insert it again while
      holding the interface mutex. */
  lemma SettledConnectionsAreQuiet(s: State, r: nat)
    requires Reachable(s) && r < |s.reqs| && s.reqs[r].key.fd in s.settled
    ensures !s.reqs[r].pc.WantW? && !s.reqs[r].pc.HasBoth? && !s.reqs[r].pc.Writing?
    ensures HoldsW(s.reqs[r].pc) ==> s.im == Some(Request(r)) && s.reqs[r].pc == HasWToInsert(ByDestructor)
  {
    ReachableInv(s);
    assert ReqOk(s, r);
  }

  /** try_lock in RemoveConnection fails exactly when a request is in its write
      loop on the connection without the interface mutex; then the connection
      was scheduled by the reading code, which does not take the write mutex. */
  lemma TryLockFailsExactlyDuringAWrite(s: State, fd: Fd)
    requires Reachable(s) && s.ipc.CleanClosures? && fd in s.ipc.todo
    ensures fd in s.maps.writeMutex && s.maps.writeMutex[fd] < |s.conns|
    ensures s.conns[s.maps.writeMutex[fd]].owner != None <==>
              exists r :: 0 <= r < |s.reqs| && s.reqs[r].conn == s.maps.writeMutex[fd] && s.reqs[r].pc.Writing?
    ensures s.conns[s.maps.writeMutex[fd]].owner != None ==> fd !in s.settled
  {
    ReachableInv(s);
    assert FdOk(s, fd);
    var c := s.maps.writeMutex[fd];
    assert ConnOk(s, c);
    if s.conns[c].owner != None {
      var r := s.conns[c].owner.value.index;
      assert ReqOk(s, r);
      assert s.reqs[r].pc.Writing?;
    }
    if r :| 0 <= r < |s.reqs| && s.reqs[r].conn == c && s.reqs[r].pc.Writing? {
      assert ReqOk(s, r);
    }
  }

  lemma RequestsOnlySettle(s: State, r: nat, p: RequestStep)
    requires RequestStepEnabled(s, r, p)
    ensures s.settled <= RequestStepApply(s, r, p).settled
  {
  }

  lemma ReadingOnlySettles(s: State, p: ReadingStep)
    requires ReadingStepEnabled(s, p)
    ensures s.settled <= ReadingStepApply(s, p).settled
  {
  }

  lemma CleanupSettles(s: State, p: CleanupStep)
    requires CleanupStepEnabled(s, p)
    ensures p.IClosuresCleaned? || p.IConstruct? || p.IDismantle? || CleanupStepApply(s, p).settled == s.settled
  {
  }

  /** A settled connection stays settled until it was removed. */
  lemma SettledUntilRemoved(s: State, fd: Fd, step: Step)
    requires Reachable(s) && fd in s.settled && Enabled(s, step)
    ensures fd in Apply(s, step).settled || fd !in Apply(s, step).maps.writeMutex
  {
    ReachableInv(s);
    assert FdOk(s, fd);
    match step
    case RequestThread(r, p) => RequestsOnlySettle(s, r, p);
    case Cleaning(p) => CleanupSettles(s, p);
    case Accepting(p) => ReadingOnlySettles(s, p);
    case AppOpen(f) =>
    case AppClose(f) =>
  }

  // ------------------------------------------------------------------
  // The failing try_lock is reachable

  lemma {:induction false} ExecAppend(s: State, steps: seq<Step>, step: Step)
    requires Valid(s, steps) && FreshRun(s, steps)
    requires Enabled(Exec(s, steps), step) && FreshStep(Exec(s, steps), step)
    ensures Valid(s, steps + [step]) && FreshRun(s, steps + [step])
    ensures Exec(s, steps + [step]) == Apply(Exec(s, steps), step)
    decreases |steps|
  {
    if steps == [] {
      assert ([] + [step])[1..] == [];
    } else {
      ExecAppend(Apply(s, steps[0]), steps[1..], step);
      assert (steps + [step])[1..] == steps[1..] + [step];
    }
  }

  lemma Next(s: State, step: Step) returns (t: State)
    requires Reachable(s) && Enabled(s, step) && FreshStep(s, step)
    ensures t == Apply(s, step) && Reachable(t)
  {
    var s0, steps :| Init(s0) && Valid(s0, steps) && FreshRun(s0, steps) && s == Exec(s0, steps);
    ExecAppend(s0, steps, step);
    t := Apply(s, step);
    assert t == Exec(s0, steps + [step]);
  }

  /** A run in which an interface exists. */
  lemma ConstructedRun() returns (s: State)
    ensures Reachable(s)
    ensures s == State(false, None, 1, 1, EMPTY_MAPS, {}, Ready, [], [], map[], {}, 1)
  {
    s := State(false, None, 0, 0, EMPTY_MAPS, {}, Absent, [], [], map[], {}, 1);
    assert Init(s) && Exec(s, []) == s && FreshRun(s, []);
    s := Next(s, Cleaning(IConstruct));
  }

  /** ... and is ready to read. */
  lemma InterfaceRun() returns (s: State)
    ensures Reachable(s)
    ensures s == State(false, None, 1, 1, EMPTY_MAPS, {}, Reading, [], [], map[], {}, 1)
  {
    s := ConstructedRun();
    hide Reachable;
    s := Next(s, Cleaning(IBeginCleanup));
    s := Next(s, Cleaning(IDummiesCleaned));
    s := Next(s, Cleaning(IClosuresCleaned));
  }

  /** ... and accepted a connection with descriptor 5. */
  lemma ConnectedRun() returns (s: State)
    ensures Reachable(s)
    ensures s == State(false, None, 1, 1, AddConnection(EMPTY_MAPS, 5, 0), {}, Reading,
                       [Conn(5, true, None, false, false, [], [], [], [], 0)], [], map[5 := Socket(0)], {}, 1)
  {
    s := InterfaceRun();
    s := Next(s, Accepting(IAcceptCall(5)));
    s := Next(s, Accepting(IAcceptRecord));
  }

  /** ... and its only request was handed to the application. */
  lemma AssignedRun(close: bool) returns (s: State)
    ensures Reachable(s) && !s.terminated && s.im == None && s.ipc == Reading
    ensures s.generation == 1 && s.identifier == 1 && s.settled == {} && s.os == map[5 := Socket(0)]
    ensures s.reqs == [Req(1, 1, Key(5, 1), 0, close, false, false, 0, Idle)]
    ensures s.conns == [Conn(5, true, None, false, false, [], [], [], [], 0)]
    ensures Key(5, 1) in s.maps.requestMap && s.maps.writeMutex == map[5 := 0]
    ensures s.maps.requestMap[Key(5, 1)] == Entry(true, false, false, close, 0)
    ensures 5 in s.maps.recordStatus && s.maps.closure == {} && s.maps.dummy == {} && !s.maps.bad
  {
    s := ConnectedRun();
    s := Next(s, Accepting(IHeader(5, 1, true)));
    s := Next(s, Accepting(IAdmit(5, false, [])));
    s := Next(s, Accepting(IAdd(close)));
    s := Next(s, Accepting(IAssign(Key(5, 1))));
  }

  /** ... and wants to answer, having passed its tests. */
  lemma CheckedRun() returns (s: State)
    ensures Reachable(s) && !s.terminated && s.im == Some(Request(0)) && !s.maps.bad && s.ipc == Reading
    ensures s.reqs == [Req(1, 1, Key(5, 1), 0, false, false, false, 0, WantW(false, [7, 8]))]
    ensures s.conns == [Conn(5, true, None, false, false, [], [], [], [], 0)]
    ensures 5 in s.maps.recordStatus && s.maps.closure == {} && s.maps.dummy == {}
  {
    s := AssignedRun(false);
    s := Next(s, RequestThread(0, RStart(Write([7, 8]))));
    s := Next(s, RequestThread(0, RLockI));
    s := Next(s, RequestThread(0, RCheck));
  }

  /** ... and is being answered. */
  lemma WritingRun() returns (s: State)
    ensures Reachable(s) && !s.terminated && s.im == None && !s.maps.bad && s.ipc == Reading
    ensures s.reqs == [Req(1, 1, Key(5, 1), 0, false, false, false, 0, Writing(false, [7, 8], 0))]
    ensures s.conns == [Conn(5, true, Some(Request(0)), false, false, [], [], [], [], 0)]
    ensures 5 in s.maps.recordStatus && s.maps.closure == {} && s.maps.dummy == {}
  {
    s := CheckedRun();
    s := Next(s, RequestThread(0, RLockW));
    s := Next(s, RequestThread(0, RCheckFlag));
  }

  /** The client closes its connection while a request writes on it: the reading
      code schedules it, RemoveConnection finds the mutex held, and the
      interface becomes bad. */
  lemma TryLockCanFail()
    ensures exists s, fd :: Reachable(s) && CanRemoveConn(s, fd) && !s.maps.bad && s.faults == {}
                         && RemoveConn(s, fd, true).maps.bad
  {
    var s := WritingRun();
    s := Next(s, Accepting(ISchedule(5)));
    s := Next(s, Accepting(IFinishReading));
    s := Next(s, Cleaning(IBeginCleanup));
    s := Next(s, Cleaning(IDummiesCleaned));
    ReachableInv(s);
    assert FdOk(s, 5) && ReqOk(s, 0);
    assert RemoveConn(s, 5, true).maps.bad;
  }

  /** The same write can succeed ... */
  lemma DeliveredRun() returns (s: State)
    ensures Reachable(s) && s.conns == [Conn(5, true, None, false, false, [7, 8], [[7, 8]], [], [], 0)]
    ensures |s.reqs| == 1 && s.reqs[0].pc == Idle
  {
    s := WritingRun();
    var data: seq<byte> := [7, 8];
    assert data[0..] == data;
    var k := Emit(s.conns[0], data, 0, 2);
    assert k.out == data && k.whole == [data];
    s := Next(s, RequestThread(0, RSend(2)));
    assert s.conns == [k];
  }

  /** ... and it can be cut short by a time-out, which marks the connection. */
  lemma CutShortRun() returns (s: State)
    ensures Reachable(s) && |s.conns| == 1 && s.conns[0].out == [7] && s.conns[0].corrupt
    ensures Truncated(s.conns[0]) && !BeingWritten(s, 0)
  {
    s := WritingRun();
    var data: seq<byte> := [7, 8];
    assert data[0..1] == data[..1] == [7];
    s := Next(s, RequestThread(0, RSend(1)));
    s := Next(s, RequestThread(0, RFailWrite(Timeout)));
  }
}
