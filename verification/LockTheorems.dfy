/** What the lock protocol guarantees on every run. */
module LockTheorems {
  import opened Bytes
  import opened InterfaceMaps
  import opened Wrappers
  import opened LockProtocol
  import opened LockInvariant
  import opened LockRequestProofs
  import opened LockInterfaceProofs
  import opened LockCleanupProofs

  // ------------------------------------------------------------------
  // Every step, every run

  /** Whenever a request tests the interface identity, the test is meaningful. */
  predicate FreshStep(s: State, step: Step)
    requires Enabled(s, step)
  {
    step.RequestThread? && step.request.RCheck? ==> Fresh(s, s.reqs[step.r])
  }

  predicate FreshRun(s: State, steps: seq<Step>)
    requires Valid(s, steps)
    decreases |steps|
  {
    steps == [] || (FreshStep(s, steps[0]) && FreshRun(Apply(s, steps[0]), steps[1..]))
  }

  lemma CleaningInv(s: State, step: CleanupStep)
    requires Inv(s) && CleanupStepEnabled(s, step)
    ensures Inv(CleanupStepApply(s, step))
  {
    match step
    case IConstruct => ConstructInv(s);
    case IBeginCleanup => BeginCleanupInv(s);
    case ICleanDummy(fd) => CleanDummyInv(s, fd);
    case IDummiesCleaned => DummiesCleanedInv(s);
    case IAbandonCleanup => AbandonCleanupInv(s);
    case IRemoveConn(fd, works) => RemoveConnInv(s, fd, works);
    case IClosuresCleaned => ClosuresCleanedInv(s);
    case IBeginDestroy => BeginDestroyInv(s);
    case ICloseDummy(fd) => CloseDummyInv(s, fd);
    case IDummiesClosed => DummiesClosedInv(s);
    case IDestroyLockI => DestroyLockIInv(s);
    case ICloseConn(fd) => CloseConnInv(s, fd);
    case IConnectionsClosed => ConnectionsClosedInv(s);
    case IDismantle => DismantleInv(s);
  }

  lemma ReadingInv(s: State, step: ReadingStep)
    requires Inv(s) && ReadingStepEnabled(s, step)
    ensures Inv(ReadingStepApply(s, step))
  {
    match step
    case IHeader(fd, id, begin) => HeaderInv(s, fd, id, begin);
    case IAdmit(fd, overload, data) => AdmitInv(s, fd, overload, data);
    case IAdd(close) => AddInv(s, close);
    case IReject(key, data) => RejectInv(s, key, data);
    case IMarkAborted(key) => MarkAbortedInv(s, key);
    case ISchedule(fd) => ScheduleInv(s, fd);
    case IAssign(key) => AssignInv(s, key);
    case IReply(fd, data) => ReplyInv(s, fd, data);
    case IFinishReading => FinishReadingInv(s);
    case ISendLockW => SendLockWInv(s);
    case ISendCheckFlag => SendCheckFlagInv(s);
    case ISendBytes(n) => SendBytesInv(s, n);
    case ISendFail(e) => SendFailInv(s, e);
    case ISendLockI => SendLockIInv(s);
    case ISendLockW2 => SendLockW2Inv(s);
    case ISendInserted => SendInsertedInv(s);
    case IAcceptCall(fd) => AcceptCallInv(s, fd);
    case IAcceptReject => AcceptRejectInv(s);
    case IAcceptRecord => AcceptRecordInv(s);
  }

  lemma StepInv(s: State, step: Step)
    requires Inv(s) && Enabled(s, step) && FreshStep(s, step)
    ensures Inv(Apply(s, step))
  {
    match step
    case RequestThread(r, p) =>
      InvAround(s, r);
      RequestStepKept(s, r, p);
      RequestStepInv(s, Apply(s, step), r);
    case Cleaning(p) => CleaningInv(s, p);
    case Accepting(p) => ReadingInv(s, p);
    case AppOpen(fd) => AppStepInv(s, Apply(s, step), fd);
    case AppClose(fd) => AppStepInv(s, Apply(s, step), fd);
  }

  /** The invariant holds throughout every run from a state in which it holds. */
  lemma {:induction false} RunInv(s: State, steps: seq<Step>)
    requires Inv(s) && Valid(s, steps) && FreshRun(s, steps)
    ensures Inv(Exec(s, steps))
    decreases |steps|
  {
    if steps != [] {
      StepInv(s, steps[0]);
      RunInv(Apply(s, steps[0]), steps[1..]);
    }
  }

  /** The states of all runs from program start with meaningful identity tests. */
  ghost predicate Reachable(s: State) {
    exists s0, steps :: Init(s0) && Valid(s0, steps) && FreshRun(s0, steps) && s == Exec(s0, steps)
  }

  lemma ReachableInv(s: State)
    requires Reachable(s)
    ensures Inv(s)
  {
    var s0, steps :| Init(s0) && Valid(s0, steps) && FreshRun(s0, steps) && s == Exec(s0, steps);
    InitInv(s0);
    RunInv(s0, steps);
  }

  /** A program that creates at most 2^64 - 1 interfaces only has such runs. */
  lemma {:induction false} FewInterfaces(s: State, steps: seq<Step>)
    requires Inv(s) && Valid(s, steps) && Exec(s, steps).generation <= MAX_IDENTIFIER
    ensures s.generation <= MAX_IDENTIFIER && FreshRun(s, steps) && Inv(Exec(s, steps))
    decreases |steps|
  {
    if steps != [] {
      GenerationsGrow(Apply(s, steps[0]), steps[1..]);
      GenerationGrows(s, steps[0]);
      if steps[0].RequestThread? {
        assert ReqOk(s, steps[0].r);
      }
      StepInv(s, steps[0]);
      FewInterfaces(Apply(s, steps[0]), steps[1..]);
    }
  }

  lemma RequestsKeepGeneration(s: State, r: nat, p: RequestStep)
    requires RequestStepEnabled(s, r, p)
    ensures RequestStepApply(s, r, p).generation == s.generation
  {
    hide RemoveRequest, Emit, Abandon;
  }

  lemma ReadingKeepsGeneration(s: State, p: ReadingStep)
    requires ReadingStepEnabled(s, p)
    ensures ReadingStepApply(s, p).generation == s.generation
  {
    hide RemoveRequest, InterfaceMaps.AddRequest, AddConnection, Emit, Abandon, CloseSocket;
  }

  lemma GenerationGrows(s: State, step: Step)
    requires Enabled(s, step)
    ensures s.generation <= Apply(s, step).generation
  {
    match step
    case RequestThread(r, p) => RequestsKeepGeneration(s, r, p);
    case Cleaning(p) =>
    case Accepting(p) => ReadingKeepsGeneration(s, p);
    case AppOpen(fd) =>
    case AppClose(fd) =>
  }

  lemma {:induction false} GenerationsGrow(s: State, steps: seq<Step>)
    requires Valid(s, steps)
    ensures s.generation <= Exec(s, steps).generation
    decreases |steps|
  {
    if steps != [] {
      GenerationGrows(s, steps[0]);
      GenerationsGrow(Apply(s, steps[0]), steps[1..]);
    }
  }

  // ------------------------------------------------------------------
  // No misuse of memory, mutexes or descriptors

  /** No run uses request data, a mutex or a descriptor after its end, closes
      what it does not own, destroys a held mutex, or takes a branch that the
      original reports as a logic error. The users of request data are the requests
      and the single updates of the interface thread; the entry that the reader
      caches from one update to the next is not among them, see
      RecordHistory.ExposedByHeaders. */
  lemma NoFaults(s: State)
    requires Reachable(s)
    ensures s.faults == {}
  {
    ReachableInv(s);
  }

  /** Inside a write loop the descriptor still denotes the socket of the
      request, the interface that owns the mutex exists, and the request is
      still in its map; the same holds for the interface's own writes. */
  lemma WritersOwnTheirSocket(s: State)
    requires Reachable(s)
    ensures forall r :: 0 <= r < |s.reqs| && s.reqs[r].pc.Writing? ==>
              var q := s.reqs[r];
              && Denotes(s.os, q.key.fd, q.conn) && q.conn < |s.conns|
              && s.conns[q.conn].mutexAlive && s.conns[q.conn].owner == Some(Request(r))
              && Current(s, q) && q.key in s.maps.requestMap && q.key.fd !in s.maps.dummy
    ensures s.ipc.Sending? ==>
              && s.ipc.conn < |s.conns| && Denotes(s.os, s.ipc.fd, s.ipc.conn)
              && s.conns[s.ipc.conn].owner == Some(Interface)
  {
    ReachableInv(s);
    forall r | 0 <= r < |s.reqs| && s.reqs[r].pc.Writing?
      ensures var q := s.reqs[r];
              && Denotes(s.os, q.key.fd, q.conn) && q.conn < |s.conns|
              && s.conns[q.conn].mutexAlive && s.conns[q.conn].owner == Some(Request(r))
              && Current(s, q) && q.key in s.maps.requestMap && q.key.fd !in s.maps.dummy
    {
      assert ReqOk(s, r) && FdOk(s, s.reqs[r].key.fd);
    }
    if s.ipc.Sending? {
      assert FdOk(s, s.ipc.fd) && ConnOk(s, s.ipc.conn);
    }
  }

  // ------------------------------------------------------------------
  // The byte stream of a connection

  /** What a client received is a sequence of whole batches followed by a proper
      prefix of one more; without an ongoing write such a prefix means that the
      connection is marked corrupt or broken. */
  lemma WholeBatchesThenATruncatedOne(s: State, c: nat)
    requires Reachable(s) && c < |s.conns|
    ensures var k := s.conns[c];
            && k.out == Flatten(k.whole) + k.partial
            && (Truncated(k) ==> |k.partial| < |k.batch| && k.partial == k.batch[..|k.partial|])
            && (Truncated(k) ==> k.corrupt || k.epipe || BeingWritten(s, c))
  {
    ReachableInv(s);
    assert ConnOk(s, c);
  }

  predicate Finished(s: State, c: nat) {
    c < |s.conns| && (s.conns[c].corrupt || s.conns[c].epipe)
  }

  predicate StaysFinished(s: State, t: State, c: nat)
    requires c < |s.conns|
  {
    Finished(t, c) && t.conns[c].out == s.conns[c].out
  }

  /** A request writes only while its connection is neither corrupt nor broken. */
  lemma FinishedRequestStep(s: State, c: nat, r: nat, p: RequestStep)
    requires r < |s.reqs| && ReqOk(s, r) && Finished(s, c) && RequestStepEnabled(s, r, p)
    ensures StaysFinished(s, RequestStepApply(s, r, p), c)
  {
    match p
    case RSend(n) =>
    case RFailWrite(e) =>
    case _ =>
  }

  lemma ClosingSendsNothing(conns: seq<Conn>, os: map<Fd, File>, fd: Fd, c: nat)
    requires c < |conns|
    ensures |CloseSocket(conns, os, fd)| == |conns|
    ensures CloseSocket(conns, os, fd)[c] == conns[c].(closes := CloseSocket(conns, os, fd)[c].closes)
  {
  }

  lemma FinishedCleanupStep(s: State, c: nat, p: CleanupStep)
    requires Finished(s, c) && CleanupStepEnabled(s, p)
    ensures StaysFinished(s, CleanupStepApply(s, p), c)
  {
    match p
    case ICleanDummy(fd) => ClosingSendsNothing(s.conns, s.os, fd, c);
    case IRemoveConn(fd, works) => FinishedRemoveConn(s, c, fd, works);
    case ICloseDummy(fd) => ClosingSendsNothing(s.conns, s.os, fd, c);
    case ICloseConn(fd) => ClosingSendsNothing(s.conns, s.os, fd, c);
    case _ =>
  }

  lemma FinishedRemoveConn(s: State, c: nat, fd: Fd, works: bool)
    requires Finished(s, c) && CanRemoveConn(s, fd)
    ensures StaysFinished(s, RemoveConn(s, fd, works), c)
  {
    ClosingSendsNothing(s.conns, s.os, fd, c);
    if fd in s.maps.writeMutex {
      var d := s.maps.writeMutex[fd];
      ClosingSendsNothing(s.conns[d := s.conns[d].(mutexAlive := false)], s.os, fd, c);
    }
  }

  lemma FinishedReadingStep(s: State, c: nat, p: ReadingStep)
    requires IPcOk(s) && Finished(s, c) && ReadingStepEnabled(s, p)
    ensures StaysFinished(s, ReadingStepApply(s, p), c)
  {
    hide RemoveRequest, AddRequest, AddConnection;
    assert !s.conns[c].corrupt ==> s.conns[c].epipe;
  }

  lemma FinishedStep(s: State, c: nat, step: Step)
    requires Inv(s) && Finished(s, c) && Enabled(s, step)
    ensures StaysFinished(s, Apply(s, step), c)
  {
    match step
    case RequestThread(r, p) =>
      assert ReqOk(s, r);
      FinishedRequestStep(s, c, r, p);
    case Cleaning(p) => FinishedCleanupStep(s, c, p);
    case Accepting(p) => FinishedReadingStep(s, c, p);
    case AppOpen(fd) =>
    case AppClose(fd) =>
  }

  lemma {:induction false} FinishedForever(s: State, c: nat, steps: seq<Step>)
    requires Inv(s) && Finished(s, c) && Valid(s, steps) && FreshRun(s, steps)
    ensures StaysFinished(s, Exec(s, steps), c)
    decreases |steps|
  {
    if steps != [] {
      FinishedStep(s, c, steps[0]);
      StepInv(s, steps[0]);
      FinishedForever(Apply(s, steps[0]), c, steps[1..]);
    }
  }

  /** After a truncated batch no thread ever sends another byte. */
  lemma NothingAfterATruncatedBatch(s: State, c: nat, steps: seq<Step>)
    requires Reachable(s) && c < |s.conns| && Truncated(s.conns[c]) && !BeingWritten(s, c)
    requires Valid(s, steps) && FreshRun(s, steps)
    ensures c < |Exec(s, steps).conns| && Exec(s, steps).conns[c].out == s.conns[c].out
  {
    ReachableInv(s);
    assert ConnOk(s, c);
    FinishedForever(s, c, steps);
  }
}
