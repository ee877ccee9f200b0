/** What a client receives, as records: every sender writes whole records, and the
    lock protocol keeps the batches of different senders apart. */
module LockRecords {
  import opened Bytes
  import opened FcgiRecords
  import opened InterfaceMaps
  import opened Wrappers
  import opened LockProtocol
  import opened LockInvariant
  import opened LockRequestProofs
  import opened LockTheorems

  predicate WholeRecords(data: seq<byte>) {
    Unparsed(data) == []
  }

  predicate AllWhole(batches: seq<seq<byte>>) {
    forall i :: 0 <= i < |batches| ==> WholeRecords(batches[i])
  }

  /** The records of several batches, in order. */
  function RecordsOf(batches: seq<seq<byte>>): seq<Record> {
    if batches == [] then [] else RecordsOf(batches[..|batches| - 1]) + Parse(batches[|batches| - 1])
  }

  // ------------------------------------------------------------------
  // Senders of whole records

  predicate OpFramed(op: Op) {
    op.Write? || op.End? ==> WholeRecords(op.data)
  }

  predicate PcFramed(pc: Pc) {
    match pc
    case WantI(op) => OpFramed(op)
    case Checking(op) => OpFramed(op)
    case WantW(_, data) => WholeRecords(data)
    case HasBoth(_, data) => WholeRecords(data)
    case Writing(_, data, _) => WholeRecords(data)
    case _ => true
  }

  predicate IPcFramed(ipc: IPc) {
    ipc.SendWantW? || ipc.SendHasW? || ipc.Sending? ==> WholeRecords(ipc.data)
  }

  predicate ConnFramed(k: Conn) {
    AllWhole(k.whole) && (Truncated(k) ==> WholeRecords(k.batch))
  }

  predicate ReqsFramed(reqs: seq<Req>) {
    forall r :: 0 <= r < |reqs| ==> PcFramed(reqs[r].pc)
  }

  predicate ConnsFramed(conns: seq<Conn>) {
    forall c :: 0 <= c < |conns| ==> ConnFramed(conns[c])
  }

  predicate Framed(s: State) {
    ReqsFramed(s.reqs) && ConnsFramed(s.conns) && IPcFramed(s.ipc)
  }

  /** The operation that starts here sends whole records, as all of the library's
      encoders produce. */
  predicate StepFramed(step: Step) {
    match step
    case RequestThread(_, RStart(op)) => OpFramed(op)
    case Accepting(IAdmit(_, _, data)) => WholeRecords(data)
    case Accepting(IReject(_, data)) => WholeRecords(data)
    case Accepting(IReply(_, data)) => WholeRecords(data)
    case _ => true
  }

  predicate AllStepsFramed(steps: seq<Step>) {
    forall k :: 0 <= k < |steps| ==> StepFramed(steps[k])
  }

  // ------------------------------------------------------------------
  // Every step

  lemma EmitFramed(k: Conn, data: seq<byte>, done: nat, n: nat)
    requires ConnFramed(k) && WholeRecords(data) && done + n <= |data|
    ensures ConnFramed(Emit(k, data, done, n))
  {
    hide WholeRecords;
  }

  /** Where a request is after leaving, moving on, or removing its entry. */
  lemma PcAfter(s: State, r: nat, q: Req, pc: Pc)
    requires r < |s.reqs|
    ensures |Goto(s, r, pc).reqs| == |Leave(s, r, q).reqs| == |RemoveOwn(s, r, q).reqs| == |s.reqs|
    ensures Goto(s, r, pc).reqs[r].pc == pc && Leave(s, r, q).reqs[r].pc == q.pc == RemoveOwn(s, r, q).reqs[r].pc
  {
    hide RemoveRequest;
  }

  lemma WithdrawnPc(s: State, r: nat)
    requires r < |s.reqs|
    ensures r < |Withdraw(s, r).reqs| && Withdraw(s, r).reqs[r].pc == Idle
  {
    hide RemoveOwn;
    PcAfter(s, r, GiveUp(s.reqs[r]), Idle);
  }

  lemma CheckEntryPcFramed(s: State, r: nat, e: Entry)
    requires CanCheck(s, r) && PcFramed(s.reqs[r].pc)
    ensures r < |CheckEntry(s, r, e).reqs| && PcFramed(CheckEntry(s, r, e).reqs[r].pc)
  {
    hide WholeRecords, Withdraw, Doomed, Leave;
    WithdrawnPc(s, r);
    PcAfter(s, r, s.reqs[r].(wasAborted := e.clientAbort, pc := Idle), Idle);
  }

  lemma CheckPcFramed(s: State, r: nat)
    requires CanCheck(s, r) && PcFramed(s.reqs[r].pc)
    ensures r < |Check(s, r).reqs| && PcFramed(Check(s, r).reqs[r].pc)
  {
    var q := s.reqs[r];
    PcAfter(s, r, GiveUp(q), Idle);
    PcAfter(s, r, q.(pc := Dead), Idle);
    if OwnsEntry(s, r) {
      CheckEntryPcFramed(s, r, s.maps.requestMap[q.key]);
    }
    hide CheckEntry, Leave, PcFramed;
    assert PcFramed(Idle) && PcFramed(Dead);
  }

  lemma SendPcFramed(s: State, r: nat, n: nat)
    requires CanSend(s, r, n) && PcFramed(s.reqs[r].pc)
    ensures r < |Send(s, r, n).reqs| && PcFramed(Send(s, r, n).reqs[r].pc)
  {
    hide WholeRecords, Emit;
  }

  lemma RemovalPcFramed(s: State, r: nat, p: RequestStep)
    requires RequestStepEnabled(s, r, p) && PcFramed(s.reqs[r].pc)
    requires p.RFailBody? || p.REndRemove? || p.RDestroyRemove?
    ensures r < |RequestStepApply(s, r, p).reqs| && PcFramed(RequestStepApply(s, r, p).reqs[r].pc)
  {
    hide WholeRecords, RemoveRequest;
  }

  lemma FlagPcFramed(s: State, r: nat)
    requires CanCheckFlag(s, r) && PcFramed(s.reqs[r].pc)
    ensures r < |CheckFlag(s, r).reqs| && PcFramed(CheckFlag(s, r).reqs[r].pc)
  {
    hide WholeRecords, Withdraw;
    WithdrawnPc(SetOwner(s, s.reqs[r].conn, None), r);
  }

  lemma RequestPcFramed(s: State, r: nat, p: RequestStep)
    requires RequestStepEnabled(s, r, p) && PcFramed(s.reqs[r].pc) && StepFramed(RequestThread(r, p))
    ensures r < |RequestStepApply(s, r, p).reqs| && PcFramed(RequestStepApply(s, r, p).reqs[r].pc)
  {
    match p
    case RCheck => CheckPcFramed(s, r);
    case RSend(n) => SendPcFramed(s, r, n);
    case RStart(_) =>
    case RDrop =>
    case RLockI =>
    case RLockW =>
    case RCheckFlag => FlagPcFramed(s, r);
    case RInsert(_) =>
    case RFailWrite(_) =>
    case RReleaseTemporary =>
    case _ => RemovalPcFramed(s, r, p);
  }

  lemma RequestConnFramed(s: State, r: nat, p: RequestStep)
    requires RequestStepEnabled(s, r, p) && PcFramed(s.reqs[r].pc)
    requires s.reqs[r].conn < |s.conns| && ConnFramed(s.conns[s.reqs[r].conn])
    ensures var c, t := s.reqs[r].conn, RequestStepApply(s, r, p);
            c < |t.conns| && ConnFramed(t.conns[c])
  {
    if p.RSend? {
      EmitFramed(s.conns[s.reqs[r].conn], s.reqs[r].pc.data, s.reqs[r].pc.done, p.n);
    }
    hide WholeRecords, AllWhole, RemoveRequest, Emit;
    assert !p.RSend? ==> ConnFramed(RequestStepApply(s, r, p).conns[s.reqs[r].conn]);
  }

  lemma RequestStepFramed(s: State, r: nat, p: RequestStep)
    requires Inv(s) && RequestStepEnabled(s, r, p) && (p.RCheck? ==> Fresh(s, s.reqs[r]))
    requires Framed(s) && StepFramed(RequestThread(r, p))
    ensures Framed(RequestStepApply(s, r, p))
  {
    InvAround(s, r);
    RequestStepKept(s, r, p);
    RequestPcFramed(s, r, p);
    RequestConnFramed(s, r, p);
    hide Inv, PcFramed, ConnFramed, IPcFramed, RequestStepApply, RequestStepEnabled;
    var t := RequestStepApply(s, r, p);
    assert ReqsFramed(t.reqs) && ConnsFramed(t.conns) && t.ipc == s.ipc;
  }

  predicate SameBytes(k: Conn, l: Conn) {
    l.whole == k.whole && l.partial == k.partial && l.batch == k.batch
  }

  /** Nothing is sent; a new connection has received nothing. */
  predicate NothingSent(before: seq<Conn>, after: seq<Conn>) {
    && |before| <= |after|
    && (forall c :: 0 <= c < |before| ==> SameBytes(before[c], after[c]))
    && (forall c :: |before| <= c < |after| ==> after[c].whole == [] && after[c].partial == [])
  }

  lemma ClosingIsSilent(conns: seq<Conn>, os: map<Fd, File>, fd: Fd)
    ensures NothingSent(conns, CloseSocket(conns, os, fd))
  {
  }

  lemma RemoveConnIsSilent(s: State, fd: Fd, works: bool)
    requires CanRemoveConn(s, fd)
    ensures NothingSent(s.conns, RemoveConn(s, fd, works).conns) && RemoveConn(s, fd, works).reqs == s.reqs
  {
    hide RemoveConnection, CleanupRequests, AssignedOn, CloseSocket;
    ClosingIsSilent(s.conns, s.os, fd);
    if fd in s.maps.writeMutex {
      var c := s.maps.writeMutex[fd];
      ClosingIsSilent(s.conns[c := s.conns[c].(mutexAlive := false)], s.os, fd);
    }
  }

  lemma CleanupIsSilent(s: State, p: CleanupStep)
    requires CleanupStepEnabled(s, p)
    ensures var t := CleanupStepApply(s, p);
            NothingSent(s.conns, t.conns) && t.reqs == s.reqs && IPcFramed(t.ipc)
  {
    hide RemoveConnection, CleanupRequests, DropDummy, CloseSocket, AssignedOn, WholeRecords;
    match p
    case ICleanDummy(fd) => ClosingIsSilent(s.conns, s.os, fd);
    case IRemoveConn(fd, works) => RemoveConnIsSilent(s, fd, works);
    case ICloseDummy(fd) => ClosingIsSilent(s.conns, s.os, fd);
    case ICloseConn(fd) => ClosingIsSilent(s.conns, s.os, fd);
    case _ =>
  }

  lemma SilentFramed(before: seq<Conn>, after: seq<Conn>)
    requires NothingSent(before, after) && ConnsFramed(before)
    ensures ConnsFramed(after)
  {
    hide WholeRecords;
  }

  lemma ReadingPcFramed(s: State, p: ReadingStep)
    requires ReadingStepEnabled(s, p) && Framed(s) && StepFramed(Accepting(p))
    ensures var t := ReadingStepApply(s, p); ReqsFramed(t.reqs) && IPcFramed(t.ipc)
  {
    hide WholeRecords, ConnsFramed, RemoveRequest, InterfaceMaps.AddRequest, AddConnection, Emit, Abandon, CloseSocket;
  }

  lemma ReadingConnsFramed(s: State, p: ReadingStep)
    requires ReadingStepEnabled(s, p) && Framed(s)
    ensures ConnsFramed(ReadingStepApply(s, p).conns)
  {
    var t := ReadingStepApply(s, p);
    match p
    case ISendBytes(n) => EmitFramed(s.conns[s.ipc.conn], s.ipc.data, s.ipc.done, n);
    case IAcceptReject =>
      ClosingIsSilent(s.conns, s.os, s.ipc.fd);
      SilentFramed(s.conns, t.conns);
    case IAcceptRecord =>
      ClosingIsSilent(s.conns, s.os, s.ipc.fd);
      SilentFramed(s.conns, t.conns);
    case ISendFail(_) => SilentFramed(s.conns, t.conns);
    case _ => ReadingIsSilent(s, p);
              SilentFramed(s.conns, t.conns);
  }

  lemma ReadingIsSilent(s: State, p: ReadingStep)
    requires ReadingStepEnabled(s, p) && !p.ISendBytes? && !p.IAcceptReject? && !p.IAcceptRecord?
    ensures NothingSent(s.conns, ReadingStepApply(s, p).conns)
  {
    hide RemoveRequest, InterfaceMaps.AddRequest;
  }

  lemma FramedStep(s: State, step: Step)
    requires Inv(s) && Enabled(s, step) && FreshStep(s, step) && Framed(s) && StepFramed(step)
    ensures Framed(Apply(s, step))
  {
    match step
    case RequestThread(r, p) => RequestStepFramed(s, r, p);
    case Cleaning(p) =>
      CleanupIsSilent(s, p);
      SilentFramed(s.conns, CleanupStepApply(s, p).conns);
    case Accepting(p) =>
      ReadingPcFramed(s, p);
      ReadingConnsFramed(s, p);
    case AppOpen(fd) =>
    case AppClose(fd) =>
  }

  lemma {:induction false} FramedRun(s: State, steps: seq<Step>)
    requires Inv(s) && Valid(s, steps) && FreshRun(s, steps) && Framed(s) && AllStepsFramed(steps)
    ensures Inv(Exec(s, steps)) && Framed(Exec(s, steps))
    decreases |steps|
  {
    if steps != [] {
      assert StepFramed(steps[0]);
      StepInv(s, steps[0]);
      FramedStep(s, steps[0]);
      FramedRun(Apply(s, steps[0]), steps[1..]);
    }
  }

  // ------------------------------------------------------------------
  // What the client received

  lemma {:induction false} FlattenRecords(batches: seq<seq<byte>>, rest: seq<byte>)
    requires AllWhole(batches)
    ensures Parse(Flatten(batches) + rest) == RecordsOf(batches) + Parse(rest)
    ensures Unparsed(Flatten(batches) + rest) == Unparsed(rest)
    decreases |batches|
  {
    hide Parse, Unparsed;
    if batches == [] {
      assert [] + rest == rest && RecordsOf(batches) + Parse(rest) == Parse(rest);
    } else {
      var init, last := batches[..|batches| - 1], batches[|batches| - 1];
      assert WholeRecords(last) && batches == init + [last];
      FlattenMore(init, last);
      assert Flatten(init) + last + rest == Flatten(init) + (last + rest);
      FlattenRecords(init, last + rest);
      ParseAppend(last, rest);
      assert RecordsOf(init) + (Parse(last) + Parse(rest)) == RecordsOf(init) + Parse(last) + Parse(rest);
    }
  }

  /** If all senders send whole records, then what a client received is the records
      of the whole batches, one batch after the other, then the first records of at
      most one more batch, and then a part of one record of that batch. */
  lemma ReceivedRecords(s0: State, steps: seq<Step>, c: nat)
    requires Init(s0) && Valid(s0, steps) && FreshRun(s0, steps) && AllStepsFramed(steps)
    requires c < |Exec(s0, steps).conns|
    ensures var k := Exec(s0, steps).conns[c];
            && AllWhole(k.whole)
            && Parse(k.out) == RecordsOf(k.whole) + Parse(k.partial)
            && Unparsed(k.out) == Unparsed(k.partial)
            && (Truncated(k) ==> WholeRecords(k.batch) && Parse(k.partial) < Parse(k.batch))
            && (!Truncated(k) ==> Unparsed(k.out) == [] && Parse(k.out) == RecordsOf(k.whole))
  {
    InitInv(s0);
    FramedRun(s0, steps);
    var s := Exec(s0, steps);
    var k := s.conns[c];
    assert ConnOk(s, c) && ConnFramed(k);
    FlattenRecords(k.whole, k.partial);
    if Truncated(k) {
      ProperPrefix(k.partial, k.batch);
    } else {
      assert Parse([]) == [] && RecordsOf(k.whole) + [] == RecordsOf(k.whole);
    }
  }

  lemma ProperPrefix(part: seq<byte>, batch: seq<byte>)
    requires |part| < |batch| && part == batch[..|part|] && WholeRecords(batch)
    ensures Parse(part) < Parse(batch)
  {
    var rest := batch[|part|..];
    assert batch == part + rest;
    ParseGrows(part, rest);
    var later := Unparsed(part) + rest;
    assert Unparsed(later) != later;
    assert Parse(later) != [];
  }

  /** Bytes that follow continue with the incomplete record. */
  lemma {:induction false} ParseGrows(a: seq<byte>, b: seq<byte>)
    ensures Parse(a + b) == Parse(a) + Parse(Unparsed(a) + b)
    ensures Unparsed(a + b) == Unparsed(Unparsed(a) + b)
    decreases |a|
  {
    if StartsWithRecord(a) {
      var n := RecordLength(a);
      var s := a + b;
      assert s[..HEADER_LEN] == a[..HEADER_LEN] && RecordLength(s) == n;
      assert s[n..] == a[n..] + b && FirstRecord(s) == FirstRecord(a);
      ParseGrows(a[n..], b);
    }
  }
}
