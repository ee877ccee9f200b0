/** What becomes of the data that a request is asked to send, and of the replies of
    the interface thread, over the steps of a run. */
module LockDelivery {
  import opened Bytes
  import opened InterfaceMaps
  import opened Wrappers
  import opened LockProtocol
  import opened LockInvariant
  import opened LockRequestProofs
  import opened LockTheorems
  import opened LockDuties
  import opened LockHistory

  // ------------------------------------------------------------------
  // What a run asks of a request, and what its thread sends

  function StartOf(step: Step, r: nat): seq<Op> {
    if step.RequestThread? && step.r == r && step.request.RStart? then [step.request.op] else []
  }

  /** The operations that the application starts on request r. */
  function Started(steps: seq<Step>, r: nat): seq<Op> {
    if steps == [] then [] else StartOf(steps[0], r) + Started(steps[1..], r)
  }

  predicate HasData(op: Op) {
    op.Write? || op.End?
  }

  /** The data to be sent by several operations, in order. */
  function DataOf(ops: seq<Op>): seq<seq<byte>> {
    if ops == [] then []
    else DataOf(ops[..|ops| - 1]) + if HasData(ops[|ops| - 1]) then [ops[|ops| - 1].data] else []
  }

  function Last(ops: seq<Op>): Op
    requires ops != []
  {
    ops[|ops| - 1]
  }

  function BeforeLast(ops: seq<Op>): seq<Op>
    requires ops != []
  {
    ops[..|ops| - 1]
  }

  lemma StartedOne(ops: seq<Op>, op: Op)
    ensures Last(ops + [op]) == op && BeforeLast(ops + [op]) == ops
  {
  }

  /** What the client of connection c has received in full since `before`. */
  function NewlyWhole(before: seq<Conn>, after: seq<Conn>, c: nat): seq<seq<byte>> {
    if c < |before| && c < |after| && |before[c].whole| <= |after[c].whole|
    then after[c].whole[|before[c].whole|..] else []
  }

  function SentByStep(s: State, r: nat, p: RequestStep): seq<seq<byte>>
    requires RequestStepEnabled(s, r, p)
  {
    NewlyWhole(s.conns, RequestStepApply(s, r, p).conns, s.reqs[r].conn)
  }

  function SentIn(s: State, step: Step, r: nat): seq<seq<byte>>
    requires Enabled(s, step)
  {
    if step.RequestThread? && step.r == r then SentByStep(s, r, step.request) else []
  }

  /** The batches that the thread of request r transferred whole. */
  function SentBy(s: State, steps: seq<Step>, r: nat): seq<seq<byte>>
    requires Valid(s, steps)
    decreases |steps|
  {
    if steps == [] then [] else SentIn(s, steps[0], r) + SentBy(Apply(s, steps[0]), steps[1..], r)
  }

  /** A batch is transferred whole with its last byte, and with nothing else. */
  lemma RequestSends(s: State, r: nat, p: RequestStep)
    requires RequestStepEnabled(s, r, p)
    ensures var q := s.reqs[r];
            SentByStep(s, r, p) == if p.RSend? && q.pc.done + p.n == |q.pc.data| then [q.pc.data] else []
  {
    if !p.RSend? && !p.RFailWrite? { OnlyWritersWrite(s, r, p); }
    hide RequestStepApply;
  }

  // ------------------------------------------------------------------
  // How far an operation is

  /** The interface of the request is gone or in a bad state, or its connection is
      removed, scheduled for closure, spoiled or closed by the peer. */
  predicate Excused(s: State, q: Req) {
    || !Current(s, q) || s.maps.bad || Scheduled(s, q)
    || (q.conn < |s.conns| && (s.conns[q.conn].corrupt || s.conns[q.conn].epipe))
  }

  predicate InOperation(pc: Pc, ops: seq<Op>, sent: seq<seq<byte>>)
    requires ops != []
  {
    var last, before := Last(ops), DataOf(BeforeLast(ops));
    match pc
    case WantI(op) => (if op.Fail? then HasData(last) else last == op) && sent == before
    case Checking(op) => (if op.Fail? then HasData(last) else last == op) && sent == before
    case FailBody(_) => HasData(last) && sent == before
    case WantW(held, data) => last == (if held then End(data) else Write(data)) && sent == before
    case HasBoth(held, data) => last == (if held then End(data) else Write(data)) && sent == before
    case Writing(held, data, _) => last == (if held then End(data) else Write(data)) && sent == before
    case EndRemove => last.End? && sent == DataOf(ops)
    case DestroyRemove => last.Destroy? && sent == DataOf(ops)
    case WantWToInsert(who) => Inserting(who, last, ops, sent)
    case HasWToInsert(who) => Inserting(who, last, ops, sent)
    case BareInsert(who) => Inserting(who, last, ops, sent)
    case _ => true
  }

  predicate Inserting(who: Inserter, last: Op, ops: seq<Op>, sent: seq<seq<byte>>)
    requires ops != []
  {
    match who
    case ByWriter => HasData(last) && sent == DataOf(BeforeLast(ops))
    case ByEnd => last.End? && sent == DataOf(ops)
    case ByDestructor => last.Destroy? && sent == DataOf(ops)
  }

  /** The ways in which a request comes to its end. */
  predicate Outcome(q: Req, excused: bool, ops: seq<Op>, sent: seq<seq<byte>>) {
    ops != []
    && ((q.completed && Last(ops).End? && sent == DataOf(ops))
        || (!q.completed && Last(ops).Destroy? && sent == DataOf(ops))
        || (q.completed && q.wasAborted && sent == DataOf(BeforeLast(ops)) && excused))
  }

  predicate Progress(q: Req, excused: bool, ops: seq<Op>, sent: seq<seq<byte>>) {
    if q.pc.Dead? || (q.pc.Idle? && q.completed) then Outcome(q, excused, ops, sent)
    else if q.pc.Idle? then sent == DataOf(ops) && (ops == [] || Last(ops).Write? || Last(ops).Abort?)
    else
      && ops != [] && InOperation(q.pc, ops, sent)
      && ((q.pc.WantWToInsert? || q.pc.HasWToInsert? || q.pc.BareInsert?) && q.pc.who.ByWriter? ==> q.wasAborted)
  }

  // ------------------------------------------------------------------
  // Steps of the request

  /** The request after a step, in a state that excuses it or not. */
  ghost predicate GoesOn(s: State, r: nat, t: State, ops: seq<Op>, sent: seq<seq<byte>>) {
    r < |s.reqs| && r < |t.reqs| && Progress(t.reqs[r], Excused(t, t.reqs[r]), ops, sent)
  }

  lemma StartGoesOn(s: State, r: nat, op: Op, ops: seq<Op>, sent: seq<seq<byte>>)
    requires CanStart(s, r, op) && Progress(s.reqs[r], Excused(s, s.reqs[r]), ops, sent)
    ensures GoesOn(s, r, Start(s, r, op), ops + [op], sent)
  {
    StartedOne(ops, op);
    hide DataOf, Excused;
  }

  /** Steps that only move on. */
  lemma MoveGoesOn(s: State, r: nat, p: RequestStep, ops: seq<Op>, sent: seq<seq<byte>>)
    requires RequestStepEnabled(s, r, p) && Progress(s.reqs[r], Excused(s, s.reqs[r]), ops, sent)
    requires p.RDrop? || p.RLockI? || p.RLockW? || p.RReleaseTemporary?
    ensures GoesOn(s, r, RequestStepApply(s, r, p), ops, sent)
  {
    hide DataOf;
  }

  /** What the tests leave of a request. */
  function Checked(s: State, r: nat): Req
    requires CanCheck(s, r)
  {
    var q := s.reqs[r];
    if !Current(s, q) || s.maps.bad then
      if q.pc.op.Destroy? then q.(pc := Dead) else GiveUp(q)
    else if q.key !in s.maps.requestMap || Withdraws(s, q, s.maps.requestMap[q.key]) then
      GiveUp(q).(removals := q.removals + 1)
    else
      Passed(q, s.maps.requestMap[q.key])
  }

  lemma CheckIs(s: State, r: nat)
    requires Around(s, r) && CanCheck(s, r) && Fresh(s, s.reqs[r])
    ensures r < |Check(s, r).reqs| && Check(s, r).reqs[r] == Checked(s, r)
    ensures Current(s, s.reqs[r]) && !s.maps.bad ==> s.reqs[r].key in s.maps.requestMap
  {
    var q := s.reqs[r];
    IdentityTest(s, q);
    if Current(s, q) && !s.maps.bad { CheckEntryIs(s, r, s.maps.requestMap[q.key]); }
    hide MapsOk, ConnOk, FdOk, CheckEntry, RemoveRequest, RemovalFails, Withdraws, Passed;
  }

  predicate GaveUp(s: State, q: Req) {
    || !Current(s, q) || s.maps.bad || q.key !in s.maps.requestMap
    || Doomed(s, q.key, s.maps.requestMap[q.key])
  }

  lemma WithoutData(ops: seq<Op>)
    requires ops != [] && !HasData(Last(ops))
    ensures DataOf(ops) == DataOf(BeforeLast(ops))
  {
    assert DataOf(BeforeLast(ops)) + [] == DataOf(BeforeLast(ops));
  }

  lemma PassedGoesOn(q: Req, e: Entry, excused: bool, ops: seq<Op>, sent: seq<seq<byte>>)
    requires ops != [] && q.pc.Checking? && InOperation(q.pc, ops, sent) && !q.completed
    ensures Progress(Passed(q, e), excused, ops, sent)
  {
    if !HasData(Last(ops)) { WithoutData(ops); }
    hide DataOf;
  }

  lemma GivenUpGoesOn(q: Req, ops: seq<Op>, sent: seq<seq<byte>>)
    requires ops != [] && q.pc.Checking? && InOperation(q.pc, ops, sent) && !q.completed
    ensures Progress(GiveUp(q), true, ops, sent) && Progress(GiveUp(q).(removals := q.removals + 1), true, ops, sent)
    ensures q.pc.op.Destroy? ==> Progress(q.(pc := Dead), true, ops, sent)
  {
    if !HasData(Last(ops)) { WithoutData(ops); }
    hide DataOf;
  }

  lemma CheckedGoesOn(s: State, r: nat, excused: bool, ops: seq<Op>, sent: seq<seq<byte>>)
    requires CanCheck(s, r) && Progress(s.reqs[r], Excused(s, s.reqs[r]), ops, sent) && !s.reqs[r].completed
    requires GaveUp(s, s.reqs[r]) ==> excused
    ensures Progress(Checked(s, r), excused, ops, sent)
  {
    var q := s.reqs[r];
    GivenUpGoesOn(q, ops, sent);
    if q.key in s.maps.requestMap { PassedGoesOn(q, s.maps.requestMap[q.key], excused, ops, sent); }
    hide Current, Excused, Progress, Passed, GiveUp, Doomed, InOperation;
  }

  lemma ExcusedKept(s: State, t: State, q: Req, p: Req)
    requires Keeps(s, t) && SameRequest(q, p) && Excused(s, q)
    ensures Excused(t, p)
  {
  }

  lemma CheckedSame(s: State, r: nat)
    requires CanCheck(s, r)
    ensures SameRequest(s.reqs[r], Checked(s, r))
  {
  }

  lemma GivenUpIsExcused(s: State, r: nat)
    requires Around(s, r) && CanCheck(s, r) && Fresh(s, s.reqs[r]) && GaveUp(s, s.reqs[r])
    ensures Excused(Check(s, r), Checked(s, r))
  {
    var q := s.reqs[r];
    hide ReqOk, ConnOk, FdOk, MapsOk, Check, Scheduled, Passed, Withdraws;
    assert SameRequest(q, Checked(s, r)) by { CheckedSame(s, r); }
    hide Checked;
    CheckIs(s, r);
    CheckKeeps(s, r);
    assert Excused(s, q) by {
      if Current(s, q) && !s.maps.bad { DoomedIsScheduled(s, q); }
    }
    hide Excused, GaveUp;
    ExcusedKept(s, Check(s, r), q, Checked(s, r));
  }

  lemma CheckGoesOn(s: State, r: nat, ops: seq<Op>, sent: seq<seq<byte>>)
    requires Around(s, r) && CanCheck(s, r) && Fresh(s, s.reqs[r])
    requires Progress(s.reqs[r], Excused(s, s.reqs[r]), ops, sent)
    ensures GoesOn(s, r, Check(s, r), ops, sent)
  {
    assert PcOk(s, s.reqs[r]);
    hide Excused, GaveUp, Progress, Checked, MapsOk, ConnOk, FdOk, IdentityOk, LocksOk, LiveOk;
    CheckIs(s, r);
    if GaveUp(s, s.reqs[r]) { GivenUpIsExcused(s, r); }
    hide Check, Around;
    CheckedGoesOn(s, r, Excused(Check(s, r), Checked(s, r)), ops, sent);
  }

  lemma FlagGoesOn(s: State, r: nat, ops: seq<Op>, sent: seq<seq<byte>>)
    requires CanCheckFlag(s, r) && Progress(s.reqs[r], Excused(s, s.reqs[r]), ops, sent)
    ensures GoesOn(s, r, CheckFlag(s, r), ops, sent)
  {
    hide RemoveRequest, RemovalFails, DataOf;
  }

  lemma SendGoesOn(s: State, r: nat, n: nat, ops: seq<Op>, sent: seq<seq<byte>>)
    requires CanSend(s, r, n) && Progress(s.reqs[r], Excused(s, s.reqs[r]), ops, sent) && Live(s.reqs[r])
    ensures GoesOn(s, r, Send(s, r, n), ops, sent + SentByStep(s, r, RSend(n)))
  {
    RequestSends(s, r, RSend(n));
    assert sent + [] == sent;
    hide Emit, Excused, SentByStep;
  }

  lemma FailGoesOn(s: State, r: nat, p: RequestStep, ops: seq<Op>, sent: seq<seq<byte>>)
    requires r < |s.reqs| && OweOk(s, r) && RequestStepEnabled(s, r, p) && (p.RFailWrite? || p.RFailBody?)
    requires Progress(s.reqs[r], Excused(s, s.reqs[r]), ops, sent)
    ensures GoesOn(s, r, RequestStepApply(s, r, p), ops, sent)
  {
    hide RemoveRequest, RemovalFails, DataOf;
  }

  lemma InsertGoesOn(s: State, r: nat, pipe: PipeWrite, ops: seq<Op>, sent: seq<seq<byte>>)
    requires r < |s.reqs| && ReqOk(s, r) && CanInsert(s, r)
    requires Progress(s.reqs[r], Excused(s, s.reqs[r]), ops, sent)
    ensures GoesOn(s, r, Insert(s, r, pipe), ops, sent)
  {
    hide DataOf;
  }

  lemma RemoveGoesOn(s: State, r: nat, p: RequestStep, ops: seq<Op>, sent: seq<seq<byte>>)
    requires r < |s.reqs| && ReqOk(s, r) && RequestStepEnabled(s, r, p) && (p.REndRemove? || p.RDestroyRemove?)
    requires Progress(s.reqs[r], Excused(s, s.reqs[r]), ops, sent)
    ensures GoesOn(s, r, RequestStepApply(s, r, p), ops, sent)
  {
    hide RemoveRequest, RemovalFails, DataOf, Excused;
  }

  /** Steps that neither start an operation nor transfer bytes. */
  lemma OtherGoesOn(s: State, r: nat, p: RequestStep, ops: seq<Op>, sent: seq<seq<byte>>)
    requires Around(s, r) && OweOk(s, r) && RequestStepEnabled(s, r, p) && (p.RCheck? ==> Fresh(s, s.reqs[r]))
    requires Progress(s.reqs[r], Excused(s, s.reqs[r]), ops, sent) && !p.RStart? && !p.RSend?
    ensures GoesOn(s, r, RequestStepApply(s, r, p), ops, sent)
  {
    assert ReqOk(s, r);
    hide GoesOn, Progress, Excused, Around, OweOk, ReqOk;
    match p
    case RCheck => CheckGoesOn(s, r, ops, sent);
    case RCheckFlag => FlagGoesOn(s, r, ops, sent);
    case RFailWrite(_) => FailGoesOn(s, r, p, ops, sent);
    case RFailBody => FailGoesOn(s, r, p, ops, sent);
    case RInsert(pipe) => InsertGoesOn(s, r, pipe, ops, sent);
    case REndRemove => RemoveGoesOn(s, r, p, ops, sent);
    case RDestroyRemove => RemoveGoesOn(s, r, p, ops, sent);
    case _ => MoveGoesOn(s, r, p, ops, sent);
  }

  lemma OwnProgress(s: State, r: nat, p: RequestStep, ops: seq<Op>, sent: seq<seq<byte>>)
    requires Around(s, r) && OweOk(s, r) && RequestStepEnabled(s, r, p) && (p.RCheck? ==> Fresh(s, s.reqs[r]))
    requires Progress(s.reqs[r], Excused(s, s.reqs[r]), ops, sent)
    ensures GoesOn(s, r, RequestStepApply(s, r, p), ops + StartOf(RequestThread(r, p), r), sent + SentByStep(s, r, p))
  {
    RequestSends(s, r, p);
    assert PcOk(s, s.reqs[r]) && ops + [] == ops && sent + [] == sent;
    hide GoesOn, Progress, Excused, SentByStep, Around, OweOk;
    match p
    case RStart(op) => StartGoesOn(s, r, op, ops, sent);
    case RSend(n) => SendGoesOn(s, r, n, ops, sent);
    case _ => OtherGoesOn(s, r, p, ops, sent);
  }

  // ------------------------------------------------------------------
  // Every run

  lemma ExcusesStay(s: State, step: Step, q: Req, p: Req)
    requires Inv(s) && Enabled(s, step) && FreshStep(s, step) && OwnOk(s, q) && SameRequest(q, p)
    requires q.generation <= s.generation && Excused(s, q)
    ensures Excused(Apply(s, step), p)
  {
    var t := Apply(s, step);
    if step != Cleaning(IConstruct) {
      StepOnward(s, step);
      hide Apply, Inv, EntriesOnward;
      if Scheduled(s, q) { StaysScheduled(s, t, q); }
    }
  }

  ghost predicate Under(s: State, r: nat, ops: seq<Op>, sent: seq<seq<byte>>) {
    GoesOn(s, r, s, ops, sent)
  }

  lemma UnderStep(s: State, step: Step, r: nat, ops: seq<Op>, sent: seq<seq<byte>>)
    requires Inv(s) && Duties(s) && Enabled(s, step) && FreshStep(s, step) && Under(s, r, ops, sent)
    ensures Under(Apply(s, step), r, ops + StartOf(step, r), sent + SentIn(s, step, r))
  {
    assert ReqOk(s, r) && OweOk(s, r);
    if step.RequestThread? && step.r == r {
      InvAround(s, r);
      OwnProgress(s, r, step.request, ops, sent);
    } else {
      RequestOverStep(s, step, r);
      if Excused(s, s.reqs[r]) { ExcusesStay(s, step, s.reqs[r], s.reqs[r]); }
      hide Inv, Duties, Apply, Enabled, Excused, OweOk, ReqOk;
      assert ops + [] == ops && sent + [] == sent;
    }
  }

  lemma {:induction false} UnderRun(s: State, steps: seq<Step>, r: nat, ops: seq<Op>, sent: seq<seq<byte>>)
    requires Inv(s) && Duties(s) && Valid(s, steps) && FreshRun(s, steps) && Under(s, r, ops, sent)
    ensures Under(Exec(s, steps), r, ops + Started(steps, r), sent + SentBy(s, steps, r))
    decreases |steps|
  {
    hide Under, Inv, Duties, StartOf, SentIn, Enabled, Apply, FreshStep;
    if steps == [] {
      assert ops + [] == ops && sent + [] == sent;
    } else {
      UnderStep(s, steps[0], r, ops, sent);
      StepInv(s, steps[0]);
      DutiesStep(s, steps[0]);
      var u := Apply(s, steps[0]);
      UnderRun(u, steps[1..], r, ops + StartOf(steps[0], r), sent + SentIn(s, steps[0], r));
      assert ops + StartOf(steps[0], r) + Started(steps[1..], r) == ops + Started(steps, r);
      assert sent + SentIn(s, steps[0], r) + SentBy(u, steps[1..], r) == sent + SentBy(s, steps, r);
    }
  }

  lemma AssignedUnder(s: State, key: Key)
    requires Inv(s) && Duties(s) && Enabled(s, Accepting(IAssign(key)))
    ensures Under(Apply(s, Accepting(IAssign(key))), |s.reqs|, [], [])
  {
    AssignedUnmarked(s, key);
    hide Inv, Duties;
  }

  lemma UnderSinceAssignment(s: State, key: Key, t: State, r: nat, steps: seq<Step>, u: State)
    requires AfterAssignment(s, key, t, r, steps, u)
    ensures Under(u, r, Started(steps, r), SentBy(t, steps, r))
  {
    ReachableDuties(s);
    hide Under, Inv, Duties, Enabled, Apply, Reachable;
    AssignedUnder(s, key);
    StepInv(s, Accepting(IAssign(key)));
    DutiesStep(s, Accepting(IAssign(key)));
    UnderRun(t, steps, r, [], []);
    assert [] + Started(steps, r) == Started(steps, r) && [] + SentBy(t, steps, r) == SentBy(t, steps, r);
  }

  /** Whatever the other threads do, a request sends the batches that it was asked to
      send, each once, in order and whole; at most the last is missing. Between
      operations a request that has not ended has sent all of them. It ends in one of
      three ways: as the application asked, with everything sent; by destruction, with
      everything sent before; or aborted, for want of an interface or a connection. */
  lemma BatchesAreSent(s: State, key: Key, t: State, r: nat, steps: seq<Step>, u: State)
    requires AfterAssignment(s, key, t, r, steps, u)
    ensures r < |u.reqs|
    ensures var q, ops, sent := u.reqs[r], Started(steps, r), SentBy(t, steps, r);
            && (sent == DataOf(ops) || (ops != [] && sent == DataOf(BeforeLast(ops))))
            && (q.pc == Idle && !q.completed ==>
                  sent == DataOf(ops) && (ops != [] ==> !Last(ops).End? && !Last(ops).Destroy?))
            && ((q.pc == Idle && q.completed) || q.pc == Dead ==>
                  && ops != []
                  && ((q.completed && Last(ops).End? && sent == DataOf(ops))
                      || (!q.completed && Last(ops).Destroy? && sent == DataOf(ops))
                      || (q.completed && q.wasAborted && sent == DataOf(BeforeLast(ops))
                          && (!Current(u, q) || u.maps.bad || q.key.fd in u.maps.closure || !OwnsSocket(u, q)
                              || (q.conn < |u.conns| && (u.conns[q.conn].corrupt || u.conns[q.conn].epipe))))))
  {
    UnderSinceAssignment(s, key, t, r, steps, u);
    hide AfterAssignment, DataOf;
    var ops := Started(steps, r);
  }

  // ------------------------------------------------------------------
  // Replies

  /** The interface thread is inside SendRecord. */
  predicate InReply(ipc: IPc) {
    ipc.SendWantW? || ipc.SendHasW? || ipc.Sending? || ipc.SendFailed? || ipc.SendWantW2? || ipc.SendInsert?
  }

  /** All steps are taken before SendRecord returns. */
  predicate Replying(s: State, steps: seq<Step>)
    requires Valid(s, steps)
    decreases |steps|
  {
    steps == [] || (InReply(s.ipc) && Replying(Apply(s, steps[0]), steps[1..]))
  }

  function RepliedByStep(s: State, p: ReadingStep, c: nat): seq<seq<byte>>
    requires ReadingStepEnabled(s, p)
  {
    NewlyWhole(s.conns, ReadingStepApply(s, p).conns, c)
  }

  function RepliedIn(s: State, step: Step, c: nat): seq<seq<byte>>
    requires Enabled(s, step)
  {
    if step.Accepting? then RepliedByStep(s, step.reading, c) else []
  }

  /** The batches that the interface thread transferred whole on connection c. */
  function RepliedBy(s: State, steps: seq<Step>, c: nat): seq<seq<byte>>
    requires Valid(s, steps)
    decreases |steps|
  {
    if steps == [] then [] else RepliedIn(s, steps[0], c) + RepliedBy(Apply(s, steps[0]), steps[1..], c)
  }

  predicate ReplyStands(s: State, fd: Fd, c: nat, data: seq<byte>, sent: seq<seq<byte>>) {
    if InReply(s.ipc) then
      && sent == [] && s.ipc.fd == fd && s.ipc.conn == c
      && (s.ipc.SendWantW? || s.ipc.SendHasW? || s.ipc.Sending? ==> s.ipc.data == data)
    else ReplyOver(s, fd, c, data, sent)
  }

  predicate ReplyOver(s: State, fd: Fd, c: nat, data: seq<byte>, sent: seq<seq<byte>>) {
    && s.ipc == Reading
    && (sent == [data]
        || (sent == [] && (data == [] || (c < |s.conns| && s.conns[c].corrupt) || fd in s.maps.closure)))
  }

  lemma ReplyReadingStep(s: State, p: ReadingStep, fd: Fd, c: nat, data: seq<byte>)
    requires ReadingStepEnabled(s, p) && InReply(s.ipc) && ReplyStands(s, fd, c, data, []) && c < |s.conns|
    ensures ReplyStands(ReadingStepApply(s, p), fd, c, data, RepliedByStep(s, p, c))
  {
  }

  lemma ReplyStep(s: State, step: Step, fd: Fd, c: nat, data: seq<byte>)
    requires Inv(s) && Enabled(s, step) && FreshStep(s, step) && c < |s.conns|
    requires InReply(s.ipc) && ReplyStands(s, fd, c, data, [])
    ensures ReplyStands(Apply(s, step), fd, c, data, RepliedIn(s, step, c)) && c < |Apply(s, step).conns|
  {
    if step != Cleaning(IConstruct) { StepOnward(s, step); }
    match step
    case RequestThread(r, p) =>
      InvAround(s, r);
      RequestStepKept(s, r, p);
      hide RequestStepApply;
    case Accepting(p) =>
      ReplyReadingStep(s, p, fd, c, data);
      hide ReadingStepApply, ReplyStands;
    case _ =>
  }

  lemma {:induction false} ReplyRun(s: State, steps: seq<Step>, fd: Fd, c: nat, data: seq<byte>, sent: seq<seq<byte>>)
    requires Inv(s) && Valid(s, steps) && FreshRun(s, steps) && Replying(s, steps) && c < |s.conns|
    requires ReplyStands(s, fd, c, data, sent)
    ensures ReplyStands(Exec(s, steps), fd, c, data, sent + RepliedBy(s, steps, c))
    decreases |steps|
  {
    hide Inv, Enabled, Apply, FreshStep, RepliedIn, ReplyOver;
    if steps == [] {
      assert sent + [] == sent;
    } else {
      ReplyStep(s, steps[0], fd, c, data);
      StepInv(s, steps[0]);
      var more, u := RepliedIn(s, steps[0], c), Apply(s, steps[0]);
      ReplyRun(u, steps[1..], fd, c, data, more);
      assert sent + (more + RepliedBy(u, steps[1..], c)) == more + RepliedBy(u, steps[1..], c);
    }
  }

  /** A reply is transferred whole and once before the interface thread goes on to
      read, unless it is empty, the connection is spoiled, or the connection was
      scheduled for closure because the reply could not be sent. */
  lemma RepliesAreSent(s: State, steps: seq<Step>)
    requires Reachable(s) && s.ipc.SendWantW? && Valid(s, steps) && FreshRun(s, steps) && Replying(s, steps)
    requires !InReply(Exec(s, steps).ipc)
    ensures var t, fd, c, sent := Exec(s, steps), s.ipc.fd, s.ipc.conn, RepliedBy(s, steps, s.ipc.conn);
            && t.ipc == Reading
            && (sent == [s.ipc.data]
                || (sent == [] && (s.ipc.data == [] || (c < |t.conns| && t.conns[c].corrupt)
                                   || fd in t.maps.closure)))
  {
    ReachableInv(s);
    ReplyRun(s, steps, s.ipc.fd, s.ipc.conn, s.ipc.data, []);
    assert [] + RepliedBy(s, steps, s.ipc.conn) == RepliedBy(s, steps, s.ipc.conn);
  }
}
