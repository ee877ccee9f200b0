/** What AbortStatus tells a request, by the steps of a run: whether the client has
    aborted it since it was handed over. */
module LockHistory {
  import opened Bytes
  import opened InterfaceMaps
  import opened Wrappers
  import opened LockProtocol
  import opened LockInvariant
  import opened LockRequestProofs
  import opened LockTheorems
  import opened LockDuties

  // ------------------------------------------------------------------
  // A request over a step

  /** What stays of a request while others act, and whatever it does itself. */
  predicate SameRequest(q: Req, p: Req) {
    p == q.(completed := p.completed, wasAborted := p.wasAborted, removals := p.removals, pc := p.pc)
  }

  predicate LiveHere(s: State, q: Req) {
    Current(s, q) && Live(q)
  }

  lemma EndedStaysEnded(s: State, r: nat, p: RequestStep)
    requires r < |s.reqs| && ReqOk(s, r) && RequestStepEnabled(s, r, p) && !Live(s.reqs[r])
    ensures r < |RequestStepApply(s, r, p).reqs| && !Live(RequestStepApply(s, r, p).reqs[r])
  {
    hide RemoveRequest, Emit, Abandon, IdentityOk, LocksOk, LiveOk;
  }

  lemma OwnStep(s: State, r: nat, p: RequestStep)
    requires Inv(s) && RequestStepEnabled(s, r, p) && (p.RCheck? ==> Fresh(s, s.reqs[r]))
    ensures var t := RequestStepApply(s, r, p);
            && |t.reqs| == |s.reqs| && SameRequest(s.reqs[r], t.reqs[r])
            && (forall o :: 0 <= o < |s.reqs| && o != r ==> t.reqs[o] == s.reqs[o])
            && t.generation == s.generation && t.identifier == s.identifier
            && (Live(t.reqs[r]) ==> Live(s.reqs[r]))
  {
    InvAround(s, r);
    RequestStepKept(s, r, p);
    if !Live(s.reqs[r]) { EndedStaysEnded(s, r, p); }
    hide RequestStepApply, RequestStepEnabled, ConnFrame, MapsFrame, ReqOk, ConnOk, FdOk;
  }

  lemma InterfaceLeavesRequests(s: State, step: Step)
    requires Inv(s) && Enabled(s, step) && !step.RequestThread?
    ensures var t := Apply(s, step);
            && s.reqs <= t.reqs && s.generation <= t.generation
            && (t.generation == s.generation ==> t.identifier == s.identifier || t.identifier == 0)
  {
    match step
    case Cleaning(p) =>
      if !p.IConstruct? {
        CleanupOnward(s, p);
        hide CleanupStepApply;
      }
    case Accepting(p) =>
      if !p.IAssign? {
        ReadingOnward(s, p);
        hide ReadingStepApply;
      }
    case _ =>
  }

  /** A request that has ended, or whose interface is gone, stays so. */
  lemma RequestOverStep(s: State, step: Step, r: nat)
    requires Inv(s) && Enabled(s, step) && FreshStep(s, step) && r < |s.reqs|
    ensures var t := Apply(s, step);
            && r < |t.reqs| && SameRequest(s.reqs[r], t.reqs[r])
            && ((step.RequestThread? && step.r == r) || t.reqs[r] == s.reqs[r])
            && (LiveHere(t, t.reqs[r]) ==> LiveHere(s, s.reqs[r]) && step != Cleaning(IConstruct))
  {
    assert ReqOk(s, r);
    if step.RequestThread? { OwnStep(s, step.r, step.request); } else { InterfaceLeavesRequests(s, step); }
    hide Inv, LocksOk, LiveOk, PcOk;
  }

  // ------------------------------------------------------------------
  // The mark that the client has aborted

  predicate Marks(step: Step, key: Key) {
    step == Accepting(IMarkAborted(key))
  }

  /** The interface thread handled an abort record for the assigned request `key`. */
  predicate AbortedIn(steps: seq<Step>, key: Key) {
    exists k :: 0 <= k < |steps| && Marks(steps[k], key)
  }

  lemma AbortedInMore(steps: seq<Step>, key: Key)
    requires steps != []
    ensures AbortedIn(steps, key) <==> Marks(steps[0], key) || AbortedIn(steps[1..], key)
  {
    if AbortedIn(steps, key) {
      var k :| 0 <= k < |steps| && Marks(steps[k], key);
      assert k > 0 ==> Marks(steps[1..][k - 1], key);
    }
    if AbortedIn(steps[1..], key) {
      var k :| 0 <= k < |steps[1..]| && Marks(steps[1..][k], key);
      assert Marks(steps[k + 1], key);
    }
  }

  predicate MarkedAlike(m: map<Key, Entry>, n: map<Key, Entry>, key: Key, marks: bool) {
    key in m && key in n && m[key].isAssigned ==> (n[key].clientAbort <==> m[key].clientAbort || marks)
  }

  lemma CleanupMarks(s: State, p: CleanupStep, key: Key)
    requires CleanupStepEnabled(s, p)
    ensures MarkedAlike(s.maps.requestMap, CleanupStepApply(s, p).maps.requestMap, key, false)
  {
    if p.IRemoveConn? {
      RemovalMap(s, p.fd, p.dup2Works);
      hide RemoveConn;
    } else {
      hide CloseSocket, KeysOn;
    }
  }

  lemma ReadingMarks(s: State, p: ReadingStep, key: Key)
    requires ReadingStepEnabled(s, p)
    ensures MarkedAlike(s.maps.requestMap, ReadingStepApply(s, p).maps.requestMap, key, p == IMarkAborted(key))
  {
    if Updates(p) {
      UpdatedIs(s, p);
      hide ReadingStepApply;
    } else {
      hide CloseSocket, Emit, Abandon;
    }
  }

  lemma StepMarks(s: State, step: Step, key: Key)
    requires Inv(s) && Enabled(s, step) && FreshStep(s, step)
    ensures MarkedAlike(s.maps.requestMap, Apply(s, step).maps.requestMap, key, Marks(step, key))
  {
    match step
    case RequestThread(r, p) =>
      InvAround(s, r);
      RequestStepKept(s, r, p);
      hide RequestStepApply, RequestStepEnabled, Inv, ReqOk, ConnOk, FdOk;
    case Cleaning(p) => CleanupMarks(s, p, key);
    case Accepting(p) => ReadingMarks(s, p, key);
    case _ =>
  }

  // ------------------------------------------------------------------
  // Over runs

  /** While the request lives in its interface, its entry is marked iff `aborted`. */
  predicate MarkedIff(s: State, r: nat, aborted: bool)
    requires r < |s.reqs|
  {
    LiveHere(s, s.reqs[r]) ==>
      s.reqs[r].key in s.maps.requestMap && (s.maps.requestMap[s.reqs[r].key].clientAbort <==> aborted)
  }

  lemma MarkedIffStep(s: State, step: Step, r: nat, aborted: bool)
    requires Inv(s) && Enabled(s, step) && FreshStep(s, step) && r < |s.reqs| && MarkedIff(s, r, aborted)
    ensures var t := Apply(s, step);
            && r < |t.reqs| && t.reqs[r].key == s.reqs[r].key
            && MarkedIff(t, r, aborted || Marks(step, s.reqs[r].key))
  {
    var t := Apply(s, step);
    RequestOverStep(s, step, r);
    StepMarks(s, step, s.reqs[r].key);
    StepInv(s, step);
    assert ReqOk(s, r) && ReqOk(t, r);
    hide Inv, Apply, Enabled, IdentityOk, LocksOk, PcOk, Live;
  }

  lemma {:induction false} MarkedIffRun(s: State, steps: seq<Step>, r: nat, aborted: bool)
    requires Inv(s) && Valid(s, steps) && FreshRun(s, steps) && r < |s.reqs| && MarkedIff(s, r, aborted)
    ensures var t := Exec(s, steps);
            && r < |t.reqs| && t.reqs[r].key == s.reqs[r].key
            && MarkedIff(t, r, aborted || AbortedIn(steps, s.reqs[r].key))
    decreases |steps|
  {
    if steps != [] {
      var key := s.reqs[r].key;
      MarkedIffStep(s, steps[0], r, aborted);
      StepInv(s, steps[0]);
      AbortedInMore(steps, key);
      MarkedIffRun(Apply(s, steps[0]), steps[1..], r, aborted || Marks(steps[0], key));
    }
  }

  /** The step after the hand-over of the request `key`, and the run from there. */
  ghost predicate AfterAssignment(s: State, key: Key, t: State, r: nat, steps: seq<Step>, u: State) {
    && Reachable(s) && Enabled(s, Accepting(IAssign(key))) && t == Apply(s, Accepting(IAssign(key)))
    && r == |s.reqs| && Valid(t, steps) && FreshRun(t, steps) && u == Exec(t, steps)
  }

  lemma AssignedUnmarked(s: State, key: Key)
    requires Inv(s) && Duties(s) && Enabled(s, Accepting(IAssign(key)))
    ensures var t := Apply(s, Accepting(IAssign(key)));
            |t.reqs| == |s.reqs| + 1 && t.reqs[|s.reqs|].key == key && MarkedIff(t, |s.reqs|, false)
  {
    hide PendingOk, ReqOk, ConnOk, OweOk, CorruptOk;
    assert key.fd in s.maps.requestCount && key.fd !in s.maps.dummy;
  }

  lemma MarkedSinceAssignment(s: State, key: Key, t: State, r: nat, steps: seq<Step>, u: State)
    requires AfterAssignment(s, key, t, r, steps, u)
    ensures Inv(u) && Duties(u) && r < |u.reqs| && u.reqs[r].key == key && MarkedIff(u, r, AbortedIn(steps, key))
  {
    ReachableDuties(s);
    AssignedUnmarked(s, key);
    StepInv(s, Accepting(IAssign(key)));
    DutiesStep(s, Accepting(IAssign(key)));
    hide Inv, Duties, Apply, Enabled, Reachable;
    MarkedIffRun(t, steps, r, false);
    DutiesRun(t, steps);
  }

  /** What the tests of AbortStatus find out. */
  lemma AbortChecked(s: State, r: nat)
    requires Around(s, r) && CanCheck(s, r) && s.reqs[r].pc.op.Abort? && Fresh(s, s.reqs[r]) && Live(s.reqs[r])
    ensures var q, e, p := s.reqs[r], s.maps.requestMap, Check(s, r).reqs;
            && r < |p| && p[r].pc == Idle
            && (Current(s, q) ==> q.key in e)
            && (Current(s, q) && !s.maps.bad && !e[q.key].closedByInterface ==>
                  !p[r].completed && p[r].wasAborted == e[q.key].clientAbort)
            && (!(Current(s, q) && !s.maps.bad && !e[q.key].closedByInterface) ==> p[r].completed && p[r].wasAborted)
  {
    IdentityTest(s, s.reqs[r]);
    hide MapsOk, ConnOk, FdOk, RemoveRequest, RemovalFails;
  }

  /** The answer of AbortStatus: while its interface is in order and its connection not
      closed, a request is told that it was aborted iff its client has aborted it
      since it was handed over; otherwise it is told that it was, and has ended. */
  lemma AbortStatusTells(s: State, key: Key, t: State, r: nat, steps: seq<Step>, u: State)
    requires AfterAssignment(s, key, t, r, steps, u)
    requires Enabled(u, RequestThread(r, RCheck)) && u.reqs[r].pc == Checking(Abort)
    requires FreshStep(u, RequestThread(r, RCheck))
    ensures var after := Apply(u, RequestThread(r, RCheck)).reqs; var q := u.reqs[r];
            && r < |after| && after[r].pc == Idle
            && (Current(u, q) ==> key in u.maps.requestMap)
            && if Current(u, q) && !u.maps.bad && !u.maps.requestMap[key].closedByInterface then
                 !after[r].completed && (after[r].wasAborted <==> AbortedIn(steps, key))
               else
                 after[r].completed && after[r].wasAborted
  {
    MarkedSinceAssignment(s, key, t, r, steps, u);
    InvAround(u, r);
    hide AfterAssignment, Inv, Duties, Check;
    assert Live(u.reqs[r]);
    AbortChecked(u, r);
  }

  /** At any time a request of the existing interface that reports an abort was
      aborted by its client. */
  lemma ReportedAbortsHappened(s: State, key: Key, t: State, r: nat, steps: seq<Step>, u: State)
    requires AfterAssignment(s, key, t, r, steps, u)
    ensures r < |u.reqs| && u.reqs[r].key == key
    ensures Current(u, u.reqs[r]) && Live(u.reqs[r]) && u.reqs[r].wasAborted ==> AbortedIn(steps, key)
  {
    MarkedSinceAssignment(s, key, t, r, steps, u);
    assert OweOk(u, r);
  }
}
