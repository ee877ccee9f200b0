/** What requests and connections owe: a true answer about aborts, the closure of a
    connection that was asked for or that a write has spoiled, and nothing more. */
module LockDuties {
  import opened Bytes
  import opened InterfaceMaps
  import opened Wrappers
  import opened LockProtocol
  import opened LockInvariant
  import opened LockRequestProofs
  import opened LockTheorems
  import opened LockDiscipline

  /** The connection of the request is scheduled for closure or already removed. */
  predicate Scheduled(s: State, q: Req) {
    q.key.fd in s.maps.closure || !OwnsSocket(s, q)
  }

  /** The request came to its end, and its thread has left the interface. */
  predicate Ended(q: Req) {
    !Live(q) && (q.pc.Idle? || q.pc.Dead?)
  }

  predicate InGoodInterface(s: State, q: Req) {
    Current(s, q) && !s.maps.bad
  }

  /** A write failed, and not because the peer had closed the connection. */
  predicate Scheduling(pc: Pc) {
    pc == WantI(Fail(true)) || pc == Checking(Fail(true)) || pc == FailBody(true)
    || pc == WantWToInsert(ByWriter) || pc == HasWToInsert(ByWriter)
  }

  /** The peer had closed it. */
  predicate Refused(pc: Pc) {
    pc == WantI(Fail(false)) || pc == Checking(Fail(false)) || pc == FailBody(false)
  }

  predicate InterfaceScheduling(ipc: IPc, c: nat) {
    (ipc.SendFailed? || ipc.SendWantW2? || ipc.SendInsert?) && ipc.conn == c
  }

  predicate RequestScheduling(s: State, r: nat, c: nat) {
    r < |s.reqs| && s.reqs[r].conn == c && Scheduling(s.reqs[r].pc)
  }

  /** Some thread is on its way to schedule connection c. */
  predicate OnTheWay(s: State, c: nat) {
    InterfaceScheduling(s.ipc, c) || exists r :: 0 <= r < |s.reqs| && RequestScheduling(s, r, c)
  }

  // ------------------------------------------------------------------
  // The invariant

  /** Active connections are those of requests of the existing interface, and a
      connection that was just accepted has no requests. */
  predicate OwnOk(s: State, q: Req) {
    && (OwnsSocket(s, q) ==> q.generation == s.generation)
    && (s.ipc.Accepted? ==> q.conn != s.ipc.conn)
  }

  /** A request knows what its entry says. */
  predicate EntryKnown(s: State, q: Req) {
    Current(s, q) && Live(q) && q.key in s.maps.requestMap ==>
      var e := s.maps.requestMap[q.key];
      e.closeConnection == q.closeConnection && (q.wasAborted ==> e.clientAbort)
  }

  /** A request that asks for the closure of its connection sees to it before it ends,
      unless it was aborted on a corrupt connection. */
  predicate ClosureOk(s: State, q: Req)
    requires q.conn < |s.conns|
  {
    InGoodInterface(s, q) && q.closeConnection && (Ended(q) || q.pc.DestroyRemove?) ==>
      Scheduled(s, q) || (Ended(q) && q.completed && q.wasAborted && s.conns[q.conn].corrupt)
  }

  predicate OweOk(s: State, r: nat)
    requires r < |s.reqs|
  {
    var q := s.reqs[r];
    && q.conn < |s.conns| && OwnOk(s, q) && EntryKnown(s, q) && ClosureOk(s, q)
    && (Refused(q.pc) ==> s.conns[q.conn].epipe)
  }

  predicate IsActive(s: State, c: nat)
    requires c < |s.conns|
  {
    s.conns[c].fd in s.maps.writeMutex && s.maps.writeMutex[s.conns[c].fd] == c
  }

  /** Only a connection with a truncated batch is marked corrupt, and a marked one is
      scheduled for closure or some thread is about to. */
  predicate CorruptOk(s: State, c: nat)
    requires c < |s.conns|
  {
    var k := s.conns[c];
    && (k.corrupt ==> Truncated(k) && !(s.ipc.Accepted? && s.ipc.conn == c))
    && (k.corrupt && IsActive(s, c) && !s.maps.bad && s.identifier != 0 ==>
          k.fd in s.maps.closure || OnTheWay(s, c))
  }

  /** Only an assigned request is marked as aborted. */
  predicate PendingUnmarked(s: State) {
    forall key :: key in s.maps.requestMap && !s.maps.requestMap[key].isAssigned ==>
      !s.maps.requestMap[key].clientAbort
  }

  ghost predicate Duties(s: State) {
    && (forall r :: 0 <= r < |s.reqs| ==> OweOk(s, r))
    && (forall c :: 0 <= c < |s.conns| ==> CorruptOk(s, c))
    && PendingUnmarked(s)
  }

  lemma InitDuties(s: State)
    requires Init(s)
    ensures Duties(s)
  {
  }

  // ------------------------------------------------------------------
  // What every step leaves to others

  predicate ConnOnward(k: Conn, l: Conn) {
    && l.fd == k.fd && (k.corrupt ==> l.corrupt && l.partial == k.partial) && (k.epipe ==> l.epipe)
  }

  predicate ConnsOnward(before: seq<Conn>, after: seq<Conn>) {
    |before| <= |after| && forall c :: 0 <= c < |before| ==> ConnOnward(before[c], after[c])
  }

  /** Connections join the active ones only after they were accepted, and leave the
      closure set only with them. */
  predicate FdsOnward(s: State, t: State) {
    && (forall fd :: fd in t.maps.writeMutex ==>
          || (fd in s.maps.writeMutex && t.maps.writeMutex[fd] == s.maps.writeMutex[fd])
          || (s.ipc.Accepted? && t.maps.writeMutex[fd] == s.ipc.conn))
    && (forall fd :: fd in s.maps.closure ==> fd in t.maps.closure || fd !in t.maps.writeMutex)
    && (t.ipc.Accepted? ==> t.ipc.conn >= |s.conns| || t.ipc == s.ipc)
  }

  predicate EntryOnward(m: map<Key, Entry>, n: map<Key, Entry>, key: Key)
    requires key in n
  {
    if n[key].isAssigned then
      key in m ==> n[key].closeConnection == m[key].closeConnection && (m[key].clientAbort ==> n[key].clientAbort)
    else n[key].clientAbort ==> key in m && !m[key].isAssigned && m[key].clientAbort
  }

  predicate EntriesOnward(m: map<Key, Entry>, n: map<Key, Entry>) {
    forall key :: key in n ==> EntryOnward(m, n, key)
  }

  predicate Onward(s: State, t: State) {
    && |s.reqs| <= |t.reqs| && t.generation == s.generation && (t.identifier == s.identifier || t.identifier == 0)
    && (s.maps.bad ==> t.maps.bad || t.identifier == 0)
    && ConnsOnward(s.conns, t.conns) && FdsOnward(s, t) && EntriesOnward(s.maps.requestMap, t.maps.requestMap)
  }

  /** A connection that was removed does not come back. */
  lemma OwnershipEnds(s: State, t: State, q: Req)
    requires Onward(s, t) && OwnOk(s, q) && OwnsSocket(t, q)
    ensures OwnsSocket(s, q)
  {
  }

  lemma StaysScheduled(s: State, t: State, q: Req)
    requires Onward(s, t) && OwnOk(s, q) && Scheduled(s, q)
    ensures Scheduled(t, q)
  {
  }

  lemma OthersOwe(s: State, t: State, r: nat)
    requires r < |s.reqs| && ReqOk(s, r) && OweOk(s, r) && Onward(s, t) && t.reqs[r] == s.reqs[r]
    requires forall key :: key in t.maps.requestMap && key in s.maps.requestMap && s.maps.requestMap[key].isAssigned ==>
               t.maps.requestMap[key].isAssigned
    ensures OweOk(t, r)
  {
    var q := s.reqs[r];
    assert ConnOnward(s.conns[q.conn], t.conns[q.conn]);
    if Scheduled(s, q) { StaysScheduled(s, t, q); }
    assert EntryKnown(t, q) by {
      if q.key in t.maps.requestMap { assert EntryOnward(s.maps.requestMap, t.maps.requestMap, q.key); }
    }
  }

  lemma OtherConnsOk(s: State, t: State, c: nat)
    requires c < |s.conns| && CorruptOk(s, c) && Onward(s, t)
    requires t.conns[c].corrupt ==> s.conns[c].corrupt
    requires OnTheWay(s, c) ==>
               OnTheWay(t, c) || t.conns[c].fd in t.maps.closure || !IsActive(t, c) || t.maps.bad || t.identifier == 0
    ensures CorruptOk(t, c)
  {
    assert ConnOnward(s.conns[c], t.conns[c]);
  }

  // ------------------------------------------------------------------
  // Steps of requests

  lemma RequestEntries(s: State, t: State, r: nat)
    requires r < |s.reqs| && s.reqs[r].conn < |s.conns| && RequestFrame(s, t, r)
    ensures EntriesOnward(s.maps.requestMap, t.maps.requestMap)
  {
  }

  /** Outside its write loop a request changes at most the owner of the mutex. */
  lemma OnlyWritersWrite(s: State, r: nat, p: RequestStep)
    requires RequestStepEnabled(s, r, p) && !p.RSend? && !p.RFailWrite?
    ensures var t := RequestStepApply(s, r, p);
            && |t.conns| == |s.conns|
            && (s.reqs[r].conn < |s.conns| ==> SameStream(s.conns[s.reqs[r].conn], t.conns[s.reqs[r].conn]))
  {
    if p.RCheck? {
      CheckKeeps(s, r);
    } else {
      hide RemoveRequest, OwnsEntry, RemovalFails, Check;
    }
  }

  lemma RequestConn(s: State, r: nat, p: RequestStep)
    requires r < |s.reqs| && ReqOk(s, r) && RequestStepEnabled(s, r, p)
    ensures var c, t := s.reqs[r].conn, RequestStepApply(s, r, p);
            && c < |t.conns| && ConnOnward(s.conns[c], t.conns[c])
            && (t.conns[c].corrupt && !s.conns[c].corrupt ==>
                  Truncated(t.conns[c]) && r < |t.reqs| && Scheduling(t.reqs[r].pc))
  {
    var q := s.reqs[r];
    if p.RFailWrite? {
      assert q.pc.done > 0 ==> q.pc.data[..q.pc.done] != [];
    } else if !p.RSend? {
      OnlyWritersWrite(s, r, p);
    }
    hide RequestStepApply, ReqOk, Emit;
  }

  lemma RequestOnward(s: State, r: nat, p: RequestStep)
    requires Near(s, r) && RequestStepEnabled(s, r, p) && Kept(s, RequestStepApply(s, r, p), r)
    ensures Onward(s, RequestStepApply(s, r, p))
  {
    RequestConn(s, r, p);
    hide RequestStepApply, RequestStepEnabled, ReqOk, ConnOk, FdOk, RequestFrame, Onward, ConnOnward;
    FrameOnward(s, RequestStepApply(s, r, p), r);
  }

  lemma FrameOnward(s: State, t: State, r: nat)
    requires r < |s.reqs| && s.reqs[r].conn < |s.conns| && RequestFrame(s, t, r)
    requires ConnOnward(s.conns[s.reqs[r].conn], t.conns[s.reqs[r].conn])
    ensures Onward(s, t)
  {
    RequestEntries(s, t, r);
    assert FdsOnward(s, t) by { hide ConnFrame, ConnOnward; }
    hide EntriesOnward, FdsOnward, ConnFrame, MapsFrame, ConnOnward;
    assert forall c :: 0 <= c < |s.conns| ==> ConnOnward(s.conns[c], t.conns[c]) by { ConnsReflexive(s.conns); }
  }

  lemma ConnsReflexive(conns: seq<Conn>)
    ensures forall c :: 0 <= c < |conns| ==> ConnOnward(conns[c], conns[c])
  {
  }

  lemma ClosedIsRemoved(m: Maps, key: Key, maxRequests: nat)
    requires MapsOk(m, maxRequests) && !m.bad && key in m.requestMap && m.requestMap[key].closedByInterface
    ensures key.fd !in m.writeMutex
  {
  }

  /** A request that gave up because its connection is closed or scheduled for it. */
  lemma DoomedIsScheduled(s: State, q: Req)
    requires MapsOk(s.maps, s.maxRequests) && !s.maps.bad && q.key in s.maps.requestMap
    requires Doomed(s, q.key, s.maps.requestMap[q.key])
    ensures Scheduled(s, q)
  {
    if s.maps.requestMap[q.key].closedByInterface { ClosedIsRemoved(s.maps, q.key, s.maxRequests); }
  }

  /** The part of the duties that the step of a request has to see to. */
  predicate Owes(s: State, q: Req)
    requires q.conn < |s.conns|
  {
    EntryKnown(s, q) && ClosureOk(s, q) && (Refused(q.pc) ==> s.conns[q.conn].epipe)
  }

  /** The request moves on without changing its entry. */
  lemma MovedOwes(s: State, r: nat, q: Req, im: Option<Thread>)
    requires r < |s.reqs| && OweOk(s, r) && q == s.reqs[r].(wasAborted := q.wasAborted, pc := q.pc)
    requires Live(s.reqs[r])
    requires q.wasAborted ==>
               s.reqs[r].wasAborted || (q.key in s.maps.requestMap && s.maps.requestMap[q.key].clientAbort)
    requires Refused(q.pc) ==> s.conns[q.conn].epipe
    requires q.closeConnection && (Ended(q) || q.pc.DestroyRemove?) ==> Scheduled(s, q)
    ensures Owes(s.(im := im, reqs := s.reqs[r := q]), q)
  {
  }

  lemma RemovalKeepsDescriptors(m: Maps, key: Key)
    ensures var n := RemoveRequest(m, key);
            n.writeMutex == m.writeMutex && n.closure == m.closure && (m.bad ==> n.bad)
  {
  }

  /** The request leaves the map. */
  lemma RemovedOwes(s: State, r: nat, q: Req, im: Option<Thread>)
    requires r < |s.reqs| && s.reqs[r].conn < |s.conns| && !Live(q) && !Refused(q.pc) && !q.pc.DestroyRemove?
    requires q == s.reqs[r].(completed := q.completed, wasAborted := q.wasAborted, pc := q.pc)
    requires InGoodInterface(s, q) && q.closeConnection && Ended(q) ==>
               Scheduled(s, q) || (q.completed && q.wasAborted && s.conns[q.conn].corrupt)
    ensures var t := RemoveOwn(s, r, q).(im := im);
            r < |t.reqs| && t.reqs[r] == q.(removals := q.removals + 1) && q.conn < |t.conns| && Owes(t, t.reqs[r])
  {
    RemovalKeepsDescriptors(s.maps, q.key);
    hide RemoveRequest;
  }

  lemma WithdrawnOwes(s: State, r: nat)
    requires r < |s.reqs| && s.reqs[r].conn < |s.conns|
    requires Scheduled(s, s.reqs[r]) || s.conns[s.reqs[r].conn].corrupt
    ensures var t := Withdraw(s, r); r < |t.reqs| && t.reqs[r].conn < |t.conns| && Owes(t, t.reqs[r])
  {
    RemovedOwes(s, r, GiveUp(s.reqs[r]), None);
    hide RemoveOwn, Owes;
  }

  /** Where a request that is not withdrawn goes after its tests. */
  function Passed(q: Req, e: Entry): Req
    requires q.pc.Checking?
  {
    match q.pc.op
    case Abort => q.(wasAborted := e.clientAbort, pc := Idle)
    case Destroy =>
      q.(pc := if q.closeConnection && !e.closedByInterface then WantWToInsert(ByDestructor) else DestroyRemove)
    case Fail(force) => q.(pc := FailBody(force))
    case Write(data) => q.(pc := WantW(false, data))
    case End(data) => q.(pc := WantW(true, data))
  }

  predicate Withdraws(s: State, q: Req, e: Entry)
    requires q.pc.Checking?
  {
    match q.pc.op
    case Abort => e.closedByInterface
    case Destroy => false
    case _ => Doomed(s, q.key, e)
  }

  lemma CheckEntryIs(s: State, r: nat, e: Entry)
    requires CanCheck(s, r)
    ensures var q := s.reqs[r];
            CheckEntry(s, r, e) ==
            if Withdraws(s, q, e) then Withdraw(s, r)
            else s.(im := if q.pc.op.Abort? then None else s.im, reqs := s.reqs[r := Passed(q, e)])
  {
    hide RemoveOwn;
  }

  /** The connections, the interface and the descriptors are as before. */
  predicate Keeps(s: State, t: State) {
    && t.conns == s.conns && t.terminated == s.terminated
    && t.generation == s.generation && t.identifier == s.identifier
    && t.maps.closure == s.maps.closure && t.maps.writeMutex == s.maps.writeMutex
    && (s.maps.bad ==> t.maps.bad)
  }

  lemma WithdrawKeeps(s: State, r: nat)
    requires r < |s.reqs|
    ensures Keeps(s, Withdraw(s, r))
  {
    RemovalKeepsDescriptors(s.maps, s.reqs[r].key);
    hide RemoveRequest, RemovalFails, OwnsEntry;
  }

  lemma CheckKeeps(s: State, r: nat)
    requires CanCheck(s, r)
    ensures Keeps(s, Check(s, r))
  {
    WithdrawKeeps(s, r);
    if s.reqs[r].key in s.maps.requestMap { CheckEntryIs(s, r, s.maps.requestMap[s.reqs[r].key]); }
    hide Withdraw, CheckEntry, Withdraws, Passed;
  }

  /** AbortStatus reports what the entry says. */
  lemma CheckEntryOwes(s: State, r: nat, e: Entry)
    requires r < |s.reqs| && OweOk(s, r) && CanCheck(s, r) && Live(s.reqs[r])
    requires s.reqs[r].key in s.maps.requestMap && e == s.maps.requestMap[s.reqs[r].key]
    requires Doomed(s, s.reqs[r].key, e) ==> Scheduled(s, s.reqs[r])
    ensures var t := CheckEntry(s, r, e); r < |t.reqs| && t.reqs[r].conn < |t.conns| && Owes(t, t.reqs[r])
  {
    CheckEntryIs(s, r, e);
    hide Owes, Scheduled, CheckEntry, Withdraw;
    var q, t := s.reqs[r], CheckEntry(s, r, e);
    if Withdraws(s, q, e) {
      WithdrawnOwes(s, r);
    } else {
      MovedOwes(s, r, Passed(q, e), if q.pc.op.Abort? then None else s.im);
      assert t.reqs[r] == Passed(q, e);
    }
  }

  lemma CheckOwes(s: State, r: nat)
    requires Around(s, r) && OweOk(s, r) && CanCheck(s, r) && Fresh(s, s.reqs[r])
    ensures var t := Check(s, r); r < |t.reqs| && t.reqs[r].conn < |t.conns| && Owes(t, t.reqs[r])
  {
    var q := s.reqs[r];
    IdentityTest(s, q);
    if Current(s, q) && !s.maps.bad {
      var e := s.maps.requestMap[q.key];
      if Doomed(s, q.key, e) { DoomedIsScheduled(s, q); }
      CheckEntryOwes(s, r, e);
    }
    hide MapsOk, CheckEntry, ConnOk, FdOk;
  }

  /** Steps that neither test nor remove the entry. */
  lemma PlainOwes(s: State, r: nat, p: RequestStep)
    requires r < |s.reqs| && ReqOk(s, r) && OweOk(s, r) && RequestStepEnabled(s, r, p)
    requires p.RStart? || p.RDrop? || p.RLockI? || p.RLockW? || p.RReleaseTemporary?
    ensures var t := RequestStepApply(s, r, p); r < |t.reqs| && t.reqs[r].conn < |t.conns| && Owes(t, t.reqs[r])
  {
  }

  lemma WriteOwes(s: State, r: nat, p: RequestStep)
    requires r < |s.reqs| && ReqOk(s, r) && OweOk(s, r) && RequestStepEnabled(s, r, p) && (p.RSend? || p.RFailWrite?)
    ensures var t := RequestStepApply(s, r, p); r < |t.reqs| && t.reqs[r].conn < |t.conns| && Owes(t, t.reqs[r])
  {
    hide Emit;
  }

  lemma FlagOwes(s: State, r: nat)
    requires r < |s.reqs| && ReqOk(s, r) && OweOk(s, r) && CanCheckFlag(s, r)
    ensures var t := CheckFlag(s, r); r < |t.reqs| && t.reqs[r].conn < |t.conns| && Owes(t, t.reqs[r])
  {
    hide RemoveRequest;
  }

  /** A failed write, the end of a request and its destruction. */
  lemma RemovalOwes(s: State, r: nat, p: RequestStep)
    requires r < |s.reqs| && OweOk(s, r) && RequestStepEnabled(s, r, p)
    requires p.RFailBody? || p.REndRemove? || p.RDestroyRemove?
    ensures var t := RequestStepApply(s, r, p); r < |t.reqs| && t.reqs[r].conn < |t.conns| && Owes(t, t.reqs[r])
  {
    var q := s.reqs[r];
    match p {
      case RFailBody =>
        var gone := q.(completed := true, wasAborted := true);
        if q.pc.force || q.closeConnection { RemovedOwes(s, r, gone.(pc := WantWToInsert(ByWriter)), s.im); }
        else { RemovedOwes(s, r, gone.(pc := Idle), None); }
      case REndRemove =>
        var gone := q.(completed := true);
        if q.closeConnection { RemovedOwes(s, r, gone.(pc := WantWToInsert(ByEnd)), s.im); }
        else { RemovedOwes(s, r, gone.(pc := Idle), None); }
      case _ => RemovedOwes(s, r, q.(pc := Dead), None);
    }
    hide RemoveOwn, Owes;
  }

  lemma InsertOwes(s: State, r: nat, pipe: PipeWrite)
    requires r < |s.reqs| && ReqOk(s, r) && OweOk(s, r) && CanInsert(s, r)
    ensures var t := Insert(s, r, pipe); r < |t.reqs| && t.reqs[r].conn < |t.conns| && Owes(t, t.reqs[r])
  {
  }

  lemma StepOwes(s: State, r: nat, p: RequestStep)
    requires Around(s, r) && OweOk(s, r) && RequestStepEnabled(s, r, p) && (p.RCheck? ==> Fresh(s, s.reqs[r]))
    requires Onward(s, RequestStepApply(s, r, p))
    requires var t, q := RequestStepApply(s, r, p), s.reqs[r];
             && r < |t.reqs| && t.ipc == s.ipc
             && t.reqs[r] == q.(completed := t.reqs[r].completed, wasAborted := t.reqs[r].wasAborted,
                                removals := t.reqs[r].removals, pc := t.reqs[r].pc)
    ensures OweOk(RequestStepApply(s, r, p), r)
  {
    match p
    case RCheck => CheckOwes(s, r);
    case RCheckFlag => FlagOwes(s, r);
    case RInsert(pipe) => InsertOwes(s, r, pipe);
    case RSend(_) => WriteOwes(s, r, p);
    case RFailWrite(_) => WriteOwes(s, r, p);
    case RFailBody => RemovalOwes(s, r, p);
    case REndRemove => RemovalOwes(s, r, p);
    case RDestroyRemove => RemovalOwes(s, r, p);
    case _ => PlainOwes(s, r, p);
    hide RequestStepApply, RequestStepEnabled, Around, Owes;
    var t := RequestStepApply(s, r, p);
    if OwnsSocket(t, t.reqs[r]) { OwnershipEnds(s, t, s.reqs[r]); }
  }

  lemma CheckGoesOn(s: State, r: nat)
    requires Around(s, r) && OweOk(s, r) && CanCheck(s, r) && Fresh(s, s.reqs[r])
    requires Scheduling(s.reqs[r].pc) && s.identifier != 0
    ensures var t := Check(s, r);
            || (r < |t.reqs| && Scheduling(t.reqs[r].pc)) || s.reqs[r].key.fd in t.maps.closure || t.maps.bad
            || !OwnsSocket(s, s.reqs[r])
  {
    var q := s.reqs[r];
    IdentityTest(s, q);
    if Current(s, q) && !s.maps.bad {
      var e := s.maps.requestMap[q.key];
      if Doomed(s, q.key, e) { DoomedIsScheduled(s, q); }
      CheckEntryIs(s, r, e);
      RemovalKeepsDescriptors(s.maps, q.key);
    }
    hide RemoveRequest, CheckEntry, MapsOk, ConnOk, FdOk, OweOk;
  }

  /** A request on its way to schedule its connection gets there. */
  lemma SchedulingGoesOn(s: State, r: nat, p: RequestStep)
    requires Around(s, r) && OweOk(s, r) && RequestStepEnabled(s, r, p) && (p.RCheck? ==> Fresh(s, s.reqs[r]))
    requires Scheduling(s.reqs[r].pc) && s.identifier != 0
    ensures var t := RequestStepApply(s, r, p);
            || (r < |t.reqs| && Scheduling(t.reqs[r].pc)) || s.reqs[r].key.fd in t.maps.closure || t.maps.bad
            || !OwnsSocket(s, s.reqs[r])
  {
    if p.RCheck? {
      CheckGoesOn(s, r);
    } else {
      hide Around, OweOk, RemoveRequest;
    }
  }

  lemma RequestDuties(s: State, r: nat, p: RequestStep)
    requires Inv(s) && Duties(s) && RequestStepEnabled(s, r, p) && (p.RCheck? ==> Fresh(s, s.reqs[r]))
    ensures Duties(RequestStepApply(s, r, p))
  {
    var t := RequestStepApply(s, r, p);
    InvAround(s, r);
    RequestStepKept(s, r, p);
    RequestOnward(s, r, p);
    assert OweOk(s, r);
    StepOwes(s, r, p);
    RequestConn(s, r, p);
    if Scheduling(s.reqs[r].pc) && s.identifier != 0 { SchedulingGoesOn(s, r, p); }
    hide RequestStepApply, RequestStepEnabled, Around;
    forall o | 0 <= o < |t.reqs| ensures OweOk(t, o) {
      if o != r { RequestOthers(s, t, r, o); }
    }
    forall c | 0 <= c < |t.conns| ensures CorruptOk(t, c) {
      RequestConnDuties(s, t, r, c);
    }
  }

  lemma RequestOthers(s: State, t: State, r: nat, o: nat)
    requires Inv(s) && Duties(s) && r < |s.reqs| && o < |s.reqs| && o != r
    requires s.reqs[r].conn < |s.conns| && RequestFrame(s, t, r) && Onward(s, t)
    ensures OweOk(t, o)
  {
    assert ReqOk(s, o) && OweOk(s, o);
    hide Inv, Duties;
    OthersOwe(s, t, o);
  }

  lemma RequestConnDuties(s: State, t: State, r: nat, c: nat)
    requires Inv(s) && Duties(s) && r < |s.reqs| && c < |s.conns|
    requires s.reqs[r].conn < |s.conns| && RequestFrame(s, t, r) && Onward(s, t)
    requires var d := s.reqs[r].conn;
             && (t.conns[d].corrupt && !s.conns[d].corrupt ==> Truncated(t.conns[d]) && Scheduling(t.reqs[r].pc))
             && (Scheduling(s.reqs[r].pc) && s.identifier != 0 ==>
                   Scheduling(t.reqs[r].pc) || s.reqs[r].key.fd in t.maps.closure || t.maps.bad
                   || !OwnsSocket(s, s.reqs[r]))
    ensures CorruptOk(t, c)
  {
    assert ReqOk(s, r) && OweOk(s, r) && CorruptOk(s, c);
    hide Inv, Duties, ReqOk;
    var q := s.reqs[r];
    if OnTheWay(s, c) && !InterfaceScheduling(s.ipc, c) {
      var o :| 0 <= o < |s.reqs| && RequestScheduling(s, o, c);
      assert o != r ==> RequestScheduling(t, o, c);
      assert o == r && Scheduling(t.reqs[r].pc) ==> RequestScheduling(t, r, c);
    }
    if c == q.conn && t.conns[c].corrupt && !s.conns[c].corrupt {
      assert RequestScheduling(t, r, c);
    } else {
      OtherConnsOk(s, t, c);
    }
  }

  // ------------------------------------------------------------------
  // Steps of the interface thread

  predicate AssignmentsStay(m: map<Key, Entry>, n: map<Key, Entry>) {
    forall key :: key in n && key in m && m[key].isAssigned ==> n[key].isAssigned
  }

  /** A connection becomes corrupt only when the interface goes on to schedule it, and
      what the interface is about to schedule it schedules. */
  predicate ConnsCared(s: State, t: State) {
    && |s.conns| <= |t.conns|
    && (forall c :: 0 <= c < |s.conns| && t.conns[c].corrupt ==>
          s.conns[c].corrupt || (Truncated(t.conns[c]) && InterfaceScheduling(t.ipc, c)))
    && (forall c :: |s.conns| <= c < |t.conns| ==> !t.conns[c].corrupt)
    && (forall c :: 0 <= c < |s.conns| && InterfaceScheduling(s.ipc, c) ==>
          || InterfaceScheduling(t.ipc, c) || s.conns[c].fd in t.maps.closure || t.maps.bad || t.identifier == 0)
  }

  lemma InterfaceDuties(s: State, t: State)
    requires Inv(s) && Duties(s) && Onward(s, t) && t.reqs == s.reqs
    requires AssignmentsStay(s.maps.requestMap, t.maps.requestMap) && ConnsCared(s, t)
    ensures Duties(t)
  {
    forall r | 0 <= r < |t.reqs| ensures OweOk(t, r) {
      assert ReqOk(s, r) && OweOk(s, r);
      OthersOwe(s, t, r);
    }
    hide Inv, ReqOk;
    forall c | 0 <= c < |t.conns| ensures CorruptOk(t, c) {
      if c < |s.conns| {
        assert CorruptOk(s, c);
        if exists r :: 0 <= r < |s.reqs| && RequestScheduling(s, r, c) {
          var r :| 0 <= r < |s.reqs| && RequestScheduling(s, r, c);
          assert RequestScheduling(t, r, c);
        }
        assert ConnOnward(s.conns[c], t.conns[c]);
        if t.conns[c].corrupt ==> s.conns[c].corrupt { OtherConnsOk(s, t, c); }
      }
    }
    forall key | key in t.maps.requestMap && !t.maps.requestMap[key].isAssigned
      ensures !t.maps.requestMap[key].clientAbort
    {
      assert EntryOnward(s.maps.requestMap, t.maps.requestMap, key);
    }
  }

  /** Closing a socket neither marks a connection nor disturbs its stream. */
  predicate ConnsQuiet(before: seq<Conn>, after: seq<Conn>) {
    |after| == |before| && forall c :: 0 <= c < |before| ==>
      ConnOnward(before[c], after[c]) && after[c].corrupt == before[c].corrupt
  }

  lemma ClosingIsQuiet(conns: seq<Conn>, os: map<Fd, File>, fd: Fd)
    ensures ConnsQuiet(conns, CloseSocket(conns, os, fd))
  {
  }

  lemma QuietTwice(a: seq<Conn>, b: seq<Conn>, c: seq<Conn>)
    requires ConnsQuiet(a, b) && ConnsQuiet(b, c)
    ensures ConnsQuiet(a, c)
  {
  }

  lemma SameEntries(m: map<Key, Entry>)
    ensures EntriesOnward(m, m) && AssignmentsStay(m, m)
  {
  }

  lemma CleanedEntries(m: map<Key, Entry>, fd: Fd)
    ensures EntriesOnward(m, CleanedRequests(m, fd)) && AssignmentsStay(m, CleanedRequests(m, fd))
  {
  }

  /** What a step of the interface thread, except the hand-over of a request, leaves to others. */
  ghost predicate InterfaceFrame(s: State, t: State) {
    Onward(s, t) && t.reqs == s.reqs && AssignmentsStay(s.maps.requestMap, t.maps.requestMap) && ConnsCared(s, t)
  }

  /** A step that closes descriptors or forgets connections. */
  predicate Closes(s: State, t: State) {
    && t.reqs == s.reqs && t.generation == s.generation && t.identifier == s.identifier
    && ConnsQuiet(s.conns, t.conns) && (s.maps.bad ==> t.maps.bad) && t.maps.closure == s.maps.closure
    && (forall fd :: fd in t.maps.writeMutex ==>
          fd in s.maps.writeMutex && t.maps.writeMutex[fd] == s.maps.writeMutex[fd])
    && InCleanup(s.ipc) && !t.ipc.Accepted?
  }

  lemma ClosesOnward(s: State, t: State)
    requires Closes(s, t)
    requires EntriesOnward(s.maps.requestMap, t.maps.requestMap)
    requires AssignmentsStay(s.maps.requestMap, t.maps.requestMap)
    ensures InterfaceFrame(s, t)
  {
    hide EntryOnward, EntriesOnward;
  }

  lemma ClosingStep(s: State, p: CleanupStep)
    requires CleanupStepEnabled(s, p) && (p.ICleanDummy? || p.ICloseDummy? || p.ICloseConn?)
    ensures InterfaceFrame(s, CleanupStepApply(s, p))
  {
    var t := CleanupStepApply(s, p);
    SameEntries(s.maps.requestMap);
    ClosingIsQuiet(s.conns, s.os, p.fd);
    hide CloseSocket, ConnOnward, EntriesOnward, AssignmentsStay, KeysOn, Onward, ConnsCared;
    assert t.maps.requestMap == s.maps.requestMap;
    assert Closes(s, t);
    hide CleanupStepApply, CleanupStepEnabled, Closes, InterfaceFrame;
    ClosesOnward(s, t);
  }

  lemma RemovalIsQuiet(conns: seq<Conn>, os: map<Fd, File>, fd: Fd, c: nat)
    requires c < |conns|
    ensures var marked := conns[c := conns[c].(mutexAlive := false)];
            ConnsQuiet(conns, CloseSocket(marked, os, fd))
    ensures var closed := CloseSocket(conns, os, fd);
            && |closed| == |conns|
            && ConnsQuiet(conns, closed[c := closed[c].(mutexAlive := false)])
    ensures ConnsQuiet(conns, conns)
  {
    var marked := conns[c := conns[c].(mutexAlive := false)];
    ClosingIsQuiet(marked, os, fd);
    QuietTwice(conns, marked, CloseSocket(marked, os, fd));
    ClosingIsQuiet(conns, os, fd);
    var closed := CloseSocket(conns, os, fd);
    QuietTwice(conns, closed, closed[c := closed[c].(mutexAlive := false)]);
  }

  lemma RemovalConns(s: State, fd: Fd, works: bool)
    requires CanRemoveConn(s, fd)
    ensures ConnsQuiet(s.conns, RemoveConn(s, fd, works).conns)
  {
    assert ConnsQuiet(s.conns, s.conns);
    if fd in s.maps.writeMutex { RemovalIsQuiet(s.conns, s.os, fd, s.maps.writeMutex[fd]); }
    hide CloseSocket, ConnsQuiet, RemoveConnection, CleanupRequests, AssignedOn;
  }

  predicate RemovalOf(m: Maps, n: Maps, fd: Fd) {
    && (n.requestMap == m.requestMap || n.requestMap == CleanedRequests(m.requestMap, fd))
    && n.closure == m.closure && (n.writeMutex == m.writeMutex || n.writeMutex == m.writeMutex - {fd})
    && (m.bad ==> n.bad)
  }

  lemma RemovalMaps(m: Maps, fd: Fd)
    requires fd in m.requestCount
    ensures RemovalOf(m, InterfaceMaps.RemoveConnection(m, fd), fd)
    ensures RemovalOf(m, CleanupRequests(m, fd).(bad := true), fd)
  {
    hide CleanedRequests, AssignedOn, KeysOn;
  }

  lemma RemovalMap(s: State, fd: Fd, works: bool)
    requires CanRemoveConn(s, fd)
    ensures var t := RemoveConn(s, fd, works);
            && RemovalOf(s.maps, t.maps, fd) && (t.ipc.Ready? || t.ipc.CleanClosures?)
            && t.reqs == s.reqs && t.generation == s.generation && t.identifier == s.identifier
  {
    if fd in s.maps.requestCount { RemovalMaps(s.maps, fd); }
    hide CloseSocket, InterfaceMaps.RemoveConnection, CleanupRequests, AssignedOn, CleanedRequests;
  }

  lemma RemovalCloses(s: State, fd: Fd, works: bool)
    requires CanRemoveConn(s, fd)
    ensures Closes(s, RemoveConn(s, fd, works))
  {
    RemovalConns(s, fd, works);
    RemovalMap(s, fd, works);
    hide RemoveConn, ConnsQuiet, CleanedRequests;
  }

  lemma RemovesOnward(s: State, fd: Fd, works: bool)
    requires CanRemoveConn(s, fd)
    ensures InterfaceFrame(s, RemoveConn(s, fd, works))
  {
    RemovalCloses(s, fd, works);
    RemovalMap(s, fd, works);
    SameEntries(s.maps.requestMap);
    CleanedEntries(s.maps.requestMap, fd);
    hide RemoveConn, Closes, InterfaceFrame, EntriesOnward, AssignmentsStay, CleanedRequests;
    ClosesOnward(s, RemoveConn(s, fd, works));
  }

  lemma PlainCleanupOnward(s: State, p: CleanupStep)
    requires InterfaceOk(s) && CleanupStepEnabled(s, p) && !p.IConstruct? && !p.IRemoveConn?
    requires !p.ICleanDummy? && !p.ICloseDummy? && !p.ICloseConn?
    ensures InterfaceFrame(s, CleanupStepApply(s, p))
  {
    SameEntries(s.maps.requestMap);
    hide EntryOnward, MapsOk;
  }

  lemma CleanupOnward(s: State, p: CleanupStep)
    requires InterfaceOk(s) && CleanupStepEnabled(s, p) && !p.IConstruct?
    ensures InterfaceFrame(s, CleanupStepApply(s, p))
  {
    match p
    case IRemoveConn(fd, works) => RemovesOnward(s, fd, works);
    case ICleanDummy(_) => ClosingStep(s, p);
    case ICloseDummy(_) => ClosingStep(s, p);
    case ICloseConn(_) => ClosingStep(s, p);
    case _ => PlainCleanupOnward(s, p);
  }

  lemma CleanupDuties(s: State, p: CleanupStep)
    requires Inv(s) && Duties(s) && CleanupStepEnabled(s, p)
    ensures Duties(CleanupStepApply(s, p))
  {
    if p.IConstruct? {
      ConstructDuties(s);
    } else {
      CleanupOnward(s, p);
      hide CleanupStepApply, CleanupStepEnabled, Inv, Duties, Onward;
      InterfaceDuties(s, CleanupStepApply(s, p));
    }
  }

  // Reading: single updates of the maps

  predicate Updates(p: ReadingStep) {
    || p.IHeader? || p.IAdmit? || p.IAdd? || p.IReject? || p.IMarkAborted? || p.ISchedule? || p.IReply?
    || p.IFinishReading?
  }

  /** The request map after a single update. */
  function UpdatedMap(s: State, p: ReadingStep): map<Key, Entry>
    requires ReadingStepEnabled(s, p)
  {
    match p
    case IAdd(close) => InterfaceMaps.AddRequest(s.maps, Key(s.ipc.fd, s.ipc.id), close).requestMap
    case IReject(key, _) =>
      if RemovalFails(s.maps, key) then s.maps.requestMap else s.maps.requestMap - {key}
    case IMarkAborted(key) => s.maps.requestMap[key := s.maps.requestMap[key].(clientAbort := true)]
    case _ => s.maps.requestMap
  }

  lemma UpdatedMapOnward(s: State, p: ReadingStep)
    requires ReadingStepEnabled(s, p) && Updates(p)
    ensures EntriesOnward(s.maps.requestMap, UpdatedMap(s, p)) && AssignmentsStay(s.maps.requestMap, UpdatedMap(s, p))
  {
  }

  lemma ToSendKeeps(s: State, fd: Fd, data: seq<byte>)
    ensures var t := ToSend(s, fd, data);
            && t == s.(maps := t.maps, ipc := t.ipc, faults := t.faults) && !t.ipc.Accepted?
            && t.maps == s.maps.(bad := t.maps.bad) && (s.maps.bad ==> t.maps.bad)
  {
  }

  lemma RejectIs(s: State, key: Key, data: seq<byte>)
    requires CanReject(s, key)
    ensures var n := Reject(s, key, data).maps;
            && n.requestMap == UpdatedMap(s, IReject(key, data))
            && n.writeMutex == s.maps.writeMutex && s.maps.closure <= n.closure
  {
    var closure := if s.maps.requestMap[key].closeConnection then s.maps.closure + {key.fd} else s.maps.closure;
    var m := RemoveRequest(s.maps.(closure := closure), key);
    ToSendKeeps(s.(maps := m.(recordStatus := m.recordStatus[key.fd := None]),
                   faults := Note(s.faults, !RemovalFails(s.maps, key), RemovalError)), key.fd, data);
    hide ToSend;
  }

  lemma AdmitIs(s: State, fd: Fd, overload: bool, data: seq<byte>)
    requires CanAdmit(s, fd)
    ensures var n := Admit(s, fd, overload, data).maps;
            && n.requestMap == s.maps.requestMap && n.writeMutex == s.maps.writeMutex && n.closure == s.maps.closure
  {
    ToSendKeeps(s.(maps := s.maps.(recordStatus := s.maps.recordStatus[fd := None])), fd, data);
    hide ToSend;
  }

  lemma UpdatedIs(s: State, p: ReadingStep)
    requires ReadingStepEnabled(s, p) && Updates(p)
    ensures var t := ReadingStepApply(s, p);
            && t.maps.requestMap == UpdatedMap(s, p)
            && t.maps.writeMutex == s.maps.writeMutex && s.maps.closure <= t.maps.closure
  {
    match p
    case IReject(key, data) => RejectIs(s, key, data);
    case IAdmit(fd, overload, data) => AdmitIs(s, fd, overload, data);
    case _ =>
  }

  lemma UpdatedRest(s: State, p: ReadingStep)
    requires ReadingStepEnabled(s, p) && Updates(p)
    ensures var t := ReadingStepApply(s, p);
            && t == s.(maps := t.maps, ipc := t.ipc, faults := t.faults)
            && (s.maps.bad ==> t.maps.bad) && !t.ipc.Accepted?
            && (s.ipc.Reading? || s.ipc.BeginAdmitted?)
  {
    hide RemoveRequest, InterfaceMaps.AddRequest, RemovalFails;
  }

  lemma UpdateOnward(s: State, p: ReadingStep)
    requires ReadingStepEnabled(s, p) && Updates(p)
    ensures InterfaceFrame(s, ReadingStepApply(s, p))
  {
    UpdatedIs(s, p);
    UpdatedRest(s, p);
    UpdatedMapOnward(s, p);
    assert ConnsQuiet(s.conns, s.conns);
    hide EntriesOnward, AssignmentsStay, ReadingStepApply, ReadingStepEnabled, UpdatedMap;
  }

  // Reading: a reply

  predicate Sends(p: ReadingStep) {
    || p.ISendLockW? || p.ISendCheckFlag? || p.ISendBytes? || p.ISendFail? || p.ISendLockI? || p.ISendLockW2?
    || p.ISendInserted?
  }

  lemma ReplyBytes(s: State, p: ReadingStep)
    requires IPcOk(s) && ReadingStepEnabled(s, p) && (p.ISendBytes? || p.ISendFail?)
    ensures var t := ReadingStepApply(s, p); ConnsOnward(s.conns, t.conns) && ConnsCared(s, t)
  {
    if p.ISendFail? { assert s.ipc.done > 0 ==> s.ipc.data[..s.ipc.done] != []; }
  }

  lemma ReplyMutexes(s: State, p: ReadingStep)
    requires IPcOk(s) && ReadingStepEnabled(s, p) && Sends(p) && !p.ISendBytes? && !p.ISendFail?
    requires p.ISendInserted? ==> s.conns[s.ipc.conn].fd == s.ipc.fd
    ensures var t := ReadingStepApply(s, p); ConnsOnward(s.conns, t.conns) && ConnsCared(s, t)
  {
    hide StreamOpen;
  }

  lemma ReplyConns(s: State, p: ReadingStep)
    requires IPcOk(s) && ReadingStepEnabled(s, p) && Sends(p) && FdOk(s, s.ipc.fd)
    ensures var t := ReadingStepApply(s, p); ConnsOnward(s.conns, t.conns) && ConnsCared(s, t)
  {
    assert p.ISendInserted? ==> s.conns[s.ipc.conn].fd == s.ipc.fd;
    hide FdOk, ConnsOnward, ConnsCared, ReadingStepApply;
    if p.ISendBytes? || p.ISendFail? { ReplyBytes(s, p); } else { ReplyMutexes(s, p); }
  }

  lemma ReplyOnward(s: State, p: ReadingStep)
    requires IPcOk(s) && ReadingStepEnabled(s, p) && Sends(p) && FdOk(s, s.ipc.fd)
    ensures InterfaceFrame(s, ReadingStepApply(s, p))
  {
    ReplyConns(s, p);
    SameEntries(s.maps.requestMap);
    hide EntriesOnward, EntryOnward, AssignmentsStay, ConnsOnward, ConnsCared, Emit, Abandon;
  }

  // Reading: a new connection

  predicate Accepts(p: ReadingStep) {
    p.IAcceptCall? || p.IAcceptReject? || p.IAcceptRecord?
  }

  lemma AcceptConns(s: State, p: ReadingStep)
    requires ReadingStepEnabled(s, p) && Accepts(p)
    ensures var t := ReadingStepApply(s, p); ConnsOnward(s.conns, t.conns) && ConnsCared(s, t)
  {
    hide CloseSocket;
    if !p.IAcceptCall? { ClosingIsQuiet(s.conns, s.os, s.ipc.fd); }
  }

  lemma AcceptOnward(s: State, p: ReadingStep)
    requires ReadingStepEnabled(s, p) && Accepts(p)
    ensures InterfaceFrame(s, ReadingStepApply(s, p))
  {
    AcceptConns(s, p);
    SameEntries(s.maps.requestMap);
    hide EntriesOnward, AssignmentsStay, CloseSocket, ConnsOnward, ConnsCared;
  }

  /** A new interface owes nothing to the requests of an earlier one. */
  lemma ConstructDuties(s: State)
    requires Inv(s) && Duties(s) && CleanupStepEnabled(s, IConstruct)
    ensures Duties(Construct(s))
  {
    var t := Construct(s);
    forall r | 0 <= r < |t.reqs| ensures OweOk(t, r) { assert OweOk(s, r) && ReqOk(s, r); }
    forall c | 0 <= c < |t.conns| ensures CorruptOk(t, c) { assert CorruptOk(s, c); }
  }

  // Reading: a request is handed over

  lemma AssignOnward(s: State, key: Key)
    requires CanAssign(s, key)
    ensures var t := Assign(s, key);
            && Onward(s, t) && AssignmentsStay(s.maps.requestMap, t.maps.requestMap)
            && (t.reqs == s.reqs ==> ConnsCared(s, t))
  {
    assert ConnsQuiet(s.conns, s.conns);
  }

  lemma AssignedOwes(s: State, key: Key)
    requires CanAssign(s, key) && FdOk(s, key.fd) && key.fd in s.maps.writeMutex
    ensures var t := Assign(s, key); |t.reqs| == |s.reqs| + 1 && OweOk(t, |s.reqs|)
  {
  }

  lemma AssignDuties(s: State, key: Key)
    requires Inv(s) && Duties(s) && CanAssign(s, key)
    ensures Duties(Assign(s, key))
  {
    var t := Assign(s, key);
    AssignOnward(s, key);
    if key.fd !in s.maps.writeMutex {
      hide Onward, ConnsCared, Inv, Duties;
      InterfaceDuties(s, t);
    } else {
      assert FdOk(s, key.fd);
      AssignedOwes(s, key);
      hide OweOk, ReqOk, CorruptOk, Onward;
      forall r | 0 <= r < |t.reqs| ensures OweOk(t, r) {
        if r < |s.reqs| {
          assert ReqOk(s, r) && OweOk(s, r);
          OthersOwe(s, t, r);
        }
      }
      hide Inv;
      forall c | 0 <= c < |t.conns| ensures CorruptOk(t, c) {
        assert CorruptOk(s, c);
        forall r | 0 <= r < |s.reqs| && RequestScheduling(s, r, c) ensures RequestScheduling(t, r, c) { }
        OtherConnsOk(s, t, c);
      }
    }
  }

  lemma ReadingOnward(s: State, p: ReadingStep)
    requires Inv(s) && ReadingStepEnabled(s, p) && !p.IAssign?
    ensures InterfaceFrame(s, ReadingStepApply(s, p))
  {
    if Updates(p) {
      UpdateOnward(s, p);
    } else if Sends(p) {
      assert FdOk(s, s.ipc.fd);
      ReplyOnward(s, p);
    } else {
      AcceptOnward(s, p);
    }
  }

  lemma ReadingDuties(s: State, p: ReadingStep)
    requires Inv(s) && Duties(s) && ReadingStepEnabled(s, p)
    ensures Duties(ReadingStepApply(s, p))
  {
    if p.IAssign? {
      AssignDuties(s, p.key);
    } else {
      ReadingOnward(s, p);
      hide ReadingStepApply, ReadingStepEnabled, Inv, Duties, Onward;
      InterfaceDuties(s, ReadingStepApply(s, p));
    }
  }

  // ------------------------------------------------------------------
  // Every run

  /** Every step, except the creation of an interface, leaves to others what they have. */
  lemma StepOnward(s: State, step: Step)
    requires Inv(s) && Enabled(s, step) && FreshStep(s, step) && step != Cleaning(IConstruct)
    ensures Onward(s, Apply(s, step))
  {
    match step
    case RequestThread(r, p) =>
      InvAround(s, r);
      RequestStepKept(s, r, p);
      RequestOnward(s, r, p);
    case Cleaning(p) => CleanupOnward(s, p);
    case Accepting(p) => if p.IAssign? { AssignOnward(s, p.key); } else { ReadingOnward(s, p); }
    case AppOpen(_) => AppOnward(s, Apply(s, step));
    case AppClose(_) => AppOnward(s, Apply(s, step));
  }

  lemma AppOnward(s: State, t: State)
    requires t == s.(os := t.os)
    ensures InterfaceFrame(s, t)
  {
    SameEntries(s.maps.requestMap);
    assert ConnsQuiet(s.conns, s.conns);
    hide EntriesOnward, AssignmentsStay;
  }

  lemma DutiesStep(s: State, step: Step)
    requires Inv(s) && Duties(s) && Enabled(s, step) && FreshStep(s, step)
    ensures Duties(Apply(s, step))
  {
    match step
    case RequestThread(r, p) => RequestDuties(s, r, p);
    case Cleaning(p) => CleanupDuties(s, p);
    case Accepting(p) => ReadingDuties(s, p);
    case AppOpen(_) => AppDuties(s, Apply(s, step));
    case AppClose(_) => AppDuties(s, Apply(s, step));
  }

  lemma AppDuties(s: State, t: State)
    requires Inv(s) && Duties(s) && t == s.(os := t.os)
    ensures Duties(t)
  {
    AppOnward(s, t);
    hide Inv, Duties, Onward, ConnsCared;
    InterfaceDuties(s, t);
  }

  lemma {:induction false} DutiesRun(s: State, steps: seq<Step>)
    requires Inv(s) && Duties(s) && Valid(s, steps) && FreshRun(s, steps)
    ensures Inv(Exec(s, steps)) && Duties(Exec(s, steps))
    decreases |steps|
  {
    if steps != [] {
      StepInv(s, steps[0]);
      DutiesStep(s, steps[0]);
      DutiesRun(Apply(s, steps[0]), steps[1..]);
    }
  }

  lemma ReachableDuties(s: State)
    requires Reachable(s)
    ensures Inv(s) && Duties(s)
  {
    var s0, steps :| Init(s0) && Valid(s0, steps) && FreshRun(s0, steps) && s == Exec(s0, steps);
    InitInv(s0);
    InitDuties(s0);
    DutiesRun(s0, steps);
  }

  // ------------------------------------------------------------------
  // What they amount to

  /** A request that reports an abort was aborted by its client, and a request knows
      whether its connection is to be closed. */
  lemma AbortsAreTrue(s: State, r: nat)
    requires Reachable(s) && r < |s.reqs| && Current(s, s.reqs[r]) && Live(s.reqs[r])
    ensures var q := s.reqs[r];
            && q.key in s.maps.requestMap
            && (q.wasAborted ==> s.maps.requestMap[q.key].clientAbort)
            && (q.closeConnection <==> s.maps.requestMap[q.key].closeConnection)
  {
    ReachableDuties(s);
    assert ReqOk(s, r) && OweOk(s, r);
  }

  /** When a request whose connection is to be closed has ended normally or was
      destroyed, that connection is scheduled for closure or no longer active. If
      the request was aborted the same holds unless a write has spoiled the
      connection, which then is for the thread of that write to schedule. */
  lemma ClosuresAreServed(s: State, r: nat)
    requires Reachable(s) && r < |s.reqs|
    requires var q := s.reqs[r];
             Current(s, q) && !s.maps.bad && q.closeConnection && ((q.completed && q.pc.Idle?) || q.pc.Dead?)
    ensures var q := s.reqs[r];
            && (!(q.completed && q.wasAborted) ==> q.key.fd in s.maps.closure || !OwnsSocket(s, q))
            && (q.key.fd in s.maps.closure || !OwnsSocket(s, q)
                || (q.conn < |s.conns| && s.conns[q.conn].corrupt && OnTheWay(s, q.conn)))
  {
    ReachableDuties(s);
    assert ReqOk(s, r) && OweOk(s, r) && CorruptOk(s, s.reqs[r].conn);
  }

  /** Only a connection on which a batch was cut short is marked, and a marked
      connection that is still active is scheduled for closure, or the thread that
      failed to write is on its way to schedule it. */
  lemma SpoiledConnectionsAreScheduled(s: State, c: nat)
    requires Reachable(s) && c < |s.conns| && s.conns[c].corrupt
    ensures Truncated(s.conns[c])
    ensures var fd := s.conns[c].fd;
            fd in s.maps.writeMutex && s.maps.writeMutex[fd] == c && !s.maps.bad && s.identifier != 0 ==>
              fd in s.maps.closure || OnTheWay(s, c)
  {
    ReachableDuties(s);
    assert CorruptOk(s, c);
  }

  /** A request that schedules its connection wakes the interface thread through the
      pipe, or leaves the interface in a bad state; the program ends exactly when not
      even that can be announced. */
  lemma InsertionsWakeTheInterface(s: State, r: nat, p: RequestStep)
    requires Enabled(s, RequestThread(r, p))
    ensures var t := Apply(s, RequestThread(r, p));
            && (t.maps.closure != s.maps.closure ==>
                  && p.RInsert? && t.maps.closure == s.maps.closure + {s.reqs[r].key.fd}
                  && (p.pipe == Written || t.maps.bad))
            && (t.terminated <==> p == RInsert(FailedTwice))
  {
    if !p.RInsert? {
      SchedulesNothing(s, r, p);
      hide RequestStepApply;
    }
  }

  predicate SameSchedule(s: State, t: State) {
    t.maps.closure == s.maps.closure && t.terminated == s.terminated
  }

  lemma SchedulesNothing(s: State, r: nat, p: RequestStep)
    requires RequestStepEnabled(s, r, p) && !p.RInsert?
    ensures SameSchedule(s, RequestStepApply(s, r, p))
  {
    if p.RCheck? {
      CheckKeeps(s, r);
      hide Check;
    } else if p.RSend? || p.RFailWrite? {
      hide Emit, Abandon;
    } else {
      RemovalKeepsDescriptors(s.maps, s.reqs[r].key);
      hide RemoveRequest, OwnsEntry, RemovalFails;
    }
  }
}
