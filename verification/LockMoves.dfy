/** Sequences of protocol steps that belong together: a reply is sent, a request is
    handed over, a request is destroyed. Each starts and ends with the interface
    thread reading and with no operation in progress on one connection. */
module LockMoves {
  import opened Bytes
  import opened InterfaceMaps
  import opened Wrappers
  import opened LockProtocol
  import opened LockInvariant
  import opened LockTheorems
  import opened LockDiscipline

  // ------------------------------------------------------------------
  // Runs

  ghost predicate Run(s: State, steps: seq<Step>, t: State) {
    Valid(s, steps) && FreshRun(s, steps) && t == Exec(s, steps)
  }

  lemma RunNone(s: State)
    ensures Run(s, [], s)
  {
  }

  lemma RunMore(s: State, steps: seq<Step>, t: State, step: Step)
    requires Run(s, steps, t) && Enabled(t, step) && FreshStep(t, step)
    ensures Run(s, steps + [step], Apply(t, step))
  {
    ExecAppend(s, steps, step);
  }

  lemma {:induction false} RunAppend(s: State, a: seq<Step>, t: State, b: seq<Step>, u: State)
    requires Run(s, a, t) && Run(t, b, u)
    ensures Run(s, a + b, u)
    decreases |b|
  {
    hide Enabled, Apply, FreshStep;
    if b == [] {
      assert a + b == a;
    } else {
      RunMore(s, a, t, b[0]);
      RunAppend(s, a + [b[0]], Apply(t, b[0]), b[1..], u);
      assert a + b == a + [b[0]] + b[1..];
    }
  }

  // ------------------------------------------------------------------
  // Between operations

  /** The application does nothing with the requests of this connection. */
  predicate AllIdle(s: State, fd: Fd) {
    forall k :: k in s.maps.requestMap && k.fd == fd && s.maps.requestMap[k].isAssigned ==>
      s.maps.requestMap[k].holder < |s.reqs| && s.reqs[s.maps.requestMap[k].holder].pc == Idle
  }

  predicate MutexFree(s: State, fd: Fd) {
    && fd in s.maps.writeMutex && s.maps.writeMutex[fd] < |s.conns|
    && s.conns[s.maps.writeMutex[fd]].owner == None
  }

  ghost predicate Calm(s: State, fd: Fd) {
    && Inv(s) && !s.terminated && MayUpdate(s) && fd in s.maps.recordStatus
    && MutexFree(s, fd) && AllIdle(s, fd)
  }

  lemma CalmMaps(s: State, fd: Fd)
    requires Calm(s, fd)
    ensures MapsOk(s.maps, s.maxRequests) && fd !in s.maps.dummy && fd in s.maps.requestCount && s.identifier != 0
  {
    hide ReqOk, ConnOk, EntryOk, FdOk;
    assert s.maps.writeMutex.Keys !! s.maps.dummy;
  }

  // ------------------------------------------------------------------
  // A reply

  /** What a reply changes besides the connection: at most the closure set. */
  ghost predicate Replied(s: State, t: State, fd: Fd) {
    && t.im == s.im && t.terminated == s.terminated && t.maxRequests == s.maxRequests
    && t.reqs == s.reqs && |t.conns| == |s.conns|
    && t.maps == s.maps.(closure := t.maps.closure) && s.maps.closure <= t.maps.closure
    && MutexFree(t, fd)
  }

  /** SendRecord is about to write the reply, or has found nothing to write. */
  lemma ReplyStarted(s: State, fd: Fd) returns (steps: seq<Step>, t: State)
    requires !s.terminated && s.im == None && s.ipc.SendWantW? && s.ipc.fd == fd && MutexFree(s, fd)
    requires s.maps.writeMutex[fd] == s.ipc.conn
    ensures Run(s, steps, t) && t == s.(ipc := t.ipc, conns := t.conns, faults := t.faults) && |t.conns| == |s.conns|
    ensures var c := s.ipc.conn;
            || (t.ipc == Reading && t.conns[c].owner == None)
            || (t.ipc == Sending(fd, c, s.ipc.data, 0) && s.ipc.data != [])
  {
    RunNone(s);
    hide Run;
    t := Apply(s, Accepting(ISendLockW));
    RunMore(s, [], s, Accepting(ISendLockW));
    RunMore(s, [] + [Accepting(ISendLockW)], t, Accepting(ISendCheckFlag));
    steps := [] + [Accepting(ISendLockW)] + [Accepting(ISendCheckFlag)];
    t := Apply(t, Accepting(ISendCheckFlag));
  }

  /** All of it is written. */
  lemma ReplyWritten(s: State, fd: Fd) returns (steps: seq<Step>, t: State)
    requires !s.terminated && s.ipc.Sending? && s.ipc.fd == fd && s.ipc.conn < |s.conns|
    requires s.ipc.done == 0 && s.ipc.data != [] && !s.conns[s.ipc.conn].epipe
    ensures Run(s, steps, t) && t == s.(ipc := Reading, conns := t.conns, faults := t.faults)
    ensures |t.conns| == |s.conns| && t.conns[s.ipc.conn].owner == None
  {
    RunNone(s);
    hide Run;
    var step := Accepting(ISendBytes(|s.ipc.data|));
    RunMore(s, [], s, step);
    steps, t := [] + [step], Apply(s, step);
  }

  /** The peer has closed the connection ... */
  lemma ReplyRefused(s: State, fd: Fd) returns (steps: seq<Step>, t: State)
    requires !s.terminated && s.im == None && s.ipc.Sending? && s.ipc.fd == fd && s.ipc.conn < |s.conns|
    requires s.conns[s.ipc.conn].epipe
    ensures Run(s, steps, t)
    ensures t == s.(ipc := SendWantW2(fd, s.ipc.conn), conns := t.conns, faults := t.faults, im := Some(Interface))
    ensures |t.conns| == |s.conns| && t.conns[s.ipc.conn].owner == None
  {
    RunNone(s);
    hide Run;
    var a, b := Accepting(ISendFail(BrokenPipe)), Accepting(ISendLockI);
    RunMore(s, [], s, a);
    RunMore(s, [] + [a], Apply(s, a), b);
    steps, t := [] + [a] + [b], Apply(Apply(s, a), b);
  }

  /** ... which is then scheduled for closure. */
  lemma ReplyFailed(s: State, fd: Fd) returns (steps: seq<Step>, t: State)
    requires !s.terminated && s.im == None && s.ipc.Sending? && s.ipc.fd == fd && s.ipc.conn < |s.conns|
    requires s.conns[s.ipc.conn].epipe
    ensures Run(s, steps, t)
    ensures t == s.(ipc := Reading, conns := t.conns, faults := t.faults, settled := s.settled + {fd},
                    maps := s.maps.(closure := s.maps.closure + {fd}))
    ensures |t.conns| == |s.conns| && t.conns[s.ipc.conn].owner == None
  {
    var a, b := Accepting(ISendLockW2), Accepting(ISendInserted);
    var first, u := ReplyRefused(s, fd);
    hide Run;
    RunMore(s, first, u, a);
    RunMore(s, first + [a], Apply(u, a), b);
    steps, t := first + [a] + [b], Apply(Apply(u, a), b);
  }

  lemma ReplySent(s: State, fd: Fd) returns (steps: seq<Step>, t: State)
    requires !s.terminated && s.im == None && s.ipc.SendWantW? && s.ipc.fd == fd && MutexFree(s, fd)
    requires s.maps.writeMutex[fd] == s.ipc.conn
    ensures Run(s, steps, t) && t.ipc == Reading && Replied(s, t, fd)
  {
    var first, u := ReplyStarted(s, fd);
    if u.ipc == Reading {
      steps, t := first, u;
    } else {
      var later;
      if u.conns[s.ipc.conn].epipe {
        later, t := ReplyFailed(u, fd);
      } else {
        later, t := ReplyWritten(u, fd);
      }
      RunAppend(s, first, u, later, t);
      steps := first + later;
    }
  }

  // ------------------------------------------------------------------
  // The destruction of a request

  /** Request r as it stands at `pc`, holding the interface mutex. */
  function Inside(s: State, r: nat, pc: Pc): State
    requires r < |s.reqs|
  {
    s.(im := Some(Request(r)), reqs := s.reqs[r := s.reqs[r].(pc := pc)])
  }

  /** The request is idle and its entry its own, on a connection that is open. */
  ghost predicate Destructible(s: State, r: nat) {
    && !s.terminated && s.im == None && !s.maps.bad && s.identifier != 0
    && r < |s.reqs| && s.reqs[r].pc == Idle && !s.reqs[r].completed
    && s.reqs[r].generation == s.generation && s.reqs[r].identifier == s.identifier
    && OwnsEntry(s, r) && !s.maps.requestMap[s.reqs[r].key].closedByInterface
  }

  lemma DestructorEntered(s: State, r: nat) returns (steps: seq<Step>, t: State)
    requires Destructible(s, r)
    ensures Run(s, steps, t)
    ensures t == Inside(s, r, if s.reqs[r].closeConnection then WantWToInsert(ByDestructor) else DestroyRemove)
  {
    RunNone(s);
    hide Run;
    var q := s.reqs[r];
    var a, b, c := RequestThread(r, RStart(Destroy)), RequestThread(r, RLockI), RequestThread(r, RCheck);
    var u := Apply(s, a);
    assert u == s.(reqs := s.reqs[r := q.(pc := WantI(Destroy))]);
    RunMore(s, [], s, a);
    RunMore(s, [] + [a], u, b);
    u := Apply(u, b);
    assert u == Inside(s, r, Checking(Destroy));
    RunMore(s, [] + [a] + [b], u, c);
    steps, t := [] + [a] + [b] + [c], Apply(u, c);
  }

  /** A client that wants its connection closed has it scheduled. */
  lemma DestructorScheduled(s: State, r: nat) returns (steps: seq<Step>, t: State)
    requires !s.terminated && s.im == None && r < |s.reqs|
    requires s.reqs[r].conn < |s.conns| && s.conns[s.reqs[r].conn].owner == None
    ensures var u := Inside(s, r, WantWToInsert(ByDestructor));
            && Run(u, steps, t)
            && var fd := s.reqs[r].key.fd;
            t == Inside(s, r, DestroyRemove)
                 .(maps := s.maps.(closure := s.maps.closure + {fd}), settled := s.settled + {fd}, faults := t.faults)
  {
    var q, u := s.reqs[r], Inside(s, r, WantWToInsert(ByDestructor));
    RunNone(u);
    hide Run;
    var a, b, c := RequestThread(r, RLockW), RequestThread(r, RReleaseTemporary), RequestThread(r, RInsert(Written));
    var v := Apply(u, a);
    RunMore(u, [], u, a);
    RunMore(u, [] + [a], v, b);
    v := Apply(v, b);
    assert v.conns == s.conns && v == Inside(s, r, BareInsert(ByDestructor)).(faults := v.faults);
    RunMore(u, [] + [a] + [b], v, c);
    steps, t := [] + [a] + [b] + [c], Apply(v, c);
  }

  /** What remains after a request was destroyed. */
  ghost predicate Destroyed(s: State, t: State, r: nat)
    requires r < |s.reqs|
  {
    var q := s.reqs[r];
    && t == s.(maps := t.maps, settled := t.settled, faults := t.faults, reqs := t.reqs)
    && |t.reqs| == |s.reqs| && (forall o :: 0 <= o < |s.reqs| && o != r ==> t.reqs[o] == s.reqs[o])
    && t.maps == RemoveRequest(s.maps, q.key).(closure := t.maps.closure) && s.maps.closure <= t.maps.closure
  }

  lemma DestructorRemoves(s: State, r: nat) returns (step: Step)
    requires !s.terminated && r < |s.reqs| && s.reqs[r].pc == DestroyRemove
    ensures Enabled(s, step) && FreshStep(s, step)
    ensures Apply(s, step) == s.(im := None, maps := RemoveRequest(s.maps, s.reqs[r].key),
                                 faults := Apply(s, step).faults, reqs := Apply(s, step).reqs)
    ensures var q := s.reqs[r]; Apply(s, step).reqs == s.reqs[r := q.(pc := Dead, removals := q.removals + 1)]
  {
    step := RequestThread(r, RDestroyRemove);
  }

  lemma RequestDestroyed(s: State, r: nat) returns (steps: seq<Step>, t: State)
    requires Destructible(s, r)
    requires s.reqs[r].conn < |s.conns| && s.conns[s.reqs[r].conn].owner == None
    ensures Run(s, steps, t) && Destroyed(s, t, r)
  {
    var u;
    steps, u := DestructorEntered(s, r);
    if s.reqs[r].closeConnection {
      var more, v := DestructorScheduled(s, r);
      RunAppend(s, steps, u, more, v);
      steps, u := steps + more, v;
    }
    hide Run, Destructible;
    var step := DestructorRemoves(u, r);
    RunMore(s, steps, u, step);
    steps, t := steps + [step], Apply(u, step);
    RemovalKeepsClosure(s.maps, u.maps.closure, s.reqs[r].key);
    assert t.im == s.im;
  }

  lemma RemovalKeepsClosure(m: Maps, closure: set<Fd>, key: Key)
    ensures RemoveRequest(m.(closure := closure), key) == RemoveRequest(m, key).(closure := closure)
  {
  }

  // ------------------------------------------------------------------
  // Calm again

  lemma RunKeepsInv(s: State, steps: seq<Step>, t: State)
    requires Inv(s) && Run(s, steps, t)
    ensures Inv(t)
  {
    RunInv(s, steps);
  }

  lemma ReplyIsCalm(s: State, fd: Fd) returns (steps: seq<Step>, t: State)
    requires Inv(s) && !s.terminated && s.im == None && !s.maps.bad && fd in s.maps.recordStatus
    requires s.ipc.SendWantW? && s.ipc.fd == fd && MutexFree(s, fd) && AllIdle(s, fd)
    ensures Run(s, steps, t) && Calm(t, fd) && Replied(s, t, fd)
  {
    assert IPcOk(s);
    steps, t := ReplySent(s, fd);
    RunKeepsInv(s, steps, t);
    hide Inv, Run;
    assert Calm(t, fd);
  }

  /** The request built from an entry can be destroyed while its connection is
      open. */
  lemma CalmDestructible(s: State, key: Key)
    requires Calm(s, key.fd) && key in s.maps.requestMap && s.maps.requestMap[key].isAssigned
    ensures var r := s.maps.requestMap[key].holder;
            && Destructible(s, r) && s.reqs[r].key == key
            && s.reqs[r].conn < |s.conns| && s.conns[s.reqs[r].conn].owner == None
  {
    CalmMaps(s, key.fd);
    assert EntryOk(s, key);
    var r := s.maps.requestMap[key].holder;
    assert ReqOk(s, r);
    hide MapsOk, ConnOk, FdOk;
    assert !s.maps.requestMap[key].closedByInterface;
  }

  /** Its destruction ends as it began, with one entry less. */
  lemma DestructionIsCalm(s: State, key: Key) returns (steps: seq<Step>, t: State)
    requires Calm(s, key.fd) && key in s.maps.requestMap && s.maps.requestMap[key].isAssigned
    ensures Run(s, steps, t) && Calm(t, key.fd) && t.maxRequests == s.maxRequests
    ensures t.maps.requestMap == s.maps.requestMap - {key} && s.maps.closure <= t.maps.closure
    ensures t.maps.recordStatus == s.maps.recordStatus
  {
    CalmDestructible(s, key);
    CalmMaps(s, key.fd);
    var r := s.maps.requestMap[key].holder;
    steps, t := RequestDestroyed(s, r);
    RunKeepsInv(s, steps, t);
    RemoveRequestOk(s.maps, key, s.maxRequests);
    OthersIdle(s, t, r, key);
    hide Inv, Run, Destructible, MapsOk;
    assert Calm(t, key.fd);
  }

  lemma OthersIdle(s: State, t: State, r: nat, key: Key)
    requires Inv(s) && AllIdle(s, key.fd) && r < |s.reqs| && s.reqs[r].key == key && Destroyed(s, t, r)
    requires t.maps.requestMap == s.maps.requestMap - {key}
    ensures AllIdle(t, key.fd)
  {
    forall k | k in t.maps.requestMap && k.fd == key.fd && t.maps.requestMap[k].isAssigned
      ensures t.maps.requestMap[k].holder < |t.reqs| && t.reqs[t.maps.requestMap[k].holder].pc == Idle
    {
      assert EntryOk(s, k);
    }
  }
}
