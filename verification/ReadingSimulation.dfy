/** The updates that the record reader makes to the shared maps are steps of the
    lock protocol. */
module ReadingSimulation {
  import opened Bytes
  import opened FcgiRecords
  import opened InterfaceMaps
  import opened RecordHandling
  import opened RequestStreams
  import opened Wrappers
  import L = LockProtocol
  import RequestParameters

  /** What both models record of a request. */
  predicate SameRequest(e: Entry, q: Request) {
    e.isAssigned == q.isAssigned && e.clientAbort == q.abort && e.closeConnection == q.closeConnection
  }

  /** The shared maps show the requests of the reader's connection. */
  ghost predicate Agree(maps: Maps, m: Connection, fd: Fd) {
    && (forall k: Key :: k.fd == fd ==> (k in maps.requestMap <==> k in m.requests))
    && (forall k: Key :: k.fd == fd && k in maps.requestMap ==> SameRequest(maps.requestMap[k], m.requests[k]))
    && (m.closing ==> fd in maps.closure)
  }

  /** The interface thread is reading the connection. */
  ghost predicate ReadingOn(s: L.State, fd: Fd) {
    !s.terminated && L.MayUpdate(s) && fd in s.maps.recordStatus && MapsOk(s.maps, s.maxRequests)
  }

  /** Steps that the interface thread takes for what it reads. */
  predicate Update(step: L.Step) {
    && step.Accepting?
    && (step.reading.IHeader? || step.reading.IAdmit? || step.reading.IAdd? || step.reading.IReject?
        || step.reading.IMarkAborted? || step.reading.ISchedule? || step.reading.IReply?)
  }

  /** A complete header is one step, which remembers an accepted begin-request
      record. */
  lemma HeaderSimulated(s: L.State, m: Connection, key: Key, kind: byte, contentLength: nat) returns (step: L.Step)
    requires ReadingOn(s, key.fd) && Agree(s.maps, m, key.fd) && key.id > 0
    ensures L.Enabled(s, step) && Update(step)
    ensures var t := L.Apply(s, step);
            && ReadingOn(t, key.fd) && Agree(t.maps, m, key.fd) && t.faults == s.faults
            && t.maps.recordStatus[key.fd] ==
               if kind == BEGIN_REQUEST && !Rejected(m, key, kind, contentLength) then Some(key.id) else None
  {
    step := L.Accepting(L.IHeader(key.fd, key.id, kind == BEGIN_REQUEST && contentLength == 8));
    var t := L.Apply(s, step);
    assert t.maps.writeMutex.Keys == t.maps.recordStatus.Keys;
  }

  /** The steps for a complete record. A reply, if there is one, is about to be
      sent afterwards. */
  ghost predicate Simulates(s: L.State, steps: seq<L.Step>, n: Connection, fd: Fd) {
    && L.Valid(s, steps)
    && (forall k :: 0 <= k < |steps| ==> Update(steps[k]))
    && var t := L.Exec(s, steps);
    && Agree(t.maps, n, fd) && t.faults == s.faults && !t.maps.bad
    && (t.ipc.Reading? || (t.ipc.SendWantW? && t.ipc.fd == fd))
  }

  lemma Simulates0(s: L.State, n: Connection, fd: Fd)
    requires ReadingOn(s, fd) && Agree(s.maps, n, fd)
    ensures Simulates(s, [], n, fd)
  {
  }

  lemma SimulatesMore(s: L.State, step: L.Step, steps: seq<L.Step>, n: Connection, fd: Fd)
    requires L.Enabled(s, step) && Update(step)
    requires Simulates(L.Apply(s, step), steps, n, fd) && L.Apply(s, step).faults == s.faults
    ensures Simulates(s, [step] + steps, n, fd)
  {
    hide L.Apply, L.Enabled, Agree, Update;
    assert ([step] + steps)[1..] == steps;
  }

  lemma SimulatesOne(s: L.State, step: L.Step, n: Connection, fd: Fd)
    requires L.Enabled(s, step) && Update(step)
    requires Simulates(L.Apply(s, step), [], n, fd) && L.Apply(s, step).faults == s.faults
    ensures Simulates(s, [step], n, fd)
  {
    SimulatesMore(s, step, [], n, fd);
    assert [step] + [] == [step];
  }

  lemma CountsAgree(s: L.State, m: Connection, fd: Fd)
    requires ReadingOn(s, fd) && Agree(s.maps, m, fd)
    ensures fd in s.maps.requestCount && s.maps.requestCount[fd] == |RequestsOn(m, fd)|
  {
    assert KeysOn(s.maps.requestMap, fd) == RequestsOn(m, fd);
  }

  lemma AddAgrees(maps: Maps, m: Connection, key: Key, role: nat, close: bool)
    requires Agree(maps, m, key.fd) && key !in maps.requestMap && key.fd in maps.requestCount
    ensures var n := InterfaceMaps.AddRequest(maps, key, close).(recordStatus := maps.recordStatus[key.fd := None]);
            Agree(n, WithRequest(m, key, NewRequest(role, close)), key.fd) && n.bad == maps.bad
  {
  }

  /** The new request is added after the limit test, in a step of its own. */
  lemma AddSimulated(s: L.State, m: Connection, key: Key, role: nat, close: bool)
    requires ReadingOn(s, key.fd) && Agree(s.maps, m, key.fd) && s.maps.recordStatus[key.fd] == Some(key.id)
    requires |RequestsOn(m, key.fd)| < s.maxRequests
    ensures Simulates(s.(ipc := L.BeginAdmitted(key.fd, key.id)), [L.Accepting(L.IAdd(close))],
                      WithRequest(m, key, NewRequest(role, close)), key.fd)
  {
    CountsAgree(s, m, key.fd);
    assert key !in s.maps.requestMap;
    AddAgrees(s.maps, m, key, role, close);
    hide MapsOk, RequestsOn, Agree, InterfaceMaps.AddRequest;
    var t, add := s.(ipc := L.BeginAdmitted(key.fd, key.id)), L.Accepting(L.IAdd(close));
    SimulatesOne(t, add, WithRequest(m, key, NewRequest(role, close)), key.fd);
  }

  lemma BeginSimulated(s: L.State, m: Connection, cfg: Config, key: Key, content: seq<byte>, reply: seq<byte>)
      returns (steps: seq<L.Step>)
    requires ReadingOn(s, cfg.fd) && Agree(s.maps, m, cfg.fd) && s.maxRequests == cfg.maxRequests
    requires key.fd == cfg.fd && |content| == 8 && s.maps.recordStatus[cfg.fd] == Some(key.id)
    ensures Simulates(s, steps, Begin(m, cfg, key, content), cfg.fd)
  {
    CountsAgree(s, m, cfg.fd);
    assert cfg.fd in s.maps.writeMutex;
    hide MapsOk, RequestsOn;
    var admit := L.Accepting(L.IAdmit(cfg.fd, cfg.overload(m.handled), reply));
    var t := L.Apply(s, admit);
    if Admits(m, cfg) {
      var close := ClosesConnection(content);
      AddSimulated(s, m, key, Role(content), close);
      assert t == s.(ipc := L.BeginAdmitted(key.fd, key.id));
      SimulatesMore(s, admit, [L.Accepting(L.IAdd(close))], Begin(m, cfg, key, content), cfg.fd);
      steps := [admit] + [L.Accepting(L.IAdd(close))];
    } else {
      SimulatesOne(s, admit, Begin(m, cfg, key, content), cfg.fd);
      steps := [admit];
    }
  }

  /** A request that is still being received is removed and answered. */
  lemma RejectSimulated(s: L.State, m: Connection, key: Key, n: Connection, reply: seq<byte>)
      returns (steps: seq<L.Step>)
    requires ReadingOn(s, key.fd) && Agree(s.maps, m, key.fd) && key in m.requests && !m.requests[key].isAssigned
    requires n.requests == m.requests - {key} && n.closing == (m.closing || m.requests[key].closeConnection)
    ensures Simulates(s, steps, n, key.fd)
  {
    var step := L.Accepting(L.IReject(key, reply));
    RemoveRequestOk(s.maps, key, s.maxRequests);
    assert key in KeysOn(s.maps.requestMap, key.fd);
    SimulatesOne(s, step, n, key.fd);
    steps := [step];
  }

  lemma AbortSimulated(s: L.State, m: Connection, key: Key, reply: seq<byte>) returns (steps: seq<L.Step>)
    requires ReadingOn(s, key.fd) && Agree(s.maps, m, key.fd)
    ensures Simulates(s, steps, Abort(m, key), key.fd)
  {
    hide MapsOk;
    if key !in m.requests {
      Simulates0(s, m, key.fd);
      steps := [];
    } else if m.requests[key].isAssigned {
      var step := L.Accepting(L.IMarkAborted(key));
      SimulatesOne(s, step, Abort(m, key), key.fd);
      steps := [step];
    } else {
      steps := RejectSimulated(s, m, key, Abort(m, key), reply);
    }
  }

  lemma StreamShared(m: Connection, cfg: Config, r: Record)
    requires ConnectionOk(m, cfg.fd)
    requires IsStream(r.kind) && r.id != 0 && Meets(m, Key(cfg.fd, r.id), r.kind, |r.content|, false)
    ensures var key, n := Key(cfg.fd, r.id), Handle(m, cfg, r, false);
            && !m.requests[key].isAssigned
            && (key in n.requests ==>
                  var q, p := m.requests[key], n.requests[key];
                  && n.requests == m.requests[key := p] && n.closing == m.closing
                  && q.isAssigned == p.isAssigned && q.abort == p.abort && q.closeConnection == p.closeConnection)
            && (key !in n.requests ==>
                  n.requests == m.requests - {key} && n.closing == (m.closing || m.requests[key].closeConnection))
  {
    hide RequestParameters.Acceptable, Distinct, Ready;
    var key := Key(cfg.fd, r.id);
    assert RequestOk(m.requests[key], key in m.ready);
  }

  lemma StreamSimulated(s: L.State, m: Connection, cfg: Config, r: Record, reply: seq<byte>)
      returns (steps: seq<L.Step>)
    requires ReadingOn(s, cfg.fd) && Agree(s.maps, m, cfg.fd) && ConnectionOk(m, cfg.fd)
    requires IsStream(r.kind) && r.id != 0 && Meets(m, Key(cfg.fd, r.id), r.kind, |r.content|, false)
    ensures Simulates(s, steps, Handle(m, cfg, r, false), cfg.fd)
  {
    hide Handle, MapsOk, ConnectionOk, RequestOk;
    var key, n := Key(cfg.fd, r.id), Handle(m, cfg, r, false);
    StreamShared(m, cfg, r);
    if key in n.requests {
      Simulates0(s, n, cfg.fd);
      steps := [];
    } else {
      steps := RejectSimulated(s, m, key, n, reply);
    }
  }

  /** Whatever a record does to the shared maps, the lock protocol can do in steps
      of the interface thread, none of which is one of the protocol's errors; so it
      can with any reply to the client. */
  lemma HandleSimulated(s: L.State, m: Connection, cfg: Config, r: Record, rejected: bool, reply: seq<byte>)
      returns (steps: seq<L.Step>)
    requires ReadingOn(s, cfg.fd) && Agree(s.maps, m, cfg.fd) && s.maxRequests == cfg.maxRequests
    requires ConnectionOk(m, cfg.fd) && Meets(m, Key(cfg.fd, r.id), r.kind, |r.content|, rejected)
    requires r.kind == BEGIN_REQUEST && r.id != 0 && !rejected ==> s.maps.recordStatus[cfg.fd] == Some(r.id)
    ensures Simulates(s, steps, Handle(m, cfg, r, rejected), cfg.fd)
  {
    var key := Key(cfg.fd, r.id);
    var n := Handle(m, cfg, r, rejected);
    if r.id == 0 {
      var answer := L.Accepting(L.IReply(cfg.fd, reply));
      assert cfg.fd in s.maps.writeMutex;
      SimulatesOne(s, answer, n, cfg.fd);
      steps := [answer];
    } else if rejected {
      Simulates0(s, n, cfg.fd);
      steps := [];
    } else if r.kind == BEGIN_REQUEST {
      steps := BeginSimulated(s, m, cfg, key, r.content, reply);
    } else if r.kind == ABORT_REQUEST {
      steps := AbortSimulated(s, m, key, reply);
    } else {
      steps := StreamSimulated(s, m, cfg, r, reply);
    }
  }

  lemma AssignAgrees(maps: Maps, m: Connection, key: Key, e: Entry)
    requires Agree(maps, m, key.fd) && key in maps.requestMap
    requires e == maps.requestMap[key].(isAssigned := true, holder := e.holder)
    ensures Agree(maps.(requestMap := maps.requestMap[key := e]),
                  m.(requests := m.requests[key := m.requests[key].(isAssigned := true)]), key.fd)
  {
  }

  /** Handing a listed request to the application. */
  lemma AssignSimulated(s: L.State, m: Connection, key: Key) returns (step: L.Step)
    requires ReadingOn(s, key.fd) && Agree(s.maps, m, key.fd) && ConnectionOk(m, key.fd) && key in m.ready
    ensures L.Enabled(s, step) && step.Accepting?
    ensures var t, q := L.Apply(s, step), m.requests[key];
            && ReadingOn(t, key.fd) && t.faults == s.faults
            && Agree(t.maps, m.(requests := m.requests[key := q.(isAssigned := true)]), key.fd)
            && |t.reqs| == |s.reqs| + 1 && t.reqs[|s.reqs|].key == key && t.reqs[..|s.reqs|] == s.reqs
            && t.reqs[|s.reqs|].pc == L.Idle
            && t == s.(reqs := t.reqs, maps := s.maps.(requestMap := t.maps.requestMap))
            && t.maps.requestMap ==
               s.maps.requestMap[key := s.maps.requestMap[key].(isAssigned := true, holder := |s.reqs|)]
  {
    step := L.Accepting(L.IAssign(key));
    assert RequestOk(m.requests[key], true);
    AssignKeeps(s.maps, key, |s.reqs|, s.maxRequests);
    AssignAgrees(s.maps, m, key, s.maps.requestMap[key].(isAssigned := true, holder := |s.reqs|));
    hide MapsOk, ConnectionOk, RequestOk, Agree;
    assert L.Apply(s, step).reqs == s.reqs + [L.Apply(s, step).reqs[|s.reqs|]];
  }

  lemma AssignKeeps(maps: Maps, key: Key, holder: nat, maxRequests: nat)
    requires MapsOk(maps, maxRequests) && key in maps.requestMap && !maps.requestMap[key].isAssigned
    ensures key.fd in maps.recordStatus ==> key.fd in maps.writeMutex
    ensures var e := maps.requestMap[key].(isAssigned := true, holder := holder);
            MapsOk(maps.(requestMap := maps.requestMap[key := e]), maxRequests)
  {
    var e := maps.requestMap[key].(isAssigned := true, holder := holder);
    forall fd ensures KeysOn(maps.requestMap[key := e], fd) == KeysOn(maps.requestMap, fd) {
      KeysOnAdd(maps.requestMap, key, e, fd);
    }
  }
}
