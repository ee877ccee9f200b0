/** Every life of a connection, as its reader goes through it over all calls, is a
    run of the lock protocol. */
module LifeSimulation {
  import opened Bytes
  import opened FcgiRecords
  import opened InterfaceMaps
  import opened ReadingSimulation
  import opened RecordHandling
  import opened RecordHistory
  import opened RecordReading
  import opened RequestStreams
  import opened Wrappers
  import I = LockInvariant
  import L = LockProtocol
  import M = LockMoves
  import T = LockTheorems

  /** The lock protocol is where the reader is: the shared maps show its requests,
      and an accepted begin-request header is remembered. */
  ghost predicate Mirrors(s: L.State, o: Open, fd: Fd) {
    && M.Calm(s, fd) && Agree(s.maps, o.m, fd)
    && (HeaderIn(o.u) && !o.rejected && HeaderId(o.u) != 0 && o.u[1] == BEGIN_REQUEST ==>
          s.maps.recordStatus[fd] == Some(HeaderId(o.u)))
  }

  // ------------------------------------------------------------------
  // Updates

  /** What no update changes. */
  ghost predicate Quiet(s: L.State, t: L.State) {
    && t == s.(maps := t.maps, ipc := t.ipc, faults := t.faults)
    && t.maps.writeMutex == s.maps.writeMutex && t.maps.recordStatus.Keys == s.maps.recordStatus.Keys
    && (forall k :: k in t.maps.requestMap && t.maps.requestMap[k].isAssigned ==>
          && k in s.maps.requestMap && s.maps.requestMap[k].isAssigned
          && t.maps.requestMap[k].holder == s.maps.requestMap[k].holder)
  }

  lemma RejectIsQuiet(s: L.State, key: Key, reply: seq<byte>)
    requires L.CanReject(s, key)
    ensures Quiet(s, L.Reject(s, key, reply))
  {
  }

  lemma BeginIsQuiet(s: L.State, p: L.ReadingStep)
    requires L.ReadingStepEnabled(s, p) && (p.IAdmit? || p.IAdd?)
    ensures Quiet(s, L.ReadingStepApply(s, p))
  {
  }

  lemma UpdateIsQuiet(s: L.State, step: L.Step)
    requires L.Enabled(s, step) && Update(step)
    ensures T.FreshStep(s, step) && Quiet(s, L.Apply(s, step))
  {
    if step.reading.IReject? {
      RejectIsQuiet(s, step.reading.key, step.reading.data);
    } else if step.reading.IAdmit? || step.reading.IAdd? {
      BeginIsQuiet(s, step.reading);
    } else {
      hide L.Admit, L.Add, L.Reject;
      assert Quiet(s, L.Apply(s, step));
    }
  }

  lemma QuietTwice(s: L.State, t: L.State, u: L.State)
    requires Quiet(s, t) && Quiet(t, u)
    ensures Quiet(s, u)
  {
  }

  lemma {:induction false} UpdatesAreQuiet(s: L.State, steps: seq<L.Step>)
    requires L.Valid(s, steps) && forall k :: 0 <= k < |steps| ==> Update(steps[k])
    ensures M.Run(s, steps, L.Exec(s, steps)) && Quiet(s, L.Exec(s, steps))
    decreases |steps|
  {
    hide L.Enabled, L.Apply, T.FreshStep, Quiet;
    if steps == [] {
      QuietSelf(s);
    } else {
      UpdateIsQuiet(s, steps[0]);
      UpdatesAreQuiet(L.Apply(s, steps[0]), steps[1..]);
      QuietTwice(s, L.Apply(s, steps[0]), L.Exec(s, steps));
    }
  }

  lemma QuietSelf(s: L.State)
    ensures Quiet(s, s)
  {
  }

  lemma QuietIsCalm(s: L.State, t: L.State, fd: Fd)
    requires M.Calm(s, fd) && Quiet(s, t) && I.Inv(t) && !t.maps.bad
    ensures t.im == None && !t.terminated && fd in t.maps.recordStatus && M.MutexFree(t, fd) && M.AllIdle(t, fd)
    ensures t.ipc.Reading? ==> M.Calm(t, fd)
  {
    hide I.Inv;
  }

  lemma ReplyAgrees(s: L.State, t: L.State, m: Connection, fd: Fd)
    requires Agree(s.maps, m, fd) && M.Replied(s, t, fd)
    ensures Agree(t.maps, m, fd)
  {
  }

  lemma CalmReads(s: L.State, fd: Fd)
    requires M.Calm(s, fd)
    ensures ReadingOn(s, fd)
  {
    hide I.ReqOk, I.ConnOk, I.EntryOk, I.FdOk;
  }

  /** A record with its reply. */
  lemma RecordSimulated(s: L.State, m: Connection, cfg: Config, r: Record, rejected: bool, reply: seq<byte>)
      returns (steps: seq<L.Step>, t: L.State)
    requires M.Calm(s, cfg.fd) && Agree(s.maps, m, cfg.fd) && s.maxRequests == cfg.maxRequests
    requires ConnectionOk(m, cfg.fd) && Meets(m, Key(cfg.fd, r.id), r.kind, |r.content|, rejected)
    requires r.kind == BEGIN_REQUEST && r.id != 0 && !rejected ==> s.maps.recordStatus[cfg.fd] == Some(r.id)
    ensures M.Run(s, steps, t) && M.Calm(t, cfg.fd) && Agree(t.maps, Handle(m, cfg, r, rejected), cfg.fd)
    ensures t.maxRequests == s.maxRequests
  {
    CalmReads(s, cfg.fd);
    steps := HandleSimulated(s, m, cfg, r, rejected, reply);
    t := L.Exec(s, steps);
    UpdatesAreQuiet(s, steps);
    M.RunKeepsInv(s, steps, t);
    QuietIsCalm(s, t, cfg.fd);
    hide M.Run, I.Inv, Agree, Handle, ConnectionOk, Meets;
    if t.ipc.SendWantW? {
      var more, u := M.ReplyIsCalm(t, cfg.fd);
      ReplyAgrees(t, u, Handle(m, cfg, r, rejected), cfg.fd);
      M.RunAppend(s, steps, t, more, u);
      steps, t := steps + more, u;
    }
  }

  /** A header. One with id 0 is not looked up. */
  lemma HeaderMirrored(s: L.State, m: Connection, fd: Fd, u: seq<byte>) returns (steps: seq<L.Step>, t: L.State)
    requires M.Calm(s, fd) && Agree(s.maps, m, fd) && HeaderIn(u)
    ensures M.Run(s, steps, t) && M.Calm(t, fd) && Agree(t.maps, m, fd) && t.maxRequests == s.maxRequests
    ensures HeaderId(u) != 0 && u[1] == BEGIN_REQUEST && !Rejected(m, KeyOf(u, fd), u[1], HeaderContentLength(u)) ==>
              t.maps.recordStatus[fd] == Some(HeaderId(u))
  {
    if HeaderId(u) == 0 {
      M.RunNone(s);
      steps, t := [], s;
    } else {
      CalmReads(s, fd);
      var step := HeaderSimulated(s, m, KeyOf(u, fd), u[1], HeaderContentLength(u));
      UpdateIsQuiet(s, step);
      M.RunNone(s);
      M.RunMore(s, [], s, step);
      steps, t := [] + [step], L.Apply(s, step);
      M.RunKeepsInv(s, steps, t);
      QuietIsCalm(s, t, fd);
    }
  }

  lemma HeaderPart(s: L.State, o: Open, cfg: Config, b: byte) returns (steps: seq<L.Step>, t: L.State)
    requires OpenOk(o, cfg.fd) && Mirrors(s, o, cfg.fd) && HeaderIn(o.u + [b])
    ensures M.Run(s, steps, t) && M.Calm(t, cfg.fd) && Agree(t.maps, o.m, cfg.fd) && t.maxRequests == s.maxRequests
    ensures var u := o.u + [b];
            !Judge(o, cfg.fd, u) && HeaderId(u) != 0 && u[1] == BEGIN_REQUEST ==>
              t.maps.recordStatus[cfg.fd] == Some(HeaderId(u))
  {
    JudgeOk(o, cfg.fd, b);
    hide M.Calm, M.Run, Agree, ConnectionOk;
    M.RunNone(s);
    steps, t := [], s;
    if !HeaderIn(o.u) {
      steps, t := HeaderMirrored(s, o.m, cfg.fd, o.u + [b]);
    }
  }

  lemma ByteSimulated(s: L.State, o: Open, cfg: Config, b: byte, reply: seq<byte>)
      returns (steps: seq<L.Step>, t: L.State)
    requires OpenOk(o, cfg.fd) && Mirrors(s, o, cfg.fd) && s.maxRequests == cfg.maxRequests
    ensures M.Run(s, steps, t) && Mirrors(t, ReadByte(o, cfg, b), cfg.fd) && t.maxRequests == s.maxRequests
  {
    var u := o.u + [b];
    M.RunNone(s);
    steps, t := [], s;
    if HeaderIn(u) {
      JudgeOk(o, cfg.fd, b);
      hide M.Calm, M.Run, Agree, ConnectionOk, Handle, Judge;
      steps, t := HeaderPart(s, o, cfg, b);
      if StartsWithRecord(u) {
        var more, v := RecordSimulated(t, o.m, cfg, FirstRecord(u), Judge(o, cfg.fd, u), reply);
        M.RunAppend(s, steps, t, more, v);
        steps, t := steps + more, v;
      }
      assert Mirrors(t, ReadByte(o, cfg, b), cfg.fd);
    }
  }

  // ------------------------------------------------------------------
  // Ends of calls

  /** The first listed request is handed over. */
  function AssignFirst(m: Connection): Connection
    requires m.ready != [] && m.ready[0] in m.requests
  {
    var key := m.ready[0];
    m.(requests := m.requests[key := m.requests[key].(isAssigned := true)], ready := m.ready[1..])
  }

  lemma AssignFirstOk(m: Connection, fd: Fd)
    requires ConnectionOk(m, fd) && m.ready != []
    ensures ConnectionOk(AssignFirst(m), fd)
  {
    var key, n := m.ready[0], AssignFirst(m);
    assert m.ready == [key] + m.ready[1..];
    assert RequestOk(m.requests[key], true) && key !in n.ready;
    forall k | k in n.requests && k.fd == fd ensures k.id > 0 && RequestOk(n.requests[k], k in n.ready) {
      assert RequestOk(m.requests[k], k in m.ready);
      assert k != key ==> (k in m.ready <==> k in n.ready);
    }
  }

  /** All listed requests are. */
  ghost predicate HandedOver(m: Connection, n: Connection) {
    && n.requests.Keys == m.requests.Keys && n.closing == m.closing
    && forall k :: k in m.requests ==>
         n.requests[k] == if k in m.ready then m.requests[k].(isAssigned := true) else m.requests[k]
  }

  lemma HandedOverMore(m: Connection, n: Connection)
    requires m.ready != [] && m.ready[0] in m.requests && HandedOver(AssignFirst(m), n)
    ensures HandedOver(m, n)
  {
    assert m.ready == [m.ready[0]] + m.ready[1..];
  }

  lemma NewIsIdle(s: L.State, t: L.State, key: Key)
    requires M.AllIdle(s, key.fd) && |t.reqs| == |s.reqs| + 1 && t.reqs[..|s.reqs|] == s.reqs
    requires t.reqs[|s.reqs|].pc == L.Idle && key in s.maps.requestMap
    requires t.maps.requestMap ==
             s.maps.requestMap[key := s.maps.requestMap[key].(isAssigned := true, holder := |s.reqs|)]
    ensures M.AllIdle(t, key.fd)
  {
    forall r | 0 <= r < |s.reqs| ensures t.reqs[r] == s.reqs[r] {
      assert t.reqs[..|s.reqs|][r] == t.reqs[r];
    }
  }

  lemma AssignmentIsCalm(s: L.State, m: Connection, fd: Fd) returns (step: L.Step, t: L.State)
    requires M.Calm(s, fd) && Agree(s.maps, m, fd) && ConnectionOk(m, fd) && m.ready != []
    ensures M.Run(s, [step], t) && M.Calm(t, fd) && Agree(t.maps, AssignFirst(m), fd)
    ensures t.maxRequests == s.maxRequests && t.maps.recordStatus == s.maps.recordStatus
  {
    CalmReads(s, fd);
    var key := m.ready[0];
    step := AssignSimulated(s, m, key);
    t := L.Apply(s, step);
    M.RunNone(s);
    M.RunMore(s, [], s, step);
    assert [] + [step] == [step];
    M.RunKeepsInv(s, [step], t);
    SameAgree(t.maps, m.(requests := m.requests[key := m.requests[key].(isAssigned := true)]), AssignFirst(m), fd);
    NewIsIdle(s, t, key);
    hide I.Inv, M.Run, Agree, ConnectionOk, MapsOk, M.AllIdle;
    assert M.Calm(t, fd);
  }

  /** Only the requests of the connection matter, and whether it is closing. */
  lemma SameAgree(maps: Maps, m: Connection, n: Connection, fd: Fd)
    requires Agree(maps, m, fd) && m.requests == n.requests && m.closing == n.closing
    ensures Agree(maps, n, fd)
  {
  }

  lemma {:induction false} HandOverSimulated(s: L.State, m: Connection, fd: Fd)
      returns (steps: seq<L.Step>, t: L.State, n: Connection)
    requires M.Calm(s, fd) && Agree(s.maps, m, fd) && ConnectionOk(m, fd)
    ensures M.Run(s, steps, t) && M.Calm(t, fd) && t.maxRequests == s.maxRequests
    ensures Agree(t.maps, n, fd) && HandedOver(m, n) && t.maps.recordStatus == s.maps.recordStatus
    decreases |m.ready|
  {
    hide M.Calm, M.Run, Agree;
    if m.ready == [] {
      M.RunNone(s);
      steps, t, n := [], s, m;
    } else {
      var step, u := AssignmentIsCalm(s, m, fd);
      AssignFirstOk(m, fd);
      var later;
      later, t, n := HandOverSimulated(u, AssignFirst(m), fd);
      HandedOverMore(m, n);
      M.RunAppend(s, [step], u, later, t);
      steps := [step] + later;
    }
  }

  lemma DepartureAgrees(maps: Maps, after: Maps, m: Connection, key: Key, fd: Fd)
    requires Agree(maps, m, fd) && after.requestMap == maps.requestMap - {key} && maps.closure <= after.closure
    ensures Agree(after, m.(requests := m.requests - {key}), fd)
  {
  }

  /** Assigned requests leave, one after the other. */
  lemma {:induction false} DeparturesSimulated(s: L.State, m: Connection, fd: Fd, left: set<Key>)
      returns (steps: seq<L.Step>, t: L.State)
    requires M.Calm(s, fd) && Agree(s.maps, m, fd)
    requires forall k :: k in left ==> k.fd == fd && k in m.requests && m.requests[k].isAssigned
    ensures M.Run(s, steps, t) && M.Calm(t, fd) && t.maxRequests == s.maxRequests
    ensures Agree(t.maps, m.(requests := m.requests - left), fd)
    ensures t.maps.recordStatus == s.maps.recordStatus
    decreases |left|
  {
    hide M.Calm, M.Run;
    if left == {} {
      assert m.requests - {} == m.requests;
      M.RunNone(s);
      steps, t := [], s;
    } else {
      var key :| key in left;
      var first, u := M.DestructionIsCalm(s, key);
      var n := m.(requests := m.requests - {key});
      DepartureAgrees(s.maps, u.maps, m, key, fd);
      var later;
      later, t := DeparturesSimulated(u, n, fd, left - {key});
      assert m.requests - {key} - (left - {key}) == m.requests - left;
      M.RunAppend(s, first, u, later, t);
      steps := first + later;
    }
  }

  lemma ScheduleSimulated(s: L.State, m: Connection, fd: Fd) returns (steps: seq<L.Step>, t: L.State)
    requires M.Calm(s, fd) && Agree(s.maps, m, fd)
    ensures M.Run(s, steps, t) && M.Calm(t, fd) && t.maxRequests == s.maxRequests
    ensures Agree(t.maps, m.(closing := true), fd) && t.maps.recordStatus == s.maps.recordStatus
  {
    var step := L.Accepting(L.ISchedule(fd));
    UpdateIsQuiet(s, step);
    M.RunNone(s);
    M.RunMore(s, [], s, step);
    steps, t := [] + [step], L.Apply(s, step);
    M.RunKeepsInv(s, steps, t);
    QuietIsCalm(s, t, fd);
  }

  /** Those that left since the last call. */
  function Departed(n: Connection, after: Connection, fd: Fd): set<Key> {
    set k | k in n.requests && k.fd == fd && k !in after.requests
  }

  /** Requests that leave have been handed over. */
  lemma DepartedAreAssigned(o: Open, fd: Fd, after: Connection, n: Connection)
    requires OpenOk(o, fd) && BetweenCalls(Render(o, fd).m, after, fd) && HandedOver(o.m, n)
    ensures forall k :: k in Departed(n, after, fd) ==> k.fd == fd && k in n.requests && n.requests[k].isAssigned
  {
    forall k | k in Departed(n, after, fd) ensures n.requests[k].isAssigned {
      assert k in Render(o, fd).m.requests;
      assert Render(o, fd).m.requests[k].isAssigned == o.m.requests[k].isAssigned;
    }
  }

  /** After hand-over and departures the maps show what the next call finds. */
  lemma AfterwardsAgree(maps: Maps, o: Open, fd: Fd, after: Connection, n: Connection)
    requires OpenOk(o, fd) && BetweenCalls(Render(o, fd).m, after, fd) && HandedOver(o.m, n)
    requires Agree(maps, n.(requests := n.requests - Departed(n, after, fd)), fd)
    requires after.closing ==> fd in maps.closure
    ensures Agree(maps, Resume(o, fd, after).m, fd)
  {
    var m := Resume(o, fd, after).m;
    ResumeBetween(o, fd, after);
    forall k: Key | k.fd == fd
      ensures k in maps.requestMap <==> k in m.requests
      ensures k in maps.requestMap ==> SameRequest(maps.requestMap[k], m.requests[k])
    {
      assert k in m.requests ==> m.requests[k] == n.requests[k] by {
        if k in m.requests {
          assert k in o.m.requests && RequestOk(o.m.requests[k], k in o.m.ready);
        }
      }
    }
  }

  /** The end of a call: the listed requests are handed over and some assigned ones
      are destroyed, which may schedule the closure of the connection. */
  lemma BetweenSimulated(s: L.State, o: Open, cfg: Config, after: Connection) returns (steps: seq<L.Step>, t: L.State)
    requires OpenOk(o, cfg.fd) && Mirrors(s, o, cfg.fd) && BetweenCalls(Render(o, cfg.fd).m, after, cfg.fd)
    ensures M.Run(s, steps, t) && Mirrors(t, Resume(o, cfg.fd, after), cfg.fd) && t.maxRequests == s.maxRequests
  {
    hide M.Calm, M.Run, Agree, BetweenCalls, Render;
    var first, u, n := HandOverSimulated(s, o.m, cfg.fd);
    DepartedAreAssigned(o, cfg.fd, after, n);
    var later;
    later, t := DeparturesSimulated(u, n, cfg.fd, Departed(n, after, cfg.fd));
    M.RunAppend(s, first, u, later, t);
    steps := first + later;
    if after.closing {
      var last, v := ScheduleSimulated(t, n.(requests := n.requests - Departed(n, after, cfg.fd)), cfg.fd);
      M.RunAppend(s, steps, t, last, v);
      ClosingAgrees(v.maps, n.(requests := n.requests - Departed(n, after, cfg.fd)), cfg.fd);
      steps, t := steps + last, v;
    }
    AfterwardsAgree(t.maps, o, cfg.fd, after, n);
  }

  lemma ClosingAgrees(maps: Maps, m: Connection, fd: Fd)
    requires Agree(maps, m.(closing := true), fd)
    ensures fd in maps.closure && Agree(maps, m, fd)
  {
  }

  // ------------------------------------------------------------------
  // Lives

  /** Whatever arrives on a connection, however its calls are cut, whatever the
      application does between them, and whatever is replied: it happens in some run
      of the interface thread and the request threads, and after that run, too, the
      shared maps show the requests of the reader. `replies` gives the reply to a
      record from the number of records handled before it. */
  lemma {:induction false} LifeSimulated(s: L.State, o: Open, cfg: Config, inputs: seq<Input>,
                                         replies: nat -> seq<byte>)
      returns (steps: seq<L.Step>, t: L.State)
    requires OpenOk(o, cfg.fd) && LifeOk(o, cfg, inputs)
    requires Mirrors(s, o, cfg.fd) && s.maxRequests == cfg.maxRequests
    ensures M.Run(s, steps, t) && t.faults == {} && t.maxRequests == cfg.maxRequests
    ensures Mirrors(t, Life(o, cfg, inputs), cfg.fd)
    decreases |inputs|
  {
    MirrorsFaultless(s, o, cfg.fd);
    hide Mirrors, M.Run, ConnectionOk;
    if inputs == [] {
      M.RunNone(s);
      steps, t := [], s;
    } else {
      var i := inputs[0];
      LiveOk(o, cfg, i);
      var first, u;
      match i {
        case Byte(b) => first, u := ByteSimulated(s, o, cfg, b, replies(o.m.handled));
        case Between(after) => first, u := BetweenSimulated(s, o, cfg, after);
      }
      var later;
      later, t := LifeSimulated(u, Live(o, cfg, i), cfg, inputs[1..], replies);
      M.RunAppend(s, first, u, later, t);
      steps := first + later;
    }
  }

  lemma MirrorsFaultless(s: L.State, o: Open, fd: Fd)
    requires Mirrors(s, o, fd)
    ensures s.faults == {}
  {
  }

  /** A connection that was just accepted mirrors a reader at its first byte. */
  lemma AcceptedMirrors(s: L.State, fd: Fd)
    requires I.Inv(s) && !s.terminated && L.MayUpdate(s) && M.MutexFree(s, fd)
    requires forall k :: k in s.maps.requestMap ==> k.fd != fd
    ensures Mirrors(s, Open(Connection(map[], [], [], false, 0), [], false), fd)
    ensures OpenOk(Open(Connection(map[], [], [], false, 0), [], false), fd)
  {
    hide I.ReqOk, I.ConnOk, I.EntryOk, I.FdOk;
    assert s.maps.writeMutex.Keys == s.maps.recordStatus.Keys;
  }
}
