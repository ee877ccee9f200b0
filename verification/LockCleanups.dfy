/** A whole cleanup in the step system, with the steps of other threads in between,
    does what the two loops of AcceptRequests are proved to do. */
module LockCleanups {
  import opened Bytes
  import opened InterfaceMaps
  import opened Wrappers
  import opened LockProtocol
  import opened LockInvariant
  import opened LockRequestProofs
  import opened LockTheorems
  import S = ServerInterface

  // ------------------------------------------------------------------
  // The run of one cleanup

  predicate CleansUp(ipc: IPc) {
    ipc.CleanDummies? || ipc.CleanClosures?
  }

  /** All steps are taken before the cleanup ends. */
  predicate CleaningUp(s: State, steps: seq<Step>)
    requires Valid(s, steps)
    decreases |steps|
  {
    steps == [] || (CleansUp(s.ipc) && CleaningUp(Apply(s, steps[0]), steps[1..]))
  }

  /** What the number denoted is closed. */
  predicate Vacated(s: State, t: State, fd: Fd) {
    fd in s.os && (fd !in t.os || t.os[fd] != s.os[fd])
  }

  function ClosedIn(s: State, step: Step): seq<Fd>
    requires Enabled(s, step)
  {
    match step
    case Cleaning(ICleanDummy(fd)) => if Vacated(s, Apply(s, step), fd) then [fd] else []
    case Cleaning(IRemoveConn(fd, _)) => if Vacated(s, Apply(s, step), fd) then [fd] else []
    case _ => []
  }

  /** The descriptors that the cleanup closes, in order. */
  function ClosedBy(s: State, steps: seq<Step>): seq<Fd>
    requires Valid(s, steps)
    decreases |steps|
  {
    if steps == [] then [] else ClosedIn(s, steps[0]) + ClosedBy(Apply(s, steps[0]), steps[1..])
  }

  // ------------------------------------------------------------------
  // How far it is

  function DeadDummies(m: Maps): set<Fd> {
    S.WithoutRequests(m.requestMap, m.dummy)
  }

  /** The maps after the first loop. */
  function WithoutDead(m: Maps): Maps {
    m.(dummy := m.dummy - DeadDummies(m), requestCount := m.requestCount - DeadDummies(m))
  }

  ghost predicate CleanupStands(m: Maps, t: State, closed: seq<Fd>) {
    match t.ipc
    case CleanDummies(todo) => todo <= m.dummy && S.DroppedSome(m, t.maps, m.dummy - todo, closed)
    case CleanClosures(todo) =>
      && todo <= m.closure && S.RemovedSome(WithoutDead(m), t.maps, m.closure - todo)
      && S.ClosedOnce(closed, DeadDummies(m) + (m.closure - todo))
    case Reading =>
      && S.RemovedSome(WithoutDead(m).(closure := {}), t.maps, m.closure)
      && S.ClosedOnce(closed, DeadDummies(m) + m.closure)
    case _ => t.ipc == Ready && t.maps.bad
  }

  lemma CleanupBegins(s: State)
    requires Enabled(s, Cleaning(IBeginCleanup))
    ensures CleanupStands(s.maps, Apply(s, Cleaning(IBeginCleanup)), [])
  {
    S.DroppedNone(s.maps);
    assert s.maps.dummy - s.maps.dummy == {};
  }

  lemma DummyStands(m: Maps, s: State, fd: Fd, closed: seq<Fd>)
    requires s.ipc.CleanDummies? && fd in s.ipc.todo && CleanupStands(m, s, closed)
    requires fd in s.os
    ensures CleanupStands(m, CleanDummy(s, fd), closed + if Vacated(s, CleanDummy(s, fd), fd) then [fd] else [])
  {
    var done := m.dummy - s.ipc.todo;
    S.DroppedSomeStep(m, s.maps, done, closed, fd);
    assert m.dummy - (s.ipc.todo - {fd}) == done + {fd};
    assert closed + [] == closed;
    hide S.DroppedSome, CloseSocket;
  }

  lemma DummiesStand(m: Maps, s: State, closed: seq<Fd>)
    requires s.ipc.CleanDummies? && s.ipc.todo == {} && CleanupStands(m, s, closed)
    ensures CleanupStands(m, DummiesCleaned(s), closed)
  {
    assert m.dummy - {} == m.dummy && m.closure - m.closure == {};
    assert s.maps == WithoutDead(m);
    S.RemovedNone(s.maps);
    assert DeadDummies(m) + {} == DeadDummies(m);
  }

  lemma ConnStands(m: Maps, s: State, fd: Fd, works: bool, closed: seq<Fd>)
    requires CanRemoveConn(s, fd) && CleanupStands(m, s, closed) && m.closure !! m.dummy
    requires fd in s.maps.writeMutex && fd in s.os && s.os[fd] == Socket(s.maps.writeMutex[fd])
    ensures var t := RemoveConn(s, fd, works);
            CleanupStands(m, t, closed + if Vacated(s, t, fd) then [fd] else [])
  {
    var t := RemoveConn(s, fd, works);
    var done := m.closure - s.ipc.todo;
    assert m.closure - (s.ipc.todo - {fd}) == done + {fd};
    assert DeadDummies(m) + done + {fd} == DeadDummies(m) + (done + {fd});
    if t.ipc.CleanClosures? {
      S.RemovedSomeStep(WithoutDead(m), s.maps, done, fd);
      S.ClosedOnceStep(closed, DeadDummies(m) + done, fd);
    }
    hide S.RemovedSome, S.ClosedOnce, CloseSocket, InterfaceMaps.RemoveConnection, CleanupRequests,
         AssignedOn, DeadDummies;
  }

  // ------------------------------------------------------------------
  // The whole run

  /** Nobody else changes the maps: the interface thread holds their mutex. */
  lemma OthersLeaveMaps(s: State, step: Step)
    requires Inv(s) && Enabled(s, step) && FreshStep(s, step) && CleansUp(s.ipc) && !step.Cleaning?
    ensures Apply(s, step).maps == s.maps && Apply(s, step).ipc == s.ipc
  {
    if step.RequestThread? {
      InvAround(s, step.r);
      RequestStepKept(s, step.r, step.request);
      hide RequestStepApply;
    }
  }

  lemma CleaningStands(m: Maps, s: State, p: CleanupStep, closed: seq<Fd>)
    requires Inv(s) && CleanupStepEnabled(s, p) && !s.terminated && CleansUp(s.ipc) && m.closure !! m.dummy
    requires CleanupStands(m, s, closed)
    ensures CleanupStands(m, CleanupStepApply(s, p), closed + ClosedIn(s, Cleaning(p)))
  {
    hide CleanupStands, RemoveConn, CleanDummy, S.RemovedSome, S.DroppedSome;
    assert closed + [] == closed;
    match p
    case ICleanDummy(fd) =>
      assert FdOk(s, fd);
      DummyStands(m, s, fd, closed);
    case IRemoveConn(fd, works) =>
      assert FdOk(s, fd);
      ConnStands(m, s, fd, works, closed);
    case IDummiesCleaned => DummiesStand(m, s, closed);
    case IClosuresCleaned => ConnectionsStand(m, s, closed);
    case _ => AbandonStands(m, s, closed);
  }

  lemma ConnectionsStand(m: Maps, s: State, closed: seq<Fd>)
    requires s.ipc.CleanClosures? && s.ipc.todo == {} && CleanupStands(m, s, closed)
    ensures CleanupStands(m, ClosuresCleaned(s), closed)
  {
    assert m.closure - {} == m.closure;
  }

  lemma AbandonStands(m: Maps, s: State, closed: seq<Fd>)
    requires CleansUp(s.ipc)
    ensures CleanupStands(m, AbandonCleanup(s), closed)
  {
  }

  lemma StepStands(m: Maps, s: State, step: Step, closed: seq<Fd>)
    requires Inv(s) && Enabled(s, step) && FreshStep(s, step) && CleansUp(s.ipc) && m.closure !! m.dummy
    requires CleanupStands(m, s, closed)
    ensures CleanupStands(m, Apply(s, step), closed + ClosedIn(s, step))
  {
    hide Inv, S.RemovedSome, S.DroppedSome, S.ClosedOnce;
    if step.Cleaning? {
      hide CleanupStands;
      CleaningStands(m, s, step.cleanup, closed);
    } else {
      OthersLeaveMaps(s, step);
      hide Apply, Enabled;
      assert closed + [] == closed;
    }
  }

  lemma {:induction false} CleanupRun(m: Maps, s: State, steps: seq<Step>, closed: seq<Fd>)
    requires Inv(s) && Valid(s, steps) && FreshRun(s, steps) && CleaningUp(s, steps) && m.closure !! m.dummy
    requires CleanupStands(m, s, closed)
    ensures CleanupStands(m, Exec(s, steps), closed + ClosedBy(s, steps))
    decreases |steps|
  {
    hide CleanupStands, Inv, Enabled, Apply, FreshStep, ClosedIn, CleansUp;
    if steps == [] {
      assert closed + [] == closed;
    } else {
      var step, u := steps[0], Apply(s, steps[0]);
      StepInv(s, step);
      StepStands(m, s, step, closed);
      CleanupRun(m, u, steps[1..], closed + ClosedIn(s, step));
      assert closed + ClosedIn(s, step) + ClosedBy(u, steps[1..]) == closed + ClosedBy(s, steps);
    }
  }

  /** A cleanup that runs to its end, whatever other threads do meanwhile, closes each
      dummy without requests and each scheduled connection exactly once and nothing
      else, and leaves the maps as the two loops do: first the dummies without
      requests are forgotten, then every scheduled connection leaves the active ones.
      A cleanup that ends otherwise leaves a bad state. */
  lemma WholeCleanup(s: State, steps: seq<Step>)
    requires Reachable(s) && Enabled(s, Cleaning(IBeginCleanup))
    requires var t := Apply(s, Cleaning(IBeginCleanup));
             Valid(t, steps) && FreshRun(t, steps) && CleaningUp(t, steps) && !CleansUp(Exec(t, steps).ipc)
    ensures var t := Apply(s, Cleaning(IBeginCleanup)); var u := Exec(t, steps);
            && (u.ipc == Reading ==>
                  var dead := S.WithoutRequests(s.maps.requestMap, s.maps.dummy);
                  var m := s.maps.(dummy := s.maps.dummy - dead, requestCount := s.maps.requestCount - dead);
                  && S.RemovedSome(m.(closure := {}), u.maps, s.maps.closure)
                  && S.ClosedOnce(ClosedBy(t, steps), dead + s.maps.closure) && dead !! s.maps.closure
                  && MapsOk(u.maps, u.maxRequests))
            && (u.ipc != Reading ==> u.ipc == Ready && u.maps.bad)
  {
    ReachableInv(s);
    assert s.maps.closure !! s.maps.dummy by {
      forall fd | fd in s.maps.closure ensures fd !in s.maps.dummy { assert FdOk(s, fd); }
    }
    CleanupBegins(s);
    var t := Apply(s, Cleaning(IBeginCleanup));
    StepInv(s, Cleaning(IBeginCleanup));
    RunInv(t, steps);
    hide Apply, Enabled, CleanupStands, MapsOk, ReqOk, ConnOk, FdOk, EntryOk, S.RemovedSome, S.ClosedOnce;
    CleanupRun(s.maps, t, steps, []);
    assert [] + ClosedBy(t, steps) == ClosedBy(t, steps);
    assert MapsOk(Exec(t, steps).maps, Exec(t, steps).maxRequests);
    CleanupResult(s.maps, Exec(t, steps), ClosedBy(t, steps));
  }

  lemma CleanupResult(m: Maps, u: State, closed: seq<Fd>)
    requires CleanupStands(m, u, closed) && !CleansUp(u.ipc)
    ensures u.ipc == Reading ==>
              S.RemovedSome(WithoutDead(m).(closure := {}), u.maps, m.closure)
              && S.ClosedOnce(closed, DeadDummies(m) + m.closure)
    ensures u.ipc != Reading ==> u.ipc == Ready && u.maps.bad
  {
  }
}
