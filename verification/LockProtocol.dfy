/** The protocol by which one interface thread and any number of FcgiRequest
    threads share connections, as a labelled step system. A step ends wherever
    a mutex is acquired or released or where another thread could observe a
    write. `faults` collects every use that the original would make of memory,
    a descriptor or a mutex it may not use, and every branch that the original
    treats as a logic error. */
module LockProtocol {
  import opened Bytes
  import opened InterfaceMaps
  import opened Wrappers


  /** The largest value of interface_identifier_; the next one is 1 again. */
  const MAX_IDENTIFIER: nat := 0xFFFF_FFFF_FFFF_FFFF

  /** The identifier given to the n-th interface of a program. */
  function IdentifierOf(generation: nat): nat
    requires generation > 0
  {
    (generation - 1) % MAX_IDENTIFIER + 1
  }

  datatype Thread = Interface | Request(index: nat)

  /** What a descriptor number denotes for the operating system. */
  datatype File = Socket(conn: nat) | ListenerCopy | Foreign

  /** An accepted connection: its socket and its write mutex with the flag that
      the mutex protects. `out` is what the client has received; `whole`,
      `partial` and `batch` record how it came about. `closes` counts how often
      the socket's descriptor was closed. */
  datatype Conn = Conn(fd: Fd, mutexAlive: bool, owner: Option<Thread>, corrupt: bool, epipe: bool,
                       out: seq<byte>, whole: seq<seq<byte>>, partial: seq<byte>, batch: seq<byte>,
                       closes: nat)

  datatype Op = Write(data: seq<byte>) | End(data: seq<byte>) | Abort | Destroy | Fail(force: bool)

  /** Who adds the connection to the closure set. */
  datatype Inserter = ByWriter | ByEnd | ByDestructor

  /** Where the thread of a request is. `held` says that the interface mutex is
      kept during the write. */
  datatype Pc =
    | Idle
    | WantI(op: Op)
    | Checking(op: Op)
    | WantW(held: bool, data: seq<byte>)
    | HasBoth(held: bool, data: seq<byte>)
    | Writing(held: bool, data: seq<byte>, done: nat)
    | FailBody(force: bool)
    | WantWToInsert(who: Inserter)
    | HasWToInsert(who: Inserter)
    | BareInsert(who: Inserter)
    | EndRemove
    | DestroyRemove
    | Dead

  datatype Req = Req(identifier: nat, generation: nat, key: Key, conn: nat, closeConnection: bool,
                     completed: bool, wasAborted: bool, removals: nat, pc: Pc)

  /** Where the thread of the interface is. */
  datatype IPc =
    | Absent
    | Ready
    | CleanDummies(todo: set<Fd>)
    | CleanClosures(todo: set<Fd>)
    | Reading
    | BeginAdmitted(fd: Fd, id: nat)
    | SendWantW(fd: Fd, conn: nat, data: seq<byte>)
    | SendHasW(fd: Fd, conn: nat, data: seq<byte>)
    | Sending(fd: Fd, conn: nat, data: seq<byte>, done: nat)
    | SendFailed(fd: Fd, conn: nat)
    | SendWantW2(fd: Fd, conn: nat)
    | SendInsert(fd: Fd, conn: nat)
    | Accepted(fd: Fd, conn: nat)
    | ClosingDummies(todo: set<Fd>)
    | WantDestroyI
    | ClosingConnections(todo: set<Fd>)
    | Dismantling

  datatype Fault =
    | DanglingRequestData | RemovalError | DuplicateRequest | DuplicateConnection | MissingMutex
    | MissingConnection | DeadMutex | WrongSocket | StrayClose | MutexDestroyedWhileHeld

  datatype State = State(
    terminated: bool,
    im: Option<Thread>,
    generation: nat,
    identifier: nat,
    maps: Maps,
    settled: set<Fd>,
    ipc: IPc,
    conns: seq<Conn>,
    reqs: seq<Req>,
    os: map<Fd, File>,
    faults: set<Fault>,
    maxRequests: nat)

  /** Before any interface exists; the application may have files open. */
  predicate Init(s: State) {
    && !s.terminated && s.im == None && s.generation == 0 && s.identifier == 0
    && s.maps == EMPTY_MAPS && s.settled == {} && s.ipc == Absent && s.conns == [] && s.reqs == []
    && s.faults == {} && s.maxRequests > 0
    && forall fd :: fd in s.os ==> s.os[fd] == Foreign
  }

  function Note(faults: set<Fault>, ok: bool, f: Fault): set<Fault> {
    if ok then faults else faults + {f}
  }

  // ------------------------------------------------------------------
  // Pieces of steps

  predicate RemovalFails(m: Maps, key: Key) {
    key !in m.requestMap || key.fd !in m.requestCount || m.requestCount[key.fd] == 0
  }

  /** The request data that the request refers to are still in the map, and it is
      the request that was built from them. */
  predicate OwnsEntry(s: State, r: nat)
    requires r < |s.reqs|
  {
    var key := s.reqs[r].key;
    && key in s.maps.requestMap
    && s.maps.requestMap[key].isAssigned && s.maps.requestMap[key].holder == r
  }

  /** RemoveRequest(request_identifier_) by the request itself, which becomes q. */
  function RemoveOwn(s: State, r: nat, q: Req): State
    requires r < |s.reqs|
  {
    s.(maps := RemoveRequest(s.maps, q.key),
       faults := Note(Note(s.faults, !RemovalFails(s.maps, q.key), RemovalError),
                      OwnsEntry(s, r), DanglingRequestData),
       reqs := s.reqs[r := q.(removals := q.removals + 1)])
  }

  function Goto(s: State, r: nat, pc: Pc): State
    requires r < |s.reqs|
  {
    s.(reqs := s.reqs[r := s.reqs[r].(pc := pc)])
  }

  /** Releases the interface mutex and returns to the application. */
  function Leave(s: State, r: nat, q: Req): State
    requires r < |s.reqs|
  {
    s.(im := None, reqs := s.reqs[r := q])
  }

  function GiveUp(q: Req): Req {
    q.(completed := true, wasAborted := true, pc := Idle)
  }

  function SetOwner(s: State, c: nat, owner: Option<Thread>): State
    requires c < |s.conns|
  {
    s.(conns := s.conns[c := s.conns[c].(owner := owner)])
  }

  predicate Denotes(os: map<Fd, File>, fd: Fd, c: nat) {
    fd in os && os[fd] == Socket(c)
  }

  /** A write to descriptor `fd` that transfers data[done..done + n]. */
  function Emit(k: Conn, data: seq<byte>, done: nat, n: nat): Conn
    requires done + n <= |data|
  {
    if done + n == |data| then
      k.(out := k.out + data[done..], whole := k.whole + [data], partial := [], owner := None)
    else
      k.(out := k.out + data[done..done + n], partial := data[..done + n], batch := data)
  }

  datatype WriteError = Timeout | BrokenPipe | OtherError

  /** A write or a wait for write readiness that failed for good: the flag is
      set when only a part was written, and the mutex is released. */
  function Abandon(k: Conn, partlyWritten: bool, broken: bool): Conn {
    k.(corrupt := k.corrupt || partlyWritten, epipe := k.epipe || broken, owner := None)
  }

  function CloseSocket(conns: seq<Conn>, os: map<Fd, File>, fd: Fd): seq<Conn> {
    if fd in os && os[fd].Socket? && os[fd].conn < |conns| then
      conns[os[fd].conn := conns[os[fd].conn].(closes := conns[os[fd].conn].closes + 1)]
    else conns
  }

  /** close(fd): closing anything that the interface did not open is a fault. */
  function CloseFd(s: State, fd: Fd): State {
    s.(conns := CloseSocket(s.conns, s.os, fd), os := s.os - {fd},
       faults := Note(s.faults, fd in s.os && s.os[fd] != Foreign, StrayClose))
  }

  /** dup2(listening_descriptor_, fd): the number stays in use. */
  function DupOver(s: State, fd: Fd): State {
    s.(conns := CloseSocket(s.conns, s.os, fd), os := s.os[fd := ListenerCopy],
       faults := Note(s.faults, fd in s.os && s.os[fd] != Foreign, StrayClose))
  }

  /** Erasing a node of write_mutex_map_ destroys the mutex. */
  function DestroyMutex(s: State, c: nat): State
    requires c < |s.conns|
  {
    s.(conns := s.conns[c := s.conns[c].(mutexAlive := false)],
       faults := Note(s.faults, s.conns[c].owner == None, MutexDestroyedWhileHeld))
  }

  // ------------------------------------------------------------------
  // Steps of a request thread

  predicate CanStart(s: State, r: nat, op: Op) {
    && r < |s.reqs| && s.reqs[r].pc == Idle && !s.reqs[r].completed
    && !op.Fail?
    && (op.Abort? ==> !s.reqs[r].wasAborted)
    && (op.Write? || op.End? ==> op.data != [])
  }

  function Start(s: State, r: nat, op: Op): State
    requires CanStart(s, r, op)
  {
    Goto(s, r, WantI(op))
  }

  /** The destructor of a completed request does nothing. */
  predicate CanDrop(s: State, r: nat) {
    r < |s.reqs| && s.reqs[r].pc == Idle && s.reqs[r].completed
  }

  function Drop(s: State, r: nat): State
    requires CanDrop(s, r)
  {
    Goto(s, r, Dead)
  }

  predicate CanLockI(s: State, r: nat) {
    r < |s.reqs| && s.reqs[r].pc.WantI? && s.im == None
  }

  function LockI(s: State, r: nat): State
    requires CanLockI(s, r)
  {
    Goto(s, r, Checking(s.reqs[r].pc.op)).(im := Some(Request(r)))
  }

  predicate CanCheck(s: State, r: nat) {
    r < |s.reqs| && s.reqs[r].pc.Checking?
  }

  /** The tests made right after the interface mutex was acquired: interface
      identity, bad state, closed connection, and (before writing) presence in
      the closure set. */
  function Check(s: State, r: nat): State
    requires CanCheck(s, r)
  {
    var q := s.reqs[r];
    var op := q.pc.op;
    if q.identifier != s.identifier || s.maps.bad then
      Leave(s, r, if op.Destroy? then q.(pc := Dead) else GiveUp(q))
    else if !OwnsEntry(s, r) then
      Leave(s, r, GiveUp(q)).(faults := s.faults + {DanglingRequestData})
    else
      CheckEntry(s, r, s.maps.requestMap[q.key])
  }

  function CheckEntry(s: State, r: nat, e: Entry): State
    requires CanCheck(s, r)
  {
    var q := s.reqs[r];
    match q.pc.op
    case Abort =>
      if e.closedByInterface then Withdraw(s, r)
      else Leave(s, r, q.(wasAborted := e.clientAbort, pc := Idle))
    case Destroy =>
      if q.closeConnection && !e.closedByInterface then Goto(s, r, WantWToInsert(ByDestructor))
      else Goto(s, r, DestroyRemove)
    case Write(data) =>
      if Doomed(s, q.key, e) then Withdraw(s, r) else Goto(s, r, WantW(false, data))
    case End(data) =>
      if Doomed(s, q.key, e) then Withdraw(s, r) else Goto(s, r, WantW(true, data))
    case Fail(force) =>
      if Doomed(s, q.key, e) then Withdraw(s, r) else Goto(s, r, FailBody(force))
  }

  /** The connection is closed or scheduled for closure. */
  predicate Doomed(s: State, key: Key, e: Entry) {
    e.closedByInterface || key.fd in s.maps.closure
  }

  function Withdraw(s: State, r: nat): State
    requires r < |s.reqs|
  {
    RemoveOwn(s, r, GiveUp(s.reqs[r])).(im := None)
  }

  predicate CanLockW(s: State, r: nat) {
    && r < |s.reqs| && (s.reqs[r].pc.WantW? || s.reqs[r].pc.WantWToInsert?)
    && s.reqs[r].conn < |s.conns| && s.conns[s.reqs[r].conn].owner == None
  }

  function LockW(s: State, r: nat): State
    requires CanLockW(s, r)
  {
    var q := s.reqs[r];
    var t := SetOwner(s, q.conn, Some(Request(r)))
             .(faults := Note(s.faults, s.conns[q.conn].mutexAlive, DeadMutex));
    Goto(t, r, if q.pc.WantW? then HasBoth(q.pc.held, q.pc.data) else HasWToInsert(q.pc.who))
  }

  predicate CanCheckFlag(s: State, r: nat) {
    r < |s.reqs| && s.reqs[r].pc.HasBoth? && s.reqs[r].conn < |s.conns|
  }

  /** With both mutexes held: a corrupt connection ends the request, otherwise
      the interface mutex is released (unless it is kept) and writing starts. */
  function CheckFlag(s: State, r: nat): State
    requires CanCheckFlag(s, r)
  {
    var q := s.reqs[r];
    if s.conns[q.conn].corrupt then
      Withdraw(SetOwner(s, q.conn, None), r)
    else
      Goto(s, r, Writing(q.pc.held, q.pc.data, 0)).(im := if q.pc.held then s.im else None)
  }

  predicate InWriteLoop(s: State, r: nat) {
    r < |s.reqs| && s.reqs[r].pc.Writing? && s.reqs[r].conn < |s.conns|
  }

  predicate CanSend(s: State, r: nat, n: nat) {
    && InWriteLoop(s, r) && !s.conns[s.reqs[r].conn].epipe
    && 0 < n && s.reqs[r].pc.done + n <= |s.reqs[r].pc.data|
  }

  /** writev transferred n bytes; after the last one the mutex is released. */
  function Send(s: State, r: nat, n: nat): State
    requires CanSend(s, r, n)
  {
    var q := s.reqs[r];
    var pc := q.pc;
    var t := s.(conns := s.conns[q.conn := Emit(s.conns[q.conn], pc.data, pc.done, n)],
                faults := Note(s.faults, Denotes(s.os, q.key.fd, q.conn), WrongSocket));
    Goto(t, r, if pc.done + n < |pc.data| then pc.(done := pc.done + n)
               else if pc.held then EndRemove else Idle)
  }

  predicate CanFailWrite(s: State, r: nat, e: WriteError) {
    InWriteLoop(s, r) && (s.conns[s.reqs[r].conn].epipe ==> e == BrokenPipe)
  }

  /** EPIPE never marks the connection corrupt; a time-out or another error does
      when a part was written. Only after releasing the write mutex is the
      interface mutex wanted. */
  function FailWrite(s: State, r: nat, e: WriteError): State
    requires CanFailWrite(s, r, e)
  {
    var q := s.reqs[r];
    var pc := q.pc;
    var k := Abandon(s.conns[q.conn], pc.done > 0 && e != BrokenPipe, e == BrokenPipe);
    var t := s.(conns := s.conns[q.conn := k],
                faults := Note(s.faults, Denotes(s.os, q.key.fd, q.conn), WrongSocket));
    Goto(t, r, if pc.held then FailBody(e != BrokenPipe) else WantI(Fail(e != BrokenPipe)))
  }

  predicate CanFailBody(s: State, r: nat) {
    r < |s.reqs| && s.reqs[r].pc.FailBody?
  }

  /** TryToAddToApplicationClosureRequestSet up to the second acquisition of the
      write mutex. */
  function DoFailBody(s: State, r: nat): State
    requires CanFailBody(s, r)
  {
    var q := s.reqs[r].(completed := true, wasAborted := true);
    if q.pc.force || q.closeConnection then RemoveOwn(s, r, q.(pc := WantWToInsert(ByWriter)))
    else RemoveOwn(s, r, q.(pc := Idle)).(im := None)
  }

  predicate CanReleaseTemporary(s: State, r: nat) {
    && r < |s.reqs| && s.reqs[r].pc.HasWToInsert? && s.reqs[r].pc.who != ByWriter
    && s.reqs[r].conn < |s.conns|
  }

  /** The unnamed lock_guard of the destructor and of EndRequestHelper releases
      the write mutex before the insertion that follows it. */
  function ReleaseTemporary(s: State, r: nat): State
    requires CanReleaseTemporary(s, r)
  {
    Goto(SetOwner(s, s.reqs[r].conn, None), r, BareInsert(s.reqs[r].pc.who))
  }

  predicate CanInsert(s: State, r: nat) {
    && r < |s.reqs| && s.reqs[r].conn < |s.conns|
    && (s.reqs[r].pc.BareInsert? || s.reqs[r].pc == HasWToInsert(ByWriter))
  }

  /** The result of InterfacePipeWrite; a second failure ends the program. */
  datatype PipeWrite = Written | FailedOnce | FailedTwice

  function Insert(s: State, r: nat, pipe: PipeWrite): State
    requires CanInsert(s, r)
  {
    var q := s.reqs[r];
    var m := s.maps.(closure := s.maps.closure + {q.key.fd}, bad := s.maps.bad || pipe != Written);
    var t := (if q.pc.HasWToInsert? then SetOwner(s, q.conn, None) else s)
             .(maps := m, settled := s.settled + {q.key.fd}, terminated := pipe == FailedTwice);
    if q.pc.who == ByDestructor then
      if pipe == Written then Goto(t, r, DestroyRemove) else Leave(t, r, q.(pc := Dead))
    else
      Leave(t, r, q.(pc := Idle))
  }

  predicate CanEndRemove(s: State, r: nat) {
    r < |s.reqs| && s.reqs[r].pc.EndRemove?
  }

  function DoEndRemove(s: State, r: nat): State
    requires CanEndRemove(s, r)
  {
    var q := s.reqs[r].(completed := true);
    if q.closeConnection then RemoveOwn(s, r, q.(pc := WantWToInsert(ByEnd)))
    else RemoveOwn(s, r, q.(pc := Idle)).(im := None)
  }

  predicate CanDestroyRemove(s: State, r: nat) {
    r < |s.reqs| && s.reqs[r].pc.DestroyRemove?
  }

  function DoDestroyRemove(s: State, r: nat): State
    requires CanDestroyRemove(s, r)
  {
    RemoveOwn(s, r, s.reqs[r].(pc := Dead)).(im := None)
  }

  // ------------------------------------------------------------------
  // Steps of the interface thread

  function Construct(s: State): State
    requires s.ipc.Absent? && s.im == None
  {
    s.(generation := s.generation + 1, identifier := IdentifierOf(s.generation + 1),
       maps := EMPTY_MAPS, settled := {}, ipc := Ready)
  }

  function BeginCleanup(s: State): State
    requires s.ipc.Ready? && s.im == None && !s.maps.bad
  {
    s.(im := Some(Interface), ipc := CleanDummies(s.maps.dummy))
  }

  function CleanDummy(s: State, fd: Fd): State
    requires s.ipc.CleanDummies? && fd in s.ipc.todo
  {
    var t := s.(ipc := CleanDummies(s.ipc.todo - {fd}));
    if KeysOn(s.maps.requestMap, fd) == {} then CloseFd(t, fd).(maps := DropDummy(s.maps, fd)) else t
  }

  function DummiesCleaned(s: State): State
    requires s.ipc.CleanDummies? && s.ipc.todo == {}
  {
    s.(ipc := CleanClosures(s.maps.closure))
  }

  /** Any error while cleaning up leaves the interface in a bad state. */
  function AbandonCleanup(s: State): State
    requires s.ipc.CleanDummies? || s.ipc.CleanClosures?
  {
    s.(im := None, maps := s.maps.(bad := true), ipc := Ready)
  }

  predicate CanRemoveConn(s: State, fd: Fd) {
    && s.ipc.CleanClosures? && fd in s.ipc.todo
    && (fd in s.maps.writeMutex ==> s.maps.writeMutex[fd] < |s.conns|)
  }

  /** RemoveConnection: a held write mutex is an error, as is a failing dup2. */
  function RemoveConn(s: State, fd: Fd, dup2Works: bool): State
    requires CanRemoveConn(s, fd)
  {
    if fd !in s.maps.writeMutex || fd !in s.maps.requestCount || fd !in s.maps.recordStatus then
      AbandonCleanup(s).(faults := s.faults + {MissingConnection})
    else if s.conns[s.maps.writeMutex[fd]].owner != None then AbandonCleanup(s)
    else
      var c := s.maps.writeMutex[fd];
      var t := s.(ipc := CleanClosures(s.ipc.todo - {fd}), maps := RemoveConnection(s.maps, fd));
      if !AssignedOn(s.maps.requestMap, fd) then CloseFd(DestroyMutex(t, c), fd)
      else if dup2Works then DestroyMutex(DupOver(t, fd), c)
      else AbandonCleanup(s.(maps := CleanupRequests(s.maps, fd)))
  }

  function ClosuresCleaned(s: State): State
    requires s.ipc.CleanClosures? && s.ipc.todo == {}
  {
    s.(im := None, maps := s.maps.(closure := {}), settled := {}, ipc := Reading)
  }

  /** Between the cleanup and the return of AcceptRequests the interface mutex
      is taken for single updates, each preceded by the bad-state test. */
  predicate MayUpdate(s: State) {
    s.ipc.Reading? && s.im == None && !s.maps.bad
  }

  /** A header was completed on a connection; `begin` says that it is a
      well-formed begin-request header. */
  predicate CanHeader(s: State, fd: Fd, id: nat) {
    MayUpdate(s) && fd in s.maps.recordStatus && id > 0
  }

  function Header(s: State, fd: Fd, id: nat, begin: bool): State
    requires CanHeader(s, fd, id)
  {
    var pending := if begin && Key(fd, id) !in s.maps.requestMap then Some(id) else None;
    s.(maps := s.maps.(recordStatus := s.maps.recordStatus[fd := pending]))
  }

  predicate CanAdmit(s: State, fd: Fd) {
    MayUpdate(s) && fd in s.maps.recordStatus && s.maps.recordStatus[fd].Some?
  }

  /** SendRecord looks up the write mutex of the connection. */
  function ToSend(s: State, fd: Fd, data: seq<byte>): State {
    if fd in s.maps.writeMutex then s.(ipc := SendWantW(fd, s.maps.writeMutex[fd], data))
    else s.(ipc := Ready, maps := s.maps.(bad := true), faults := s.faults + {MissingMutex})
  }

  /** The limit test on a complete begin-request record; the mutex is released
      between this test and AddRequest. */
  function Admit(s: State, fd: Fd, overload: bool, reply: seq<byte>): State
    requires CanAdmit(s, fd)
  {
    if fd !in s.maps.requestCount then
      s.(ipc := Ready, maps := s.maps.(bad := true), faults := s.faults + {MissingConnection})
    else if s.maps.requestCount[fd] >= s.maxRequests || overload then
      ToSend(s.(maps := s.maps.(recordStatus := s.maps.recordStatus[fd := None])), fd, reply)
    else
      s.(ipc := BeginAdmitted(fd, s.maps.recordStatus[fd].value))
  }

  predicate CanAdd(s: State) {
    s.ipc.BeginAdmitted? && s.im == None && !s.maps.bad && s.ipc.fd in s.maps.recordStatus
  }

  function Add(s: State, closeConnection: bool): State
    requires CanAdd(s)
  {
    var key := Key(s.ipc.fd, s.ipc.id);
    var m := AddRequest(s.maps, key, closeConnection);
    s.(maps := m.(recordStatus := s.maps.recordStatus[key.fd := None]), ipc := Reading,
       faults := Note(s.faults, key !in s.maps.requestMap && key.fd in s.maps.requestCount, DuplicateRequest))
  }

  predicate CanReject(s: State, key: Key) {
    && MayUpdate(s) && key in s.maps.requestMap && !s.maps.requestMap[key].isAssigned
    && key.fd in s.maps.recordStatus
  }

  /** An aborted or malformed request that was not handed out: it is removed,
      its connection may be scheduled for closure without taking the write
      mutex, and the client is told. */
  function Reject(s: State, key: Key, reply: seq<byte>): State
    requires CanReject(s, key)
  {
    var closure := if s.maps.requestMap[key].closeConnection then s.maps.closure + {key.fd} else s.maps.closure;
    var m := RemoveRequest(s.maps.(closure := closure), key);
    ToSend(s.(maps := m.(recordStatus := m.recordStatus[key.fd := None]),
              faults := Note(s.faults, !RemovalFails(s.maps, key), RemovalError)), key.fd, reply)
  }

  predicate CanMarkAborted(s: State, key: Key) {
    MayUpdate(s) && key in s.maps.requestMap && s.maps.requestMap[key].isAssigned
  }

  function MarkAborted(s: State, key: Key): State
    requires CanMarkAborted(s, key)
  {
    s.(maps := s.maps.(requestMap := s.maps.requestMap[key := s.maps.requestMap[key].(clientAbort := true)]))
  }

  /** A closed, failing or misbehaving connection is scheduled for closure while
      it is read; the write mutex is not taken. */
  predicate CanSchedule(s: State, fd: Fd) {
    MayUpdate(s) && fd in s.maps.recordStatus
  }

  function Schedule(s: State, fd: Fd): State
    requires CanSchedule(s, fd)
  {
    s.(maps := s.maps.(closure := s.maps.closure + {fd}))
  }

  predicate CanAssign(s: State, key: Key) {
    && MayUpdate(s) && key in s.maps.requestMap && !s.maps.requestMap[key].isAssigned
  }

  /** The construction of an FcgiRequest from a complete request. */
  function Assign(s: State, key: Key): State
    requires CanAssign(s, key)
  {
    if key.fd !in s.maps.writeMutex then
      s.(maps := s.maps.(bad := true), faults := s.faults + {MissingMutex})
    else
      var e := s.maps.requestMap[key];
      var q := Req(s.identifier, s.generation, key, s.maps.writeMutex[key.fd], e.closeConnection,
                   false, false, 0, Idle);
      s.(reqs := s.reqs + [q],
         maps := s.maps.(requestMap := s.maps.requestMap[key := e.(isAssigned := true, holder := |s.reqs|)]))
  }

  predicate CanReply(s: State, fd: Fd) {
    s.ipc.Reading? && fd in s.maps.recordStatus
  }

  /** The answer to a management record. */
  function Reply(s: State, fd: Fd, data: seq<byte>): State
    requires CanReply(s, fd)
  {
    ToSend(s, fd, data)
  }

  /** AcceptRequests returns, normally or because of an error. */
  function FinishReading(s: State): State
    requires s.ipc.Reading? || s.ipc.BeginAdmitted?
  {
    s.(ipc := Ready)
  }

  predicate CanSendLockW(s: State) {
    s.ipc.SendWantW? && s.ipc.conn < |s.conns| && s.conns[s.ipc.conn].owner == None
  }

  /** SendRecord takes the write mutex without the interface mutex. */
  function SendLockW(s: State): State
    requires CanSendLockW(s)
  {
    SetOwner(s, s.ipc.conn, Some(Interface))
      .(ipc := SendHasW(s.ipc.fd, s.ipc.conn, s.ipc.data),
        faults := Note(s.faults, s.conns[s.ipc.conn].mutexAlive, DeadMutex))
  }

  function SendCheckFlag(s: State): State
    requires s.ipc.SendHasW? && s.ipc.conn < |s.conns|
  {
    if s.conns[s.ipc.conn].corrupt || s.ipc.data == [] then
      SetOwner(s, s.ipc.conn, None).(ipc := Reading)
    else
      s.(ipc := Sending(s.ipc.fd, s.ipc.conn, s.ipc.data, 0))
  }

  predicate CanSendBytes(s: State, n: nat) {
    && s.ipc.Sending? && s.ipc.conn < |s.conns| && !s.conns[s.ipc.conn].epipe
    && 0 < n && s.ipc.done + n <= |s.ipc.data|
  }

  function SendBytes(s: State, n: nat): State
    requires CanSendBytes(s, n)
  {
    var p := s.ipc;
    s.(conns := s.conns[p.conn := Emit(s.conns[p.conn], p.data, p.done, n)],
       faults := Note(s.faults, Denotes(s.os, p.fd, p.conn), WrongSocket),
       ipc := if p.done + n < |p.data| then p.(done := p.done + n) else Reading)
  }

  predicate CanSendFail(s: State, e: WriteError) {
    && s.ipc.Sending? && s.ipc.conn < |s.conns|
    && (s.conns[s.ipc.conn].epipe ==> e == BrokenPipe)
  }

  /** SendRecord marks the connection corrupt after any partial write. */
  function SendFail(s: State, e: WriteError): State
    requires CanSendFail(s, e)
  {
    var p := s.ipc;
    s.(conns := s.conns[p.conn := Abandon(s.conns[p.conn], p.done > 0, e == BrokenPipe)],
       faults := Note(s.faults, Denotes(s.os, p.fd, p.conn), WrongSocket),
       ipc := SendFailed(p.fd, p.conn))
  }

  function SendLockI(s: State): State
    requires s.ipc.SendFailed? && s.im == None
  {
    s.(im := Some(Interface), ipc := SendWantW2(s.ipc.fd, s.ipc.conn))
  }

  predicate CanSendLockW2(s: State) {
    s.ipc.SendWantW2? && s.ipc.conn < |s.conns| && s.conns[s.ipc.conn].owner == None
  }

  function SendLockW2(s: State): State
    requires CanSendLockW2(s)
  {
    SetOwner(s, s.ipc.conn, Some(Interface))
      .(ipc := SendInsert(s.ipc.fd, s.ipc.conn),
        faults := Note(s.faults, s.conns[s.ipc.conn].mutexAlive, DeadMutex))
  }

  function SendInserted(s: State): State
    requires s.ipc.SendInsert? && s.ipc.conn < |s.conns|
  {
    SetOwner(s, s.ipc.conn, None)
      .(im := None, ipc := Reading, settled := s.settled + {s.ipc.fd},
        maps := s.maps.(closure := s.maps.closure + {s.ipc.fd}))
  }

  /** accept returns a descriptor that is not open. */
  function AcceptCall(s: State, fd: Fd): State
    requires s.ipc.Reading? && fd !in s.os
  {
    s.(os := s.os[fd := Socket(|s.conns|)], ipc := Accepted(fd, |s.conns|),
       conns := s.conns + [Conn(fd, false, None, false, false, [], [], [], [], 0)])
  }

  function AcceptReject(s: State): State
    requires s.ipc.Accepted?
  {
    CloseFd(s, s.ipc.fd).(ipc := Reading)
  }

  function AcceptRecord(s: State): State
    requires s.ipc.Accepted? && s.ipc.conn < |s.conns| && s.im == None
  {
    var fd := s.ipc.fd;
    if fd in s.maps.recordStatus || fd in s.maps.writeMutex || fd in s.maps.requestCount then
      CloseFd(s, fd).(ipc := Reading, faults := s.faults + {DuplicateConnection})
    else
      s.(maps := AddConnection(s.maps, fd, s.ipc.conn), ipc := Reading,
         conns := s.conns[s.ipc.conn := s.conns[s.ipc.conn].(mutexAlive := true)])
  }

  /** The destructor of the interface: dummies first, without the mutex. */
  function BeginDestroy(s: State): State
    requires s.ipc.Ready?
  {
    s.(ipc := ClosingDummies(s.maps.dummy))
  }

  function CloseDummy(s: State, fd: Fd): State
    requires s.ipc.ClosingDummies? && fd in s.ipc.todo
  {
    CloseFd(s, fd).(ipc := ClosingDummies(s.ipc.todo - {fd}))
  }

  function DummiesClosed(s: State): State
    requires s.ipc.ClosingDummies? && s.ipc.todo == {}
  {
    s.(ipc := WantDestroyI)
  }

  function DestroyLockI(s: State): State
    requires s.ipc.WantDestroyI? && s.im == None
  {
    s.(im := Some(Interface), ipc := ClosingConnections(s.maps.writeMutex.Keys))
  }

  predicate CanCloseConn(s: State, fd: Fd) {
    && s.ipc.ClosingConnections? && fd in s.ipc.todo && fd in s.maps.writeMutex
    && s.maps.writeMutex[fd] < |s.conns| && s.conns[s.maps.writeMutex[fd]].owner == None
  }

  /** The write mutex is acquired and released before its socket is closed. */
  function CloseConn(s: State, fd: Fd): State
    requires CanCloseConn(s, fd)
  {
    CloseFd(s, fd).(ipc := ClosingConnections(s.ipc.todo - {fd}))
  }

  function ConnectionsClosed(s: State): State
    requires s.ipc.ClosingConnections? && s.ipc.todo == {}
  {
    s.(im := None, identifier := 0, ipc := Dismantling)
  }

  /** The members are destroyed after the interface mutex was released. */
  function Dismantle(s: State): State
    requires s.ipc.Dismantling?
  {
    s.(ipc := Absent, maps := EMPTY_MAPS, settled := {},
       conns := seq(|s.conns|, c requires 0 <= c < |s.conns| => s.conns[c].(mutexAlive := false)),
       faults := Note(s.faults,
                      forall c | 0 <= c < |s.conns| && s.conns[c].mutexAlive :: s.conns[c].owner == None,
                      MutexDestroyedWhileHeld))
  }

  // ------------------------------------------------------------------
  // The labelled step system

  datatype RequestStep =
    | RStart(op: Op)
    | RDrop
    | RLockI
    | RCheck
    | RLockW
    | RCheckFlag
    | RSend(n: nat)
    | RFailWrite(e: WriteError)
    | RFailBody
    | RReleaseTemporary
    | RInsert(pipe: PipeWrite)
    | REndRemove
    | RDestroyRemove

  predicate RequestStepEnabled(s: State, r: nat, step: RequestStep) {
    match step
    case RStart(op) => CanStart(s, r, op)
    case RDrop => CanDrop(s, r)
    case RLockI => CanLockI(s, r)
    case RCheck => CanCheck(s, r)
    case RLockW => CanLockW(s, r)
    case RCheckFlag => CanCheckFlag(s, r)
    case RSend(n) => CanSend(s, r, n)
    case RFailWrite(e) => CanFailWrite(s, r, e)
    case RFailBody => CanFailBody(s, r)
    case RReleaseTemporary => CanReleaseTemporary(s, r)
    case RInsert(pipe) => CanInsert(s, r)
    case REndRemove => CanEndRemove(s, r)
    case RDestroyRemove => CanDestroyRemove(s, r)
  }

  function RequestStepApply(s: State, r: nat, step: RequestStep): State
    requires RequestStepEnabled(s, r, step)
  {
    match step
    case RStart(op) => Start(s, r, op)
    case RDrop => Drop(s, r)
    case RLockI => LockI(s, r)
    case RCheck => Check(s, r)
    case RLockW => LockW(s, r)
    case RCheckFlag => CheckFlag(s, r)
    case RSend(n) => Send(s, r, n)
    case RFailWrite(e) => FailWrite(s, r, e)
    case RFailBody => DoFailBody(s, r)
    case RReleaseTemporary => ReleaseTemporary(s, r)
    case RInsert(pipe) => Insert(s, r, pipe)
    case REndRemove => DoEndRemove(s, r)
    case RDestroyRemove => DoDestroyRemove(s, r)
  }

  datatype CleanupStep =
    | IConstruct
    | IBeginCleanup
    | ICleanDummy(fd: Fd)
    | IDummiesCleaned
    | IAbandonCleanup
    | IRemoveConn(fd: Fd, dup2Works: bool)
    | IClosuresCleaned
    | IBeginDestroy
    | ICloseDummy(fd: Fd)
    | IDummiesClosed
    | IDestroyLockI
    | ICloseConn(fd: Fd)
    | IConnectionsClosed
    | IDismantle

  predicate CleanupStepEnabled(s: State, step: CleanupStep) {
    match step
    case IConstruct => s.ipc.Absent? && s.im == None
    case IBeginCleanup => s.ipc.Ready? && s.im == None && !s.maps.bad
    case ICleanDummy(fd) => s.ipc.CleanDummies? && fd in s.ipc.todo
    case IDummiesCleaned => s.ipc.CleanDummies? && s.ipc.todo == {}
    case IAbandonCleanup => s.ipc.CleanDummies? || s.ipc.CleanClosures?
    case IRemoveConn(fd, _) => CanRemoveConn(s, fd)
    case IClosuresCleaned => s.ipc.CleanClosures? && s.ipc.todo == {}
    case IBeginDestroy => s.ipc.Ready?
    case ICloseDummy(fd) => s.ipc.ClosingDummies? && fd in s.ipc.todo
    case IDummiesClosed => s.ipc.ClosingDummies? && s.ipc.todo == {}
    case IDestroyLockI => s.ipc.WantDestroyI? && s.im == None
    case ICloseConn(fd) => CanCloseConn(s, fd)
    case IConnectionsClosed => s.ipc.ClosingConnections? && s.ipc.todo == {}
    case IDismantle => s.ipc.Dismantling?
  }

  function CleanupStepApply(s: State, step: CleanupStep): State
    requires CleanupStepEnabled(s, step)
  {
    match step
    case IConstruct => Construct(s)
    case IBeginCleanup => BeginCleanup(s)
    case ICleanDummy(fd) => CleanDummy(s, fd)
    case IDummiesCleaned => DummiesCleaned(s)
    case IAbandonCleanup => AbandonCleanup(s)
    case IRemoveConn(fd, works) => RemoveConn(s, fd, works)
    case IClosuresCleaned => ClosuresCleaned(s)
    case IBeginDestroy => BeginDestroy(s)
    case ICloseDummy(fd) => CloseDummy(s, fd)
    case IDummiesClosed => DummiesClosed(s)
    case IDestroyLockI => DestroyLockI(s)
    case ICloseConn(fd) => CloseConn(s, fd)
    case IConnectionsClosed => ConnectionsClosed(s)
    case IDismantle => Dismantle(s)
  }

  datatype ReadingStep =
    | IHeader(fd: Fd, id: nat, begin: bool)
    | IAdmit(fd: Fd, overload: bool, data: seq<byte>)
    | IAdd(closeConnection: bool)
    | IReject(key: Key, data: seq<byte>)
    | IMarkAborted(key: Key)
    | ISchedule(fd: Fd)
    | IAssign(key: Key)
    | IReply(fd: Fd, data: seq<byte>)
    | IFinishReading
    | ISendLockW
    | ISendCheckFlag
    | ISendBytes(n: nat)
    | ISendFail(e: WriteError)
    | ISendLockI
    | ISendLockW2
    | ISendInserted
    | IAcceptCall(fd: Fd)
    | IAcceptReject
    | IAcceptRecord

  predicate ReadingStepEnabled(s: State, step: ReadingStep) {
    match step
    case IHeader(fd, id, _) => CanHeader(s, fd, id)
    case IAdmit(fd, _, _) => CanAdmit(s, fd)
    case IAdd(_) => CanAdd(s)
    case IReject(key, _) => CanReject(s, key)
    case IMarkAborted(key) => CanMarkAborted(s, key)
    case ISchedule(fd) => CanSchedule(s, fd)
    case IAssign(key) => CanAssign(s, key)
    case IReply(fd, _) => CanReply(s, fd)
    case IFinishReading => s.ipc.Reading? || s.ipc.BeginAdmitted?
    case ISendLockW => CanSendLockW(s)
    case ISendCheckFlag => s.ipc.SendHasW? && s.ipc.conn < |s.conns|
    case ISendBytes(n) => CanSendBytes(s, n)
    case ISendFail(e) => CanSendFail(s, e)
    case ISendLockI => s.ipc.SendFailed? && s.im == None
    case ISendLockW2 => CanSendLockW2(s)
    case ISendInserted => s.ipc.SendInsert? && s.ipc.conn < |s.conns|
    case IAcceptCall(fd) => s.ipc.Reading? && fd !in s.os
    case IAcceptReject => s.ipc.Accepted?
    case IAcceptRecord => s.ipc.Accepted? && s.ipc.conn < |s.conns| && s.im == None
  }

  function ReadingStepApply(s: State, step: ReadingStep): State
    requires ReadingStepEnabled(s, step)
  {
    match step
    case IHeader(fd, id, begin) => Header(s, fd, id, begin)
    case IAdmit(fd, overload, data) => Admit(s, fd, overload, data)
    case IAdd(close) => Add(s, close)
    case IReject(key, data) => Reject(s, key, data)
    case IMarkAborted(key) => MarkAborted(s, key)
    case ISchedule(fd) => Schedule(s, fd)
    case IAssign(key) => Assign(s, key)
    case IReply(fd, data) => Reply(s, fd, data)
    case IFinishReading => FinishReading(s)
    case ISendLockW => SendLockW(s)
    case ISendCheckFlag => SendCheckFlag(s)
    case ISendBytes(n) => SendBytes(s, n)
    case ISendFail(e) => SendFail(s, e)
    case ISendLockI => SendLockI(s)
    case ISendLockW2 => SendLockW2(s)
    case ISendInserted => SendInserted(s)
    case IAcceptCall(fd) => AcceptCall(s, fd)
    case IAcceptReject => AcceptReject(s)
    case IAcceptRecord => AcceptRecord(s)
  }

  /** One step of some thread, or of the rest of the application, which may open
      and close descriptors of its own. */
  datatype Step =
    | RequestThread(r: nat, request: RequestStep)
    | Cleaning(cleanup: CleanupStep)
    | Accepting(reading: ReadingStep)
    | AppOpen(fd: Fd)
    | AppClose(fd: Fd)

  predicate Enabled(s: State, step: Step) {
    && !s.terminated
    && match step
       case RequestThread(r, p) => RequestStepEnabled(s, r, p)
       case Cleaning(p) => CleanupStepEnabled(s, p)
       case Accepting(p) => ReadingStepEnabled(s, p)
       case AppOpen(fd) => fd !in s.os
       case AppClose(fd) => fd in s.os && s.os[fd] == Foreign
  }

  function Apply(s: State, step: Step): State
    requires Enabled(s, step)
  {
    match step
    case RequestThread(r, p) => RequestStepApply(s, r, p)
    case Cleaning(p) => CleanupStepApply(s, p)
    case Accepting(p) => ReadingStepApply(s, p)
    case AppOpen(fd) => s.(os := s.os[fd := Foreign])
    case AppClose(fd) => s.(os := s.os - {fd})
  }

  /** `steps` can be taken one after the other from s. */
  predicate Valid(s: State, steps: seq<Step>)
    decreases |steps|
  {
    steps == [] || (Enabled(s, steps[0]) && Valid(Apply(s, steps[0]), steps[1..]))
  }

  function Exec(s: State, steps: seq<Step>): State
    requires Valid(s, steps)
    decreases |steps|
  {
    if steps == [] then s else Exec(Apply(s, steps[0]), steps[1..])
  }
}
