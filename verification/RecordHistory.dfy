/** The whole life of a connection: its bytes, with the ends of ReadRecords calls
    anywhere among them, also within a record. */
module RecordHistory {
  import opened Bytes
  import opened Common
  import opened FcgiRecords
  import opened InterfaceMaps
  import opened RecordHandling
  import opened RecordReading
  import opened RequestStreams
  import opened Wrappers
  import RequestParameters

  /** A byte arrives, or a call ends and the next one finds the requests so. */
  datatype Input = Byte(b: byte) | Between(after: Connection)

  /** The reader seen from its last record boundary: what the complete records did,
      the bytes of the incomplete record, and the judgement of its header. */
  datatype Open = Open(m: Connection, u: seq<byte>, rejected: bool)

  predicate HeaderIn(u: seq<byte>) {
    |u| >= HEADER_LEN
  }

  function KeyOf(u: seq<byte>, fd: Fd): Key
    requires HeaderIn(u)
  {
    Key(fd, HeaderId(u))
  }

  ghost predicate OpenOk(o: Open, fd: Fd) {
    && ConnectionOk(o.m, fd) && !StartsWithRecord(o.u)
    && (HeaderIn(o.u) ==>
          && Meets(o.m, KeyOf(o.u, fd), o.u[1], HeaderContentLength(o.u), o.rejected)
          && Judged(o.m, KeyOf(o.u, fd), o.u[1], HeaderContentLength(o.u), o.rejected))
  }

  /** The judgement once the bytes of the record are `u`. */
  function Judge(o: Open, fd: Fd, u: seq<byte>): bool {
    if HeaderIn(o.u) then o.rejected
    else if HeaderIn(u) then Rejected(o.m, KeyOf(u, fd), u[1], HeaderContentLength(u))
    else false
  }

  lemma JudgeOk(o: Open, fd: Fd, b: byte)
    requires OpenOk(o, fd) && HeaderIn(o.u + [b])
    ensures var u := o.u + [b];
            && Meets(o.m, KeyOf(u, fd), u[1], HeaderContentLength(u), Judge(o, fd, u))
            && Judged(o.m, KeyOf(u, fd), u[1], HeaderContentLength(u), Judge(o, fd, u))
            && (HeaderIn(o.u) ==> u[..HEADER_LEN] == o.u[..HEADER_LEN] && HeaderId(u) == HeaderId(o.u)
                                  && HeaderContentLength(u) == HeaderContentLength(o.u))
            && (StartsWithRecord(u) ==> |u| == RecordLength(u))
  {
  }

  /** One byte: a record that it completes is handled. */
  function ReadByte(o: Open, cfg: Config, b: byte): Open
    requires OpenOk(o, cfg.fd)
  {
    var u := o.u + [b];
    var rejected := Judge(o, cfg.fd, u);
    if StartsWithRecord(u) then
      JudgeOk(o, cfg.fd, b);
      Open(Handle(o.m, cfg, FirstRecord(u), rejected), [], false)
    else Open(o.m, u, rejected)
  }

  lemma ReadByteOk(o: Open, cfg: Config, b: byte)
    requires OpenOk(o, cfg.fd)
    ensures OpenOk(ReadByte(o, cfg, b), cfg.fd)
  {
    var u := o.u + [b];
    if HeaderIn(u) {
      JudgeOk(o, cfg.fd, b);
      if StartsWithRecord(u) {
        HandleKeeps(o.m, cfg, FirstRecord(u), Judge(o, cfg.fd, u));
      }
    }
  }

  // ------------------------------------------------------------------
  // The reader that this stands for

  /** Content bytes of the incomplete record. */
  function ContentPart(u: seq<byte>): seq<byte>
    requires HeaderIn(u)
  {
    u[HEADER_LEN..HEADER_LEN + Min(|u| - HEADER_LEN, HeaderContentLength(u))]
  }

  /** The incomplete record is an accepted record of a request's stream. */
  predicate Streaming(o: Open) {
    HeaderIn(o.u) && !o.rejected && HeaderId(o.u) != 0 && o.u[1] != BEGIN_REQUEST && o.u[1] != ABORT_REQUEST
  }

  function PartialOf(o: Open): Partial {
    if !HeaderIn(o.u) then EMPTY_PARTIAL.(header := o.u, received := |o.u|)
    else
      Partial(o.u[..HEADER_LEN], |o.u|, HeaderContentLength(o.u), o.u[6], o.u[1], HeaderId(o.u), o.rejected,
              if o.rejected || Streaming(o) then [] else ContentPart(o.u))
  }

  /** What the reader holds: the content received of an incomplete stream record is
      already in its request. */
  function Render(o: Open, fd: Fd): Reader
    requires HeaderIn(o.u) ==> Meets(o.m, KeyOf(o.u, fd), o.u[1], HeaderContentLength(o.u), o.rejected)
  {
    Reader(PartialOf(o), if Streaming(o) then AppendContent(o.m, KeyOf(o.u, fd), o.u[1], ContentPart(o.u)) else o.m)
  }

  lemma RenderOk(o: Open, fd: Fd)
    requires OpenOk(o, fd)
    ensures ReaderOk(Render(o, fd), fd)
  {
    if Streaming(o) {
      AppendKeeps(o.m, Config(fd, 0, _ => false), KeyOf(o.u, fd), o.u[1], ContentPart(o.u));
    }
  }

  /** The first seven bytes. */
  lemma RenderEarly(o: Open, cfg: Config, b: byte)
    requires OpenOk(o, cfg.fd) && !HeaderIn(o.u + [b])
    ensures ReaderOk(Render(o, cfg.fd), cfg.fd)
    ensures Turn(Render(o, cfg.fd), cfg, [b]) == Render(ReadByte(o, cfg, b), cfg.fd)
  {
    RenderOk(o, cfg.fd);
  }

  /** The byte that completes the header, and perhaps the record. */
  lemma RenderHeader(o: Open, cfg: Config, b: byte)
    requires OpenOk(o, cfg.fd) && !HeaderIn(o.u) && HeaderIn(o.u + [b])
    ensures ReaderOk(Render(o, cfg.fd), cfg.fd) && OpenOk(ReadByte(o, cfg, b), cfg.fd)
    ensures Turn(Render(o, cfg.fd), cfg, [b]) == Render(ReadByte(o, cfg, b), cfg.fd)
  {
    RenderOk(o, cfg.fd);
    ReadByteOk(o, cfg, b);
    JudgeOk(o, cfg.fd, b);
    var u := o.u + [b];
    assert u[..HEADER_LEN] == u && ContentPart(u) == [];
    AddOk(Render(o, cfg.fd), cfg.fd, [b]);
    if Streaming(Open(o.m, u, Judge(o, cfg.fd, u))) {
      AppendNothing(o.m, KeyOf(u, cfg.fd), u[1]);
    }
  }

  lemma PartGrows(u: seq<byte>, b: byte)
    requires HeaderIn(u)
    ensures HeaderIn(u + [b]) && HeaderContentLength(u + [b]) == HeaderContentLength(u)
    ensures ContentPart(u + [b]) ==
            if |u| < HEADER_LEN + HeaderContentLength(u) then ContentPart(u) + [b] else ContentPart(u)
  {
    var n, more := HeaderContentLength(u), u + [b];
    if |u| < HEADER_LEN + n {
      assert ContentPart(u) == u[HEADER_LEN..] && ContentPart(more) == more[HEADER_LEN..];
    } else {
      assert ContentPart(u) == u[HEADER_LEN..HEADER_LEN + n];
      assert ContentPart(more) == more[HEADER_LEN..HEADER_LEN + n] == u[HEADER_LEN..HEADER_LEN + n];
    }
  }

  /** Where a byte behind the header goes. */
  lemma RenderAdd(o: Open, fd: Fd, b: byte)
    requires OpenOk(o, fd) && HeaderIn(o.u)
    ensures var u := o.u + [b];
            var n := Open(o.m, u, o.rejected);
            && ReaderOk(Render(o, fd), fd)
            && Meets(o.m, KeyOf(u, fd), u[1], HeaderContentLength(u), o.rejected)
            && Add(Render(o, fd), fd, [b]) == Render(n, fd)
  {
    RenderOk(o, fd);
    JudgeOk(o, fd, b);
    var u := o.u + [b];
    PartGrows(o.u, b);
    if |o.u| < HEADER_LEN + HeaderContentLength(o.u) && Streaming(o) {
      AppendTwice(o.m, KeyOf(u, fd), u[1], ContentPart(o.u), [b]);
    }
  }

  /** A byte behind the header. */
  lemma RenderBody(o: Open, cfg: Config, b: byte)
    requires OpenOk(o, cfg.fd) && HeaderIn(o.u)
    ensures ReaderOk(Render(o, cfg.fd), cfg.fd) && OpenOk(ReadByte(o, cfg, b), cfg.fd)
    ensures Turn(Render(o, cfg.fd), cfg, [b]) == Render(ReadByte(o, cfg, b), cfg.fd)
  {
    var u := o.u + [b];
    RenderAdd(o, cfg.fd, b);
    ReadByteOk(o, cfg, b);
    JudgeOk(o, cfg.fd, b);
    AddOk(Render(o, cfg.fd), cfg.fd, [b]);
    if StartsWithRecord(u) {
      assert ContentPart(u) == FirstRecord(u).content;
    }
  }

  /** The reader does with a byte what the record boundary view does. */
  lemma RenderByte(o: Open, cfg: Config, b: byte)
    requires OpenOk(o, cfg.fd)
    ensures ReaderOk(Render(o, cfg.fd), cfg.fd) && OpenOk(ReadByte(o, cfg, b), cfg.fd)
    ensures Consume(Render(o, cfg.fd), cfg, [b]) == Render(ReadByte(o, cfg, b), cfg.fd)
  {
    ReadByteOk(o, cfg, b);
    if HeaderIn(o.u) {
      RenderBody(o, cfg, b);
    } else if HeaderIn(o.u + [b]) {
      RenderHeader(o, cfg, b);
    } else {
      RenderEarly(o, cfg, b);
    }
    ConsumeWithin(Render(o, cfg.fd), cfg, [b]);
  }

  // ------------------------------------------------------------------
  // Ends of calls

  /** What the interlude between two calls does to the record boundary view. A
      request whose record is being received is not touched by it. */
  function Resume(o: Open, fd: Fd, after: Connection): Open
    requires Streaming(o) ==> KeyOf(o.u, fd) in o.m.requests
  {
    if Streaming(o) then
      o.(m := after.(requests := after.requests[KeyOf(o.u, fd) := o.m.requests[KeyOf(o.u, fd)]]))
    else o.(m := after)
  }

  lemma ResumeBetween(o: Open, fd: Fd, after: Connection)
    requires OpenOk(o, fd) && BetweenCalls(Render(o, fd).m, after, fd)
    ensures BetweenCalls(o.m, Resume(o, fd, after).m, fd)
    ensures Streaming(o) ==>
              var key := KeyOf(o.u, fd);
              key in after.requests && after.requests[key] == Render(o, fd).m.requests[key]
  {
    if Streaming(o) {
      var key := KeyOf(o.u, fd);
      assert RequestOk(o.m.requests[key], key in o.m.ready);
    }
  }

  lemma ResumeOk(o: Open, fd: Fd, after: Connection)
    requires OpenOk(o, fd) && BetweenCalls(Render(o, fd).m, after, fd)
    ensures OpenOk(Resume(o, fd, after), fd)
    ensures Render(Resume(o, fd, after), fd) == Reader(Render(o, fd).p, after)
  {
    ResumeBetween(o, fd, after);
    var n := Resume(o, fd, after);
    BetweenCallsOk(Reader(EMPTY_PARTIAL, o.m), Reader(EMPTY_PARTIAL, n.m), fd);
    if Streaming(o) {
      var key := KeyOf(o.u, fd);
      assert n.m.requests[key := after.requests[key]] == after.requests;
    }
  }

  // ------------------------------------------------------------------
  // Lives

  ghost predicate InputOk(o: Open, cfg: Config, i: Input)
    requires OpenOk(o, cfg.fd)
  {
    i.Between? ==> BetweenCalls(Render(o, cfg.fd).m, i.after, cfg.fd)
  }

  function Live(o: Open, cfg: Config, i: Input): Open
    requires OpenOk(o, cfg.fd) && InputOk(o, cfg, i)
  {
    match i
    case Byte(b) => ReadByte(o, cfg, b)
    case Between(after) => Resume(o, cfg.fd, after)
  }

  lemma LiveOk(o: Open, cfg: Config, i: Input)
    requires OpenOk(o, cfg.fd) && InputOk(o, cfg, i)
    ensures OpenOk(Live(o, cfg, i), cfg.fd)
  {
    match i
    case Byte(b) => ReadByteOk(o, cfg, b);
    case Between(after) => ResumeOk(o, cfg.fd, after);
  }

  ghost predicate LifeOk(o: Open, cfg: Config, inputs: seq<Input>)
    requires OpenOk(o, cfg.fd)
    decreases |inputs|
  {
    inputs != [] ==>
      InputOk(o, cfg, inputs[0]) && (LiveOk(o, cfg, inputs[0]); LifeOk(Live(o, cfg, inputs[0]), cfg, inputs[1..]))
  }

  ghost function Life(o: Open, cfg: Config, inputs: seq<Input>): (n: Open)
    requires OpenOk(o, cfg.fd) && LifeOk(o, cfg, inputs)
    ensures OpenOk(n, cfg.fd)
    decreases |inputs|
  {
    if inputs == [] then o
    else
      LiveOk(o, cfg, inputs[0]);
      Life(Live(o, cfg, inputs[0]), cfg, inputs[1..])
  }

  lemma {:induction false} LifeAppend(o: Open, cfg: Config, a: seq<Input>, b: seq<Input>)
    requires OpenOk(o, cfg.fd) && LifeOk(o, cfg, a) && LifeOk(Life(o, cfg, a), cfg, b)
    ensures LifeOk(o, cfg, a + b) && Life(o, cfg, a + b) == Life(Life(o, cfg, a), cfg, b)
    decreases |a|
  {
    if a == [] {
      assert a + b == b;
    } else {
      LiveOk(o, cfg, a[0]);
      LifeAppend(Live(o, cfg, a[0]), cfg, a[1..], b);
      assert (a + b)[1..] == a[1..] + b;
    }
  }

  // ------------------------------------------------------------------
  // The reader over its calls

  function AsInputs(s: seq<byte>): seq<Input> {
    seq(|s|, k requires 0 <= k < |s| => Byte(s[k]))
  }

  /** Within a call the bytes have the same effect one by one. */
  lemma {:induction false} PortionIsLived(o: Open, cfg: Config, s: seq<byte>)
    requires OpenOk(o, cfg.fd)
    ensures LifeOk(o, cfg, AsInputs(s)) && ReaderOk(Render(o, cfg.fd), cfg.fd)
    ensures Consume(Render(o, cfg.fd), cfg, s) == Render(Life(o, cfg, AsInputs(s)), cfg.fd)
    decreases |s|
  {
    RenderOk(o, cfg.fd);
    var inputs := AsInputs(s);
    if s != [] {
      RenderByte(o, cfg, s[0]);
      LiveOk(o, cfg, inputs[0]);
      PortionIsLived(ReadByte(o, cfg, s[0]), cfg, s[1..]);
      assert inputs[1..] == AsInputs(s[1..]);
      assert s == [s[0]] + s[1..];
      ConsumeAppend(Render(o, cfg.fd), cfg, [s[0]], s[1..]);
    }
  }

  /** The inputs of the first `k` calls. */
  function InputsOf(readers: seq<Reader>, portions: seq<seq<byte>>, k: nat): seq<Input>
    requires k <= |portions| < |readers|
  {
    if k == 0 then []
    else InputsOf(readers, portions, k - 1) + (AsInputs(portions[k - 1]) + [Between(readers[k].m)])
  }

  lemma LifeOne(o: Open, cfg: Config, i: Input)
    requires OpenOk(o, cfg.fd) && InputOk(o, cfg, i)
    ensures LifeOk(o, cfg, [i]) && Life(o, cfg, [i]) == Live(o, cfg, i)
  {
    hide OpenOk, InputOk, Live;
    LiveOk(o, cfg, i);
    var n := Live(o, cfg, i);
    assert [i][1..] == [] && LifeOk(n, cfg, []) && Life(n, cfg, []) == n;
  }

  lemma OneCall(o: Open, cfg: Config, s: seq<byte>, next: Reader)
    requires OpenOk(o, cfg.fd) && ReaderOk(Render(o, cfg.fd), cfg.fd)
    requires var n := Consume(Render(o, cfg.fd), cfg, s); BetweenCalls(n.m, next.m, cfg.fd) && next.p == n.p
    ensures var inputs := AsInputs(s) + [Between(next.m)];
            LifeOk(o, cfg, inputs) && Render(Life(o, cfg, inputs), cfg.fd) == next
  {
    hide OpenOk, ReaderOk, BetweenCalls, Resume, Render, Consume;
    PortionIsLived(o, cfg, s);
    var n := Life(o, cfg, AsInputs(s));
    var last := [Between(next.m)];
    ResumeOk(n, cfg.fd, next.m);
    LifeOne(n, cfg, last[0]);
    LifeAppend(o, cfg, AsInputs(s), last);
  }

  /** The calls of a reader that starts at a record boundary are a life, and what
      the reader holds is what that life has led to. */
  lemma {:induction false} CallsAreALife(readers: seq<Reader>, portions: seq<seq<byte>>, cfg: Config, k: nat)
    requires Calls(readers, portions, cfg) && k <= |portions| && readers[0].p == EMPTY_PARTIAL
    ensures var o := Open(readers[0].m, [], false);
            && OpenOk(o, cfg.fd) && LifeOk(o, cfg, InputsOf(readers, portions, k))
            && Render(Life(o, cfg, InputsOf(readers, portions, k)), cfg.fd) == readers[k]
    ensures Received(InputsOf(readers, portions, k)) == Flatten(portions[..k])
  {
    var o := Open(readers[0].m, [], false);
    if k == 0 {
      assert Render(o, cfg.fd) == readers[0];
    } else {
      hide ConnectionOk, Consume, BetweenCalls, Render, Live, InputOk, Life, LifeOk;
      CallsAreALife(readers, portions, cfg, k - 1);
      var before, s := InputsOf(readers, portions, k - 1), portions[k - 1];
      var n := Life(o, cfg, before);
      RenderOk(n, cfg.fd);
      OneCall(n, cfg, s, readers[k]);
      LifeAppend(o, cfg, before, AsInputs(s) + [Between(readers[k].m)]);
      assert portions[..k] == portions[..k - 1] + [s];
      FlattenMore(portions[..k - 1], s);
      ReceivedAppend(before, AsInputs(s) + [Between(readers[k].m)]);
      ReceivedPortion(s, readers[k].m);
    }
  }

  // ------------------------------------------------------------------
  // Records

  /** The bytes among the inputs. */
  function Received(inputs: seq<Input>): seq<byte> {
    if inputs == [] then []
    else if inputs[0].Byte? then [inputs[0].b] + Received(inputs[1..])
    else Received(inputs[1..])
  }

  lemma {:induction false} ReceivedAppend(a: seq<Input>, b: seq<Input>)
    ensures Received(a + b) == Received(a) + Received(b)
  {
    if a == [] {
      assert a + b == b;
    } else {
      ReceivedAppend(a[1..], b);
      assert (a + b)[1..] == a[1..] + b;
    }
  }

  lemma {:induction false} ReceivedPortion(s: seq<byte>, after: Connection)
    ensures Received(AsInputs(s)) == s
    ensures Received(AsInputs(s) + [Between(after)]) == s
    decreases |s|
  {
    var last := [Between(after)];
    assert last[1..] == [] && Received(last) == [];
    ReceivedAppend(AsInputs(s), last);
    if s != [] {
      ReceivedPortion(s[1..], after);
      assert AsInputs(s)[1..] == AsInputs(s[1..]);
      assert s == [s[0]] + s[1..];
    }
  }

  /** The records handled over a life, in order. */
  ghost function Handled(o: Open, cfg: Config, inputs: seq<Input>): seq<Record>
    requires OpenOk(o, cfg.fd) && LifeOk(o, cfg, inputs)
    decreases |inputs|
  {
    if inputs == [] then []
    else
      LiveOk(o, cfg, inputs[0]);
      var rest := Handled(Live(o, cfg, inputs[0]), cfg, inputs[1..]);
      if inputs[0].Byte? && StartsWithRecord(o.u + [inputs[0].b]) then
        [FirstRecord(o.u + [inputs[0].b])] + rest
      else rest
  }

  /** A record that is complete with its last byte is the first of the stream. */
  lemma ParseFirst(u: seq<byte>, rest: seq<byte>)
    requires StartsWithRecord(u) && |u| == RecordLength(u)
    ensures Parse(u + rest) == [FirstRecord(u)] + Parse(rest) && Unparsed(u + rest) == Unparsed(rest)
  {
    assert u[RecordLength(u)..] == [] && Parse([]) == [] && Unparsed([]) == [];
    assert Unparsed(u) == [] && Parse(u) == [FirstRecord(u)] + [];
    ParseAppend(u, rest);
    assert [] + rest == rest;
  }

  /** Over all calls the reader recovers exactly the records that the headers
      delimit in the bytes received, wherever these were cut, and what remains is
      the incomplete record. */
  lemma {:induction false} RecordsRecovered(o: Open, cfg: Config, inputs: seq<Input>)
    requires OpenOk(o, cfg.fd) && LifeOk(o, cfg, inputs)
    ensures Handled(o, cfg, inputs) == Parse(o.u + Received(inputs))
    ensures Life(o, cfg, inputs).u == Unparsed(o.u + Received(inputs))
    decreases |inputs|
  {
    hide ConnectionOk, Meets, Judged, Handle, BetweenCalls, Render;
    if inputs == [] {
      assert o.u + [] == o.u;
    } else {
      var n := Live(o, cfg, inputs[0]);
      LiveOk(o, cfg, inputs[0]);
      RecordsRecovered(n, cfg, inputs[1..]);
      var rest := Received(inputs[1..]);
      if inputs[0].Byte? {
        var u := o.u + [inputs[0].b];
        assert o.u + ([inputs[0].b] + rest) == u + rest;
        if StartsWithRecord(u) {
          JudgeOk(o, cfg.fd, inputs[0].b);
          ParseFirst(u, rest);
          assert [] + rest == rest;
        }
      }
    }
  }

  // ------------------------------------------------------------------
  // One request over a life

  /** What an input means for one request. */
  function EventsOf(o: Open, cfg: Config, i: Input, key: Key): seq<OwnEvent>
    requires OpenOk(o, cfg.fd)
  {
    match i
    case Byte(b) =>
      var u := o.u + [b];
      if StartsWithRecord(u) && HeaderId(u) == key.id then
        [Got(Own(FirstRecord(u), !Judge(o, cfg.fd, u) && Admits(o.m, cfg)))]
      else []
    case Between(after) =>
      (if key in o.m.ready then [Handed] else [])
      + (if key in o.m.requests && key !in after.requests then [Left] else [])
  }

  ghost function OwnEvents(o: Open, cfg: Config, inputs: seq<Input>, key: Key): seq<OwnEvent>
    requires OpenOk(o, cfg.fd) && LifeOk(o, cfg, inputs)
    decreases |inputs|
  {
    if inputs == [] then []
    else
      LiveOk(o, cfg, inputs[0]);
      EventsOf(o, cfg, inputs[0], key) + OwnEvents(Live(o, cfg, inputs[0]), cfg, inputs[1..], key)
  }

  lemma ByteOwn(o: Open, cfg: Config, b: byte, key: Key)
    requires OpenOk(o, cfg.fd) && key.fd == cfg.fd && key.id > 0
    ensures Get(ReadByte(o, cfg, b).m, key) == OwnRun(Get(o.m, key), EventsOf(o, cfg, Byte(b), key))
  {
    var u := o.u + [b];
    if StartsWithRecord(u) {
      JudgeOk(o, cfg.fd, b);
      HandleOwn(o.m, cfg, FirstRecord(u), Judge(o, cfg.fd, u), key);
    }
  }

  lemma BetweenOwn(o: Open, cfg: Config, after: Connection, key: Key)
    requires OpenOk(o, cfg.fd) && InputOk(o, cfg, Between(after)) && key.fd == cfg.fd && key.id > 0
    ensures Get(Resume(o, cfg.fd, after).m, key) == OwnRun(Get(o.m, key), EventsOf(o, cfg, Between(after), key))
  {
    ResumeBetween(o, cfg.fd, after);
    var es := EventsOf(o, cfg, Between(after), key);
    var n := Resume(o, cfg.fd, after).m;
    assert key in after.requests <==> key in n.requests;
    OwnRunAppend(Get(o.m, key), if key in o.m.ready then [Handed] else [],
                 if key in o.m.requests && key !in n.requests then [Left] else []);
    OwnRunOne(Get(o.m, key), Handed);
    OwnRunOne(Get(o.m, key), Left);
    OwnRunOne(OwnMove(Get(o.m, key), Handed), Left);
  }

  lemma EventsOwn(o: Open, cfg: Config, i: Input, key: Key)
    requires OpenOk(o, cfg.fd) && InputOk(o, cfg, i) && key.fd == cfg.fd && key.id > 0
    ensures Get(Live(o, cfg, i).m, key) == OwnRun(Get(o.m, key), EventsOf(o, cfg, i, key))
  {
    match i
    case Byte(b) => ByteOwn(o, cfg, b, key);
    case Between(after) => BetweenOwn(o, cfg, after, key);
  }

  /** Each request of a connection evolves as if the connection carried its records
      only, over all calls, whatever records of other ids are between them. */
  lemma {:induction false} Demultiplexed(o: Open, cfg: Config, inputs: seq<Input>, key: Key)
    requires OpenOk(o, cfg.fd) && LifeOk(o, cfg, inputs) && key.fd == cfg.fd && key.id > 0
    ensures Get(Life(o, cfg, inputs).m, key) == OwnRun(Get(o.m, key), OwnEvents(o, cfg, inputs, key))
    decreases |inputs|
  {
    if inputs != [] {
      var i := inputs[0];
      LiveOk(o, cfg, i);
      EventsOwn(o, cfg, i, key);
      Demultiplexed(Live(o, cfg, i), cfg, inputs[1..], key);
      OwnRunAppend(Get(o.m, key), EventsOf(o, cfg, i, key), OwnEvents(Live(o, cfg, i), cfg, inputs[1..], key));
    }
  }

  /** The records with one id. */
  function Only(rs: seq<Record>, id: nat): seq<Record> {
    if rs == [] then []
    else if rs[0].id == id then [rs[0]] + Only(rs[1..], id)
    else Only(rs[1..], id)
  }

  /** The records that reach a request are those with its id in the bytes received. */
  lemma {:induction false} OwnRecords(o: Open, cfg: Config, inputs: seq<Input>, key: Key)
    requires OpenOk(o, cfg.fd) && LifeOk(o, cfg, inputs)
    ensures Records(Owns(OwnEvents(o, cfg, inputs, key))) == Only(Handled(o, cfg, inputs), key.id)
    decreases |inputs|
  {
    hide ConnectionOk, InputOk, Live, Judge, Admits, EventsOf;
    if inputs != [] {
      var i := inputs[0];
      LiveOk(o, cfg, i);
      var n := Live(o, cfg, i);
      OwnRecords(n, cfg, inputs[1..], key);
      OwnsAppend(EventsOf(o, cfg, i, key), OwnEvents(n, cfg, inputs[1..], key));
      EventRecords(o, cfg, i, key);
      var rest := Handled(n, cfg, inputs[1..]);
      if i.Byte? && StartsWithRecord(o.u + [i.b]) {
        var r := FirstRecord(o.u + [i.b]);
        assert ([r] + rest)[1..] == rest;
      }
    }
  }

  lemma EventRecords(o: Open, cfg: Config, i: Input, key: Key)
    requires OpenOk(o, cfg.fd)
    ensures Records(Owns(EventsOf(o, cfg, i, key))) ==
            if i.Byte? && StartsWithRecord(o.u + [i.b]) && HeaderId(o.u + [i.b]) == key.id then
              [FirstRecord(o.u + [i.b])]
            else []
  {
    var es := EventsOf(o, cfg, i, key);
    if i.Byte? {
      assert es != [] ==> es[1..] == [] && Owns(es[1..]) == [] && Owns(es) == [es[0].o] + [];
    } else {
      OwnsAppend(if key in o.m.ready then [Handed] else [],
                 if key in o.m.requests && key !in i.after.requests then [Left] else []);
      assert [Handed][1..] == [] && [Left][1..] == [];
    }
  }

  // ------------------------------------------------------------------
  // A request from its first to its last record

  lemma {:induction false} LifeSplit(o: Open, cfg: Config, a: seq<Input>, b: seq<Input>)
    requires OpenOk(o, cfg.fd) && LifeOk(o, cfg, a + b)
    ensures LifeOk(o, cfg, a) && LifeOk(Life(o, cfg, a), cfg, b)
    ensures Life(o, cfg, a + b) == Life(Life(o, cfg, a), cfg, b)
    decreases |a|
  {
    hide InputOk, Live, ConnectionOk;
    if a == [] {
      assert a + b == b;
    } else {
      assert (a + b)[1..] == a[1..] + b && (a + b)[0] == a[0];
      LiveOk(o, cfg, a[0]);
      LifeSplit(Live(o, cfg, a[0]), cfg, a[1..], b);
    }
  }

  lemma {:induction false} OwnEventsAppend(o: Open, cfg: Config, a: seq<Input>, b: seq<Input>, key: Key)
    requires OpenOk(o, cfg.fd) && LifeOk(o, cfg, a) && LifeOk(Life(o, cfg, a), cfg, b)
    ensures LifeOk(o, cfg, a + b)
    ensures OwnEvents(o, cfg, a + b, key) == OwnEvents(o, cfg, a, key) + OwnEvents(Life(o, cfg, a), cfg, b, key)
    decreases |a|
  {
    hide InputOk, Live, ConnectionOk, EventsOf;
    LifeAppend(o, cfg, a, b);
    if a == [] {
      assert a + b == b;
    } else {
      assert (a + b)[1..] == a[1..] + b && (a + b)[0] == a[0];
      LiveOk(o, cfg, a[0]);
      OwnEventsAppend(Live(o, cfg, a[0]), cfg, a[1..], b, key);
    }
  }

  lemma OwnEventsOne(o: Open, cfg: Config, i: Input, key: Key)
    requires OpenOk(o, cfg.fd) && InputOk(o, cfg, i)
    ensures LifeOk(o, cfg, [i]) && OwnEvents(o, cfg, [i], key) == EventsOf(o, cfg, i, key)
  {
    hide OpenOk, InputOk, Live, EventsOf;
    LifeOne(o, cfg, i);
    LiveOk(o, cfg, i);
    assert [i][1..] == [] && LifeOk(Live(o, cfg, i), cfg, []);
    assert OwnEvents(Live(o, cfg, i), cfg, [], key) == [];
  }

  /** The own records of a request that a life brings. */
  ghost function Arrived(o: Open, cfg: Config, inputs: seq<Input>, key: Key): seq<Own>
    requires OpenOk(o, cfg.fd) && LifeOk(o, cfg, inputs)
  {
    Owns(OwnEvents(o, cfg, inputs, key))
  }

  /** The end of a call does nothing to a request that is still being received. */
  lemma BetweenLeaves(o: Open, cfg: Config, after: Connection, key: Key)
    requires OpenOk(o, cfg.fd) && InputOk(o, cfg, Between(after)) && key.fd == cfg.fd
    requires key in o.m.requests && !AllComplete(o.m.requests[key])
    ensures EventsOf(o, cfg, Between(after), key) == []
  {
    assert RequestOk(o.m.requests[key], key in o.m.ready);
    assert RequestOk(Render(o, cfg.fd).m.requests[key], key in o.m.ready) by {
      RenderOk(o, cfg.fd);
    }
  }

  lemma LastInput(o: Open, cfg: Config, init: seq<Input>, i: Input, key: Key)
    requires OpenOk(o, cfg.fd) && LifeOk(o, cfg, init + [i])
    ensures LifeOk(o, cfg, init) && InputOk(Life(o, cfg, init), cfg, i)
    ensures Life(o, cfg, init + [i]) == Live(Life(o, cfg, init), cfg, i)
    ensures OwnEvents(o, cfg, init + [i], key) ==
            OwnEvents(o, cfg, init, key) + EventsOf(Life(o, cfg, init), cfg, i, key)
    ensures Arrived(o, cfg, init + [i], key) ==
            Arrived(o, cfg, init, key) + Owns(EventsOf(Life(o, cfg, init), cfg, i, key))
  {
    hide ConnectionOk, InputOk, Live, EventsOf;
    LifeSplit(o, cfg, init, [i]);
    var n := Life(o, cfg, init);
    assert InputOk(n, cfg, [i][0]);
    LifeOne(n, cfg, i);
    OwnEventsAppend(o, cfg, init, [i], key);
    OwnEventsOne(n, cfg, i, key);
    OwnsAppend(OwnEvents(o, cfg, init, key), EventsOf(n, cfg, i, key));
  }

  /** What remains of a request after records that do not abort it. */
  lemma AfterRecords(o: Open, cfg: Config, inputs: seq<Input>, key: Key, role: nat, close: bool)
    requires OpenOk(o, cfg.fd) && LifeOk(o, cfg, inputs) && key.fd == cfg.fd && key.id > 0
    requires Get(o.m, key) == Some(NewRequest(role, close))
    requires StillReceived(NewRequest(role, close), Arrived(o, cfg, inputs, key))
    requires OwnEvents(o, cfg, inputs, key) == Gots(Arrived(o, cfg, inputs, key))
    ensures var q, n := ReceiveAll(NewRequest(role, close), Streams(Arrived(o, cfg, inputs, key))),
                        Life(o, cfg, inputs).m;
            && Get(n, key) == Outcome(q) && !q.isAssigned && (AllComplete(q) <==> Ready(q))
            && (key in n.ready <==> Ready(q) && RequestParameters.Acceptable(q.params))
  {
    hide OwnEvents, LifeOk, Life, RequestParameters.Acceptable, Ready;
    var q0, os := NewRequest(role, close), Arrived(o, cfg, inputs, key);
    var n := Life(o, cfg, inputs).m;
    Demultiplexed(o, cfg, inputs, key);
    OwnStreams(role, close, os);
    StreamsUnfinished(q0, os);
    StreamsAreOwnRecords(role, close, Streams(os), PARAMS);
    NeverAssigned(q0, Streams(os));
    if key in n.requests {
      assert RequestOk(n.requests[key], key in n.ready);
    }
  }

  /** Until its streams are complete a request holds what its own records brought
      it, over any number of calls, and it is neither listed nor assigned. */
  lemma {:induction false} StillThere(o: Open, cfg: Config, inputs: seq<Input>, key: Key, role: nat, close: bool)
    requires OpenOk(o, cfg.fd) && LifeOk(o, cfg, inputs) && key.fd == cfg.fd && key.id > 0
    requires Get(o.m, key) == Some(NewRequest(role, close))
    requires StillReceived(NewRequest(role, close), Arrived(o, cfg, inputs, key))
    requires !AllComplete(ReceiveAll(NewRequest(role, close), Streams(Arrived(o, cfg, inputs, key))))
    ensures OwnEvents(o, cfg, inputs, key) == Gots(Arrived(o, cfg, inputs, key))
    ensures var n := Life(o, cfg, inputs).m;
            && Get(n, key) == Some(ReceiveAll(NewRequest(role, close), Streams(Arrived(o, cfg, inputs, key))))
            && key !in n.ready && !n.requests[key].isAssigned
    decreases |inputs|
  {
    if inputs == [] {
      assert OwnEvents(o, cfg, inputs, key) == Gots([]);
    } else {
      hide Life, OwnEvents, LifeOk, InputOk, ConnectionOk;
      var init, i := inputs[..|inputs| - 1], inputs[|inputs| - 1];
      assert inputs == init + [i];
      LastInput(o, cfg, init, i, key);
      var n := Life(o, cfg, init);
      GotsMore(n, cfg, i, key, Arrived(o, cfg, init, key));
      StillReceivedPrefix(NewRequest(role, close), Arrived(o, cfg, init, key), Owns(EventsOf(n, cfg, i, key)));
      StillThere(o, cfg, init, key, role, close);
      if i.Between? {
        BetweenLeaves(n, cfg, i.after, key);
      }
    }
    AfterRecords(o, cfg, inputs, key, role, close);
  }

  /** At most one record is completed by an input. */
  lemma GotsMore(o: Open, cfg: Config, i: Input, key: Key, os: seq<Own>)
    requires OpenOk(o, cfg.fd)
    ensures |Owns(EventsOf(o, cfg, i, key))| <= 1
    ensures i.Byte? || EventsOf(o, cfg, i, key) == [] ==>
              Gots(os) + EventsOf(o, cfg, i, key) == Gots(os + Owns(EventsOf(o, cfg, i, key)))
  {
    EventRecords(o, cfg, i, key);
    var es := EventsOf(o, cfg, i, key);
    if i.Byte? && es != [] {
      assert es == [es[0]] && es[1..] == [] && Owns(es) == [es[0].o];
    } else {
      assert os + [] == os && Gots(os) + [] == Gots(os);
    }
  }

  lemma StillReceivedPrefix(q: Request, os: seq<Own>, more: seq<Own>)
    requires |more| <= 1 && StillReceived(q, os + more)
    requires !AllComplete(ReceiveAll(q, Streams(os + more))) || more != []
    ensures StillReceived(q, os) && !AllComplete(ReceiveAll(q, Streams(os)))
  {
    if more == [] {
      assert os + more == os;
    } else {
      assert (os + more)[..|os + more| - 1] == os;
      StillReceivedInit(q, os + more);
    }
  }

  /** While the rule of its role does not hold of its records a request is there over
      any number of calls, neither listed nor assigned, with their contents. */
  lemma StillAwaited(o: Open, cfg: Config, inputs: seq<Input>, key: Key, role: nat, close: bool)
    requires OpenOk(o, cfg.fd) && LifeOk(o, cfg, inputs) && key.fd == cfg.fd && key.id > 0
    requires Get(o.m, key) == Some(NewRequest(role, close))
    requires Awaited(role, Arrived(o, cfg, inputs, key)) && !Served(role, Records(Arrived(o, cfg, inputs, key)))
    ensures var n := Life(o, cfg, inputs).m;
            && key in n.requests && key !in n.ready
            && Assembled(n.requests[key], role, close, Records(Arrived(o, cfg, inputs, key)))
  {
    hide OwnEvents, LifeOk, Life, ConnectionOk, Served, StreamOf;
    var os := Arrived(o, cfg, inputs, key);
    AwaitedIsReceived(role, close, os);
    AwaitedOutcome(role, close, os);
    StreamsUnfinished(NewRequest(role, close), os);
    StreamsAreOwnRecords(role, close, Streams(os), PARAMS);
    StillThere(o, cfg, inputs, key, role, close);
  }

  /** A request from its begin-request record on, over any number of calls: with the
      last byte of the first record after which the rule of its role holds of its own
      records, it is listed for the application if its parameters are acceptable and
      dropped otherwise. Until then it is there and not listed, and each of its
      streams is the content of its records of that kind, in order, up to the first
      empty one. */
  lemma RequestAssembled(o: Open, cfg: Config, inputs: seq<Input>, b: byte, key: Key, role: nat, close: bool)
    requires OpenOk(o, cfg.fd) && LifeOk(o, cfg, inputs + [Byte(b)]) && key.fd == cfg.fd && key.id > 0
    requires Get(o.m, key) == Some(NewRequest(role, close))
    requires Awaited(role, Arrived(o, cfg, inputs + [Byte(b)], key))
    ensures LifeOk(o, cfg, inputs)
    ensures StartsWithRecord(Life(o, cfg, inputs).u + [b]) && HeaderId(Life(o, cfg, inputs).u + [b]) == key.id ==>
              var rs, n := Records(Arrived(o, cfg, inputs + [Byte(b)], key)), Life(o, cfg, inputs + [Byte(b)]).m;
              && rs == Only(Parse(o.u + Received(inputs + [Byte(b)])), key.id)
              && key in Life(o, cfg, inputs).m.requests && key !in Life(o, cfg, inputs).m.ready
              && (key in n.ready <==> Served(role, rs) && RequestParameters.Acceptable(StreamOf(rs, 4)))
              && (key in n.requests <==> !Served(role, rs) || RequestParameters.Acceptable(StreamOf(rs, 4)))
              && (key in n.requests ==> Assembled(n.requests[key], role, close, rs))
  {
    hide OwnEvents, LifeOk, Life, InputOk, ConnectionOk, RequestParameters.Acceptable, Ready, Served, StreamOf;
    var q0, i := NewRequest(role, close), Byte(b);
    LastInput(o, cfg, inputs, i, key);
    var n := Life(o, cfg, inputs);
    if StartsWithRecord(n.u + [b]) && HeaderId(n.u + [b]) == key.id {
      var before, os := Arrived(o, cfg, inputs, key), Arrived(o, cfg, inputs + [i], key);
      AwaitedIsReceived(role, close, os);
      AwaitedOutcome(role, close, os);
      EventRecords(n, cfg, i, key);
      GotsMore(n, cfg, i, key, before);
      StillReceivedPrefix(q0, before, Owns(EventsOf(n, cfg, i, key)));
      StillThere(o, cfg, inputs, key, role, close);
      AfterRecords(o, cfg, inputs + [i], key, role, close);
      OwnRecords(o, cfg, inputs + [i], key);
      RecordsRecovered(o, cfg, inputs + [i]);
    }
  }

  /** What its records have made of a request that was not handed over. */
  predicate Assembled(q: Request, role: nat, close: bool, rs: seq<Record>) {
    && q.role == role && q.closeConnection == close && !q.isAssigned && !q.abort
    && q.params == StreamOf(rs, 4) && q.stdin == StreamOf(rs, 5) && q.data == StreamOf(rs, 8)
  }

  /** The part of an incomplete record that a request already holds. */
  function WithPart(q: Option<Request>, o: Open, key: Key): Option<Request> {
    if q.Some? && Streaming(o) && IsStream(o.u[1]) && HeaderId(o.u) == key.id then
      Some(Append(q.value, o.u[1], ContentPart(o.u)))
    else q
  }

  lemma RenderOwn(o: Open, fd: Fd, key: Key)
    requires OpenOk(o, fd) && key.fd == fd && key.id > 0
    ensures Get(Render(o, fd).m, key) == WithPart(Get(o.m, key), o, key)
    ensures Render(o, fd).m.ready == o.m.ready
  {
  }

  /** A point within a call: `k` calls and the part `s` of another. */
  lemma WithinACall(readers: seq<Reader>, portions: seq<seq<byte>>, cfg: Config, k: nat, s: seq<byte>)
    requires Calls(readers, portions, cfg) && k <= |portions| && readers[0].p == EMPTY_PARTIAL
    ensures var o, inputs := Open(readers[0].m, [], false), InputsOf(readers, portions, k) + AsInputs(s);
            && OpenOk(o, cfg.fd) && LifeOk(o, cfg, inputs) && ReaderOk(readers[k], cfg.fd)
            && Consume(readers[k], cfg, s) == Render(Life(o, cfg, inputs), cfg.fd)
            && Received(inputs) == Flatten(portions[..k]) + s
  {
    hide LifeOk, Life, InputOk, ConnectionOk, Render, Consume;
    var o, before := Open(readers[0].m, [], false), InputsOf(readers, portions, k);
    CallsAreALife(readers, portions, cfg, k);
    PortionIsLived(Life(o, cfg, before), cfg, s);
    LifeAppend(o, cfg, before, AsInputs(s));
    ReceivedAppend(before, AsInputs(s));
    ReceivedPortion(s, readers[0].m);
  }

  /** What the reader holds of a request at any point of any call, each call ending
      wherever its bytes ran out: what the request's own complete records made of
      it, and the part received of an accepted record that is incomplete. */
  lemma RequestOverCalls(readers: seq<Reader>, portions: seq<seq<byte>>, cfg: Config, k: nat, s: seq<byte>, key: Key)
    requires Calls(readers, portions, cfg) && k <= |portions| && readers[0].p == EMPTY_PARTIAL
    requires key.fd == cfg.fd && key.id > 0
    ensures var o, inputs := Open(readers[0].m, [], false), InputsOf(readers, portions, k) + AsInputs(s);
            && OpenOk(o, cfg.fd) && LifeOk(o, cfg, inputs) && ReaderOk(readers[k], cfg.fd)
            && var rd, es, n := Consume(readers[k], cfg, s), OwnEvents(o, cfg, inputs, key), Life(o, cfg, inputs);
            && Get(rd.m, key) == WithPart(OwnRun(Get(readers[0].m, key), es), n, key)
            && rd.m.ready == n.m.ready
            && Records(Owns(es)) == Only(Parse(Flatten(portions[..k]) + s), key.id)
            && n.u == Unparsed(Flatten(portions[..k]) + s)
  {
    hide OwnEvents, LifeOk, Life, InputOk, ConnectionOk, Render, Consume;
    var o, inputs := Open(readers[0].m, [], false), InputsOf(readers, portions, k) + AsInputs(s);
    WithinACall(readers, portions, cfg, k, s);
    Demultiplexed(o, cfg, inputs, key);
    OwnRecords(o, cfg, inputs, key);
    RecordsRecovered(o, cfg, inputs);
    RenderOwn(Life(o, cfg, inputs), cfg.fd, key);
    assert o.u + Received(inputs) == Received(inputs);
  }

  // ------------------------------------------------------------------
  // When the cached entry of a call is safe

  /** The headers in a stream, of the incomplete record as well. */
  function HeadersOf(s: seq<byte>): seq<seq<byte>> {
    if !HeaderIn(s) then []
    else [s[..HEADER_LEN]] + if StartsWithRecord(s) then HeadersOf(s[RecordLength(s)..]) else []
  }

  /** Those that the bytes `s` complete if `u` was received of the first record. */
  function NewHeaders(u: seq<byte>, s: seq<byte>): seq<seq<byte>> {
    if HeaderIn(u) then HeadersOf(u + s)[1..] else HeadersOf(u + s)
  }

  predicate SomeNamesAssigned(hs: seq<seq<byte>>, requests: map<Key, Request>, fd: Fd) {
    exists h :: h in hs && |h| >= HEADER_LEN && NamesAssigned(h, requests, fd)
  }

  ghost predicate SameAssigned(m: Connection, n: Connection, fd: Fd) {
    forall k: Key :: k.fd == fd && k.id > 0 ==>
      ((k in m.requests && m.requests[k].isAssigned) <==> (k in n.requests && n.requests[k].isAssigned))
  }

  /** No record assigns a request or makes an assigned one leave. */
  lemma OwnStepAssigned(q: Option<Request>, o: Own)
    requires q.Some? && q.value.isAssigned ==> AllComplete(q.value)
    ensures var n := OwnStep(q, o); (n.Some? && n.value.isAssigned) <==> (q.Some? && q.value.isAssigned)
  {
  }

  lemma ByteAssigned(o: Open, cfg: Config, b: byte)
    requires OpenOk(o, cfg.fd)
    ensures SameAssigned(o.m, ReadByte(o, cfg, b).m, cfg.fd)
  {
    var u, n := o.u + [b], ReadByte(o, cfg, b);
    if StartsWithRecord(u) {
      JudgeOk(o, cfg.fd, b);
      var r, rejected := FirstRecord(u), Judge(o, cfg.fd, u);
      forall k: Key | k.fd == cfg.fd && k.id > 0
        ensures (k in o.m.requests && o.m.requests[k].isAssigned) <==> (k in n.m.requests && n.m.requests[k].isAssigned)
      {
        HandleOwn(o.m, cfg, r, rejected, k);
        assert k in o.m.requests ==> RequestOk(o.m.requests[k], k in o.m.ready);
        OwnStepAssigned(Get(o.m, k), Own(r, !rejected && Admits(o.m, cfg)));
      }
    }
  }

  lemma SameNames(hs: seq<seq<byte>>, m: Connection, n: Connection, fd: Fd)
    requires SameAssigned(m, n, fd)
    ensures SomeNamesAssigned(hs, m.requests, fd) == SomeNamesAssigned(hs, n.requests, fd)
  {
    forall h | h in hs && |h| >= HEADER_LEN
      ensures NamesAssigned(h, m.requests, fd) == NamesAssigned(h, n.requests, fd)
    {
      var key := Key(fd, HeaderId(h));
      assert key.id > 0 ==> (key in m.requests && m.requests[key].isAssigned
                             <==> key in n.requests && n.requests[key].isAssigned);
    }
  }

  /** The headers that a byte and its successors complete. */
  lemma NewHeadersStep(u: seq<byte>, b: byte, rest: seq<byte>)
    requires !StartsWithRecord(u)
    ensures var v := u + [b];
            NewHeaders(u, [b] + rest) ==
            (if |v| == HEADER_LEN then [v] else []) + NewHeaders(if StartsWithRecord(v) then [] else v, rest)
  {
    var v := u + [b];
    assert u + ([b] + rest) == v + rest;
    if HeaderIn(v) {
      assert (v + rest)[..HEADER_LEN] == v[..HEADER_LEN] && RecordLength(v + rest) == RecordLength(v);
      if StartsWithRecord(v) {
        assert HeaderIn(u) ==> RecordLength(v) == RecordLength(u);
        assert (v + rest)[RecordLength(v)..] == rest && [] + rest == rest;
        assert HeadersOf(v + rest) == [v[..HEADER_LEN]] + HeadersOf(rest);
      } else {
        assert HeadersOf(v + rest) == [v[..HEADER_LEN]] + HeadersOf(v + rest)[1..];
      }
      assert !HeaderIn(u) ==> v[..HEADER_LEN] == v;
    }
  }

  lemma RenderNames(o: Open, cfg: Config, b: byte)
    requires OpenOk(o, cfg.fd)
    ensures ReaderOk(Render(o, cfg.fd), cfg.fd)
    ensures Exposes(Render(o, cfg.fd), cfg, [b]) <==>
            |o.u + [b]| == HEADER_LEN && NamesAssigned(o.u + [b], o.m.requests, cfg.fd)
  {
    RenderOk(o, cfg.fd);
    ExposesWithin(Render(o, cfg.fd), cfg, [b]);
  }

  lemma SomeNamesSplit(hs: seq<seq<byte>>, more: seq<seq<byte>>, requests: map<Key, Request>, fd: Fd)
    ensures SomeNamesAssigned(hs + more, requests, fd) ==
            (SomeNamesAssigned(hs, requests, fd) || SomeNamesAssigned(more, requests, fd))
  {
    forall h ensures h in hs + more <==> h in hs || h in more {}
  }

  /** A call relies on a removable entry exactly if a header that is completed in it
      names a request which is assigned when the bytes arrive; whatever else happens
      in the call makes no difference. */
  lemma {:induction false} ExposedByHeaders(o: Open, cfg: Config, s: seq<byte>)
    requires OpenOk(o, cfg.fd)
    ensures ReaderOk(Render(o, cfg.fd), cfg.fd)
    ensures Exposes(Render(o, cfg.fd), cfg, s) <==> SomeNamesAssigned(NewHeaders(o.u, s), o.m.requests, cfg.fd)
    decreases |s|
  {
    hide ConnectionOk, Render, NamesAssigned, HeadersOf, NewHeaders;
    NoNewHeaders(o, cfg);
    if s != [] {
      var b, rest := s[0], s[1..];
      var n, v := ReadByte(o, cfg, b), o.u + [b];
      assert s == [b] + rest;
      RenderByte(o, cfg, b);
      RenderNames(o, cfg, b);
      ExposesAppend(Render(o, cfg.fd), cfg, [b], rest);
      ExposedByHeaders(n, cfg, rest);
      ByteAssigned(o, cfg, b);
      SameNames(NewHeaders(n.u, rest), o.m, n.m, cfg.fd);
      NewHeadersStep(o.u, b, rest);
      SomeNamesSplit(if |v| == HEADER_LEN then [v] else [], NewHeaders(n.u, rest), o.m.requests, cfg.fd);
    }
  }

  lemma NoNewHeaders(o: Open, cfg: Config)
    requires OpenOk(o, cfg.fd)
    ensures ReaderOk(Render(o, cfg.fd), cfg.fd) && !StartsWithRecord(o.u)
    ensures NewHeaders(o.u, []) == [] && !Exposes(Render(o, cfg.fd), cfg, [])
  {
    RenderOk(o, cfg.fd);
    assert o.u + [] == o.u;
  }

  lemma RenderAssigned(o: Open, fd: Fd)
    requires OpenOk(o, fd)
    ensures SameAssigned(o.m, Render(o, fd).m, fd)
  {
  }

  /** The same of any call in the life of a reader, by the bytes of this call, the
      incomplete record before it, and the requests as the call finds them. */
  lemma ExposedCall(readers: seq<Reader>, portions: seq<seq<byte>>, cfg: Config, k: nat)
    requires Calls(readers, portions, cfg) && k < |portions| && readers[0].p == EMPTY_PARTIAL
    ensures ReaderOk(readers[k], cfg.fd)
    ensures Exposes(readers[k], cfg, portions[k]) <==>
            SomeNamesAssigned(NewHeaders(Unparsed(Flatten(portions[..k])), portions[k]), readers[k].m.requests, cfg.fd)
  {
    hide LifeOk, Life, InputOk, ConnectionOk, Render, Exposes;
    var o, inputs := Open(readers[0].m, [], false), InputsOf(readers, portions, k);
    CallsAreALife(readers, portions, cfg, k);
    RecordsRecovered(o, cfg, inputs);
    assert o.u + Received(inputs) == Received(inputs);
    var n := Life(o, cfg, inputs);
    ExposedByHeaders(n, cfg, portions[k]);
    RenderAssigned(n, cfg.fd);
    SameNames(NewHeaders(n.u, portions[k]), n.m, readers[k].m, cfg.fd);
  }
}
