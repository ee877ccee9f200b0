/** The RecordStatus object of a connection, which reads records and updates the
    requests of its interface. Lookups go through a cached key. */
module RecordReader {
  import opened Bytes
  import opened Common
  import opened FcgiRecords
  import opened InterfaceMaps
  import opened RecordHandling
  import opened RecordReading
  import opened RequestStreams
  import opened Wrappers
  import RequestParameters
  import opened NameValuePairs

  /** The size of the buffer that is given to read. */
  const BUFFER_SIZE := 512

  /** How the last read of a call ended: the socket would block, the peer closed
      it, or another error occurred. */
  datatype Ending = Blocked | Closed | ReadError

  /** The cached key names an entry of this connection. */
  predicate CacheOk(cache: Option<Key>, requests: map<Key, Request>, fd: Fd) {
    cache.Some? ==> cache.value in requests && cache.value.fd == fd
  }

  /** The lookup as it is written: the cache is used if its request id matches. */
  function Lookup(cache: Option<Key>, requests: map<Key, Request>, key: Key): Option<Key> {
    if cache.Some? && cache.value.id == key.id then cache
    else if key in requests then Some(key) else None
  }

  lemma LookupFinds(cache: Option<Key>, requests: map<Key, Request>, key: Key)
    requires CacheOk(cache, requests, key.fd)
    ensures Lookup(cache, requests, key) == if key in requests then Some(key) else None
    ensures CacheOk(Lookup(cache, requests, key), requests, key.fd)
  {
  }

  /** A cached entry is one that no request thread removes. */
  predicate CacheUnassigned(cache: Option<Key>, requests: map<Key, Request>) {
    cache.Some? && cache.value in requests ==> !requests[cache.value].isAssigned
  }

  /** What request threads may remove while the interface mutex is free. */
  predicate Removable(left: set<Key>, requests: map<Key, Request>) {
    forall k :: k in left && k in requests ==> requests[k].isAssigned
  }

  /** If entries leave the map while the cache is kept, the cache stays valid and
      the lookup right exactly when the cached entry is not among them; whatever
      request threads remove they do so iff that entry is not assigned. */
  lemma RemovalAndCache(cache: Option<Key>, requests: map<Key, Request>, left: set<Key>, key: Key)
    requires CacheOk(cache, requests, key.fd)
    ensures CacheOk(cache, requests - left, key.fd) <==> (cache.Some? ==> cache.value !in left)
    ensures Lookup(cache, requests - left, key) == (if key in requests - left then Some(key) else None) <==>
            !(cache == Some(key) && key in left)
    ensures CacheUnassigned(cache, requests) <==>
            forall gone :: Removable(gone, requests) ==> CacheOk(cache, requests - gone, key.fd)
  {
    if cache.Some? {
      assert cache.value.id == key.id ==> cache.value == key;
      if requests[cache.value].isAssigned {
        assert Removable({cache.value}, requests);
        assert !CacheOk(cache, requests - {cache.value}, key.fd);
      }
    }
  }

  /** Every abort of an assigned request completes a header that does so, whatever
      else the reader holds. */
  lemma CachedWhileAssigned(rd: Reader, cfg: Config, key: Key)
    requires ReaderOk(rd, cfg.fd) && rd.p == EMPTY_PARTIAL && key.fd == cfg.fd && 0 < key.id < 0x1_0000
    requires key in rd.m.requests && rd.m.requests[key].isAssigned
    ensures Exposes(rd, cfg, Header(ABORT_REQUEST, key.id, 0, 0))
  {
    var h := Header(ABORT_REQUEST, key.id, 0, 0);
    ExposesWithin(rd, cfg, h);
    assert [] + h == h && HeaderId(h) == key.id;
  }

  /** A reader with such a request, and the input that aborts it. */
  lemma AbortedRequestInput() returns (rd: Reader, cfg: Config)
    ensures ReaderOk(rd, cfg.fd) && rd.p == EMPTY_PARTIAL && rd.m.ready == []
    ensures Exposes(rd, cfg, [VERSION_1, ABORT_REQUEST, 0, 1, 0, 0, 0, 0])
  {
    var key := Key(5, 1);
    var q := Request(RESPONDER, false, [], [], [], true, true, true, true, false);
    rd, cfg := Reader(EMPTY_PARTIAL, Connection(map[key := q], [], [], false, 0)), Config(5, 1, _ => false);
    CachedWhileAssigned(rd, cfg, key);
    assert Header(ABORT_REQUEST, 1, 0, 0) == [VERSION_1, ABORT_REQUEST, 0, 1, 0, 0, 0, 0];
  }

  class RecordStatus {
    const connection: Fd
    const config: Config
    // The record being read
    var header: seq<byte>
    var bytesReceived: nat
    var contentBytesExpected: nat
    var paddingBytesExpected: nat
    var kind: byte
    var requestId: nat
    var invalidatedByHeader: bool
    var localBuffer: seq<byte>
    // The state of the interface that a record can change
    var requests: map<Key, Request>
    var replies: seq<Reply>
    var closing: bool
    var handled: nat

    ghost function Record(): Partial
      reads this
    {
      Partial(header, bytesReceived, contentBytesExpected, paddingBytesExpected, kind, requestId,
              invalidatedByHeader, localBuffer)
    }

    ghost function Interface(ready: seq<Key>): Connection
      reads this
    {
      Connection(requests, ready, replies, closing, handled)
    }

    ghost function View(ready: seq<Key>): Reader
      reads this
    {
      Reader(Record(), Interface(ready))
    }

    ghost predicate Valid(ready: seq<Key>, cache: Option<Key>)
      reads this
    {
      config.fd == connection && ReaderOk(View(ready), connection) && CacheOk(cache, requests, connection)
    }

    constructor (connection: Fd, config: Config, requests: map<Key, Request>)
      requires config.fd == connection && forall k :: k in requests ==> k.fd != connection
      ensures Valid([], None) && Record() == EMPTY_PARTIAL && this.requests == requests
      ensures this.connection == connection && this.config == config
    {
      this.connection, this.config := connection, config;
      header, bytesReceived, contentBytesExpected, paddingBytesExpected := [], 0, 0, 0;
      kind, requestId, invalidatedByHeader, localBuffer := 0, 0, false, [];
      this.requests, replies, closing, handled := requests, [], false, 0;
    }

    method ClearRecord()
      modifies this`header, this`bytesReceived, this`contentBytesExpected, this`paddingBytesExpected, this`kind,
               this`requestId, this`invalidatedByHeader, this`localBuffer
      ensures Record() == EMPTY_PARTIAL
    {
      header, bytesReceived, contentBytesExpected, paddingBytesExpected := [], 0, 0, 0;
      kind, requestId, invalidatedByHeader, localBuffer := 0, 0, false, [];
    }

    /** Extracts the fields of the header and decides whether the record counts. */
    method UpdateAfterHeaderCompletion(cache0: Option<Key>) returns (cache: Option<Key>)
      requires |header| == HEADER_LEN && bytesReceived == HEADER_LEN && !invalidatedByHeader && localBuffer == []
      requires CacheOk(cache0, requests, connection)
      modifies this`contentBytesExpected, this`paddingBytesExpected, this`kind, this`requestId, this`invalidatedByHeader
      ensures Record() == WithHeader(header, Interface([]), connection)
      ensures CacheUnassigned(cache0, requests) ==>
                (CacheUnassigned(cache, requests) <==> !NamesAssigned(header, requests, connection))
      ensures CacheOk(cache, requests, connection)
    {
      cache := cache0;
      contentBytesExpected := header[4] as int * 256 + header[5];
      paddingBytesExpected := header[6];
      kind := header[1];
      requestId := header[2] as int * 256 + header[3];
      if requestId == 0 {
        return;
      }
      if kind == BEGIN_REQUEST {
        invalidatedByHeader := contentBytesExpected != 8;
      } else if kind == ABORT_REQUEST {
        invalidatedByHeader := contentBytesExpected != 0;
      } else if !IsStream(kind) {
        invalidatedByHeader := true;
      }
      if invalidatedByHeader {
        return;
      }
      var key := Key(connection, requestId);
      LookupFinds(cache, requests, key);
      var found := Lookup(cache, requests, key);
      if found.Some? {
        cache := found;
      }
      if kind == BEGIN_REQUEST {
        invalidatedByHeader := found.Some?;
      } else if kind == ABORT_REQUEST {
        invalidatedByHeader := found.None? || requests[found.value].abort;
      } else {
        invalidatedByHeader := found.None? || StreamComplete(requests[found.value], kind);
      }
    }

    /** One portion of a section is added. `ok` is false where the original reports
        that an expected request is missing. */
    method AddPortion(a: seq<byte>, ghost ready: seq<Key>, cache0: Option<Key>) returns (ok: bool, cache: Option<Key>)
      requires Valid(ready, cache0) && 0 < |a| <= Wanted(Record())
      modifies this`header, this`bytesReceived, this`contentBytesExpected, this`paddingBytesExpected, this`kind,
               this`requestId, this`invalidatedByHeader, this`localBuffer, this`requests
      ensures ok && View(ready) == Add(old(View(ready)), connection, a)
      ensures CacheUnassigned(cache0, old(requests)) ==>
                (CacheUnassigned(cache, requests) <==> !TurnNames(old(View(ready)), connection, a))
      ensures CacheOk(cache, requests, connection)
    {
      ok, cache := true, cache0;
      if bytesReceived < HEADER_LEN {
        header := header + a;
        bytesReceived := bytesReceived + |a|;
        if bytesReceived == HEADER_LEN {
          cache := UpdateAfterHeaderCompletion(cache);
        }
      } else if bytesReceived < HEADER_LEN + contentBytesExpected {
        if !invalidatedByHeader {
          if requestId == 0 || kind == BEGIN_REQUEST || kind == ABORT_REQUEST {
            localBuffer := localBuffer + a;
          } else {
            var key := Key(connection, requestId);
            LookupFinds(cache, requests, key);
            cache := Lookup(cache, requests, key);
            if cache.None? {
              return false, cache;
            }
            requests := requests[cache.value := Append(requests[cache.value], kind, a)];
          }
        }
        bytesReceived := bytesReceived + |a|;
      } else {
        bytesReceived := bytesReceived + |a|;
      }
    }
  
    /** A complete begin-request record: the limit comes before the overload flag. */
    method BeginRequest(ghost ready: seq<Key>, cache0: Option<Key>) returns (cache: Option<Key>)
      requires |localBuffer| == 8 && config.fd == connection && CacheOk(cache0, requests, connection)
      requires Key(connection, requestId) !in requests
      modifies this`requests, this`replies
      ensures Interface(ready) == Begin(old(Interface(ready)), config, Key(connection, requestId), localBuffer)
      ensures CacheUnassigned(cache0, old(requests)) ==> CacheUnassigned(cache, requests)
      ensures CacheOk(cache, requests, connection)
    {
      cache := cache0;
      var role := localBuffer[0] as int * 256 + localBuffer[1];
      var count := |set k | k in requests && k.fd == connection|;
      assert RequestsOn(Interface(ready), connection) == set k | k in requests && k.fd == connection;
      if count >= config.maxRequests {
        var status := if config.maxRequests == 1 then CantMultiplex else Overloaded;
        replies := replies + [EndRequest(requestId, status)];
      } else if config.overload(handled) {
        replies := replies + [EndRequest(requestId, Overloaded)];
      } else {
        var key := Key(connection, requestId);
        requests := requests[key := NewRequest(role, localBuffer[2] % 2 == 0)];
        cache := Some(key);
      }
    }

    /** The search for a complete request in the list. */
    method Erase(ready0: seq<Key>, key: Key) returns (found: bool, ready: seq<Key>)
      ensures found <==> key in ready0
      ensures ready == if found then Without(ready0, key) else ready0
    {
      var i := 0;
      while i < |ready0|
        invariant 0 <= i <= |ready0| && key !in ready0[..i]
      {
        if ready0[i] == key {
          WithoutAt(ready0, key, i);
          return true, ready0[..i] + ready0[i + 1..];
        }
        i := i + 1;
      }
      return false, ready0;
    }

    /** A complete abort-request record. `ok` is false where the original reports
        that a complete request is missing from the list. */
    method AbortRequest(ready0: seq<Key>, cache0: Option<Key>) returns (ok: bool, ready: seq<Key>, cache: Option<Key>)
      requires ConnectionOk(Interface(ready0), connection) && CacheOk(cache0, requests, connection)
      modifies this`requests, this`replies, this`closing
      ensures ok && Interface(ready) == Abort(old(Interface(ready0)), Key(connection, requestId))
      ensures CacheUnassigned(cache0, old(requests)) ==> CacheUnassigned(cache, requests)
      ensures CacheOk(cache, requests, connection)
    {
      ok, ready, cache := true, ready0, cache0;
      var key := Key(connection, requestId);
      LookupFinds(cache, requests, key);
      var found := Lookup(cache, requests, key);
      if found.None? {
        return;
      }
      if found == cache {
        cache := None;
      }
      if requests[key].isAssigned {
        requests := requests[key := requests[key].(abort := true)];
      } else {
        if requests[key].closeConnection {
          closing := true;
        }
        if requests[key].stdinComplete && requests[key].dataComplete && requests[key].paramsComplete {
          assert RequestOk(requests[key], key in ready0);
          var inList;
          inList, ready := Erase(ready0, key);
          if !inList {
            return false, ready, cache;
          }
        }
        requests := requests - {key};
        replies := replies + [EndRequest(requestId, Aborted)];
      }
    }

    /** A complete empty stream record. The request is returned if it is complete
        and its parameters are well formed. */
    method EndStreamRecord(ghost ready: seq<Key>, cache0: Option<Key>)
      returns (ok: bool, result: Option<Key>, cache: Option<Key>)
      requires IsStream(kind) && Key(connection, requestId) in requests && CacheOk(cache0, requests, connection)
      modifies this`requests, this`replies, this`closing
      ensures ok && (result.Some? ==> result.value == Key(connection, requestId))
      ensures Interface(if result.Some? then ready + [result.value] else ready) ==
              EndStream(old(Interface(ready)), Key(connection, requestId), kind)
      ensures CacheUnassigned(cache0, old(requests)) ==> CacheUnassigned(cache, requests)
      ensures CacheOk(cache, requests, connection)
    {
      ok, result, cache := true, None, cache0;
      var key := Key(connection, requestId);
      LookupFinds(cache, requests, key);
      var found := Lookup(cache, requests, key);
      if found.None? {
        return false, result, cache;
      }
      var q := CompleteStream(requests[key], kind);
      var completed, updated := CheckCompletion(q);
      requests := requests[key := updated];
      if completed {
        if found == cache {
          cache := None;
        }
        // The least SIZE_MAX that suffices; the outcome is the same for a greater one.
        var sizeMax := |updated.params| + 2 * FOUR_BYTE_MAX;
        var wellFormed, environment := RequestParameters.ProcessParams(updated.params, sizeMax);
        if wellFormed {
          result := found;
        } else {
          if updated.closeConnection {
            closing := true;
          }
          requests := requests - {key};
          replies := replies + [EndRequest(requestId, Malformed)];
        }
      }
    }

    /** Takes the action that a complete record asks for. */
    method ProcessCompleteRecord(ready0: seq<Key>, cache0: Option<Key>)
      returns (ok: bool, result: Option<Key>, ready: seq<Key>, cache: Option<Key>)
      requires config.fd == connection && AddedOk(View(ready0), connection) && CacheOk(cache0, requests, connection)
      requires RecordComplete(Record())
      modifies this`requests, this`replies, this`closing, this`handled
      ensures ok && Processable(old(Record()), old(Interface(ready0)), connection)
      ensures Interface(if result.Some? then ready + [result.value] else ready) ==
              Process(old(Interface(ready0)), config, Key(connection, requestId), kind, contentBytesExpected,
                      invalidatedByHeader, localBuffer)
      ensures CacheUnassigned(cache0, old(requests)) ==> CacheUnassigned(cache, requests)
      ensures CacheOk(cache, requests, connection)
    {
      ok, result, ready, cache := true, None, ready0, cache0;
      if requestId == 0 {
        var reply := if kind == GET_VALUES then Values(localBuffer) else UnknownType(kind);
        replies := replies + [reply];
      } else if invalidatedByHeader {
      } else if kind == BEGIN_REQUEST {
        cache := BeginRequest(ready0, cache);
      } else if kind == ABORT_REQUEST {
        ok, ready, cache := AbortRequest(ready0, cache);
      } else if contentBytesExpected == 0 {
        ok, result, cache := EndStreamRecord(ready0, cache);
      }
      handled := handled + 1;
    }

    /** Bytes of the current section are added, and a record that is complete is
        processed. `exposed` says that at some release of the interface mutex in
        this call the cache named an assigned request. */
    method ReadSection(a: seq<byte>, ready0: seq<Key>, cache0: Option<Key>, ghost exposed0: bool)
      returns (ok: bool, ready: seq<Key>, cache: Option<Key>, ghost exposed: bool)
      requires Valid(ready0, cache0) && 0 < |a| <= Wanted(Record())
      requires !exposed0 ==> CacheUnassigned(cache0, requests)
      modifies this
      ensures ok && View(ready) == Turn(old(View(ready0)), config, a)
      ensures Valid(ready, cache)
      ensures exposed <==> exposed0 || TurnNames(old(View(ready0)), connection, a)
      ensures !exposed ==> CacheUnassigned(cache, requests)
    {
      hide TurnNames;
      AddOk(View(ready0), connection, a);
      TurnOk(View(ready0), config, a);
      ok, cache := AddPortion(a, ready0, cache0);
      ready, exposed := ready0, exposed0 || !CacheUnassigned(cache, requests);
      if bytesReceived >= HEADER_LEN && paddingBytesExpected + contentBytesExpected + HEADER_LEN == bytesReceived {
        var result;
        ok, result, ready, cache := ProcessCompleteRecord(ready, cache);
        exposed := exposed || !CacheUnassigned(cache, requests);
        ClearRecord();
        if result.Some? {
          ready := ready + [result.value];
        }
      }
    }

    /** One turn of the inner loop: as many bytes of the buffer as belong to the
        current section. */
    method ReadNext(buffer: seq<byte>, processed: nat, ready0: seq<Key>, cache0: Option<Key>, ghost exposed0: bool)
      returns (ok: bool, next: nat, ready: seq<Key>, cache: Option<Key>, ghost exposed: bool)
      requires Valid(ready0, cache0) && processed < |buffer|
      requires !exposed0 ==> CacheUnassigned(cache0, requests)
      modifies this
      ensures ok && processed < next <= |buffer|
      ensures Valid(ready, cache)
      ensures Consume(View(ready), config, buffer[next..]) == Consume(old(View(ready0)), config, buffer[processed..])
      ensures exposed || Exposes(View(ready), config, buffer[next..]) <==>
              exposed0 || Exposes(old(View(ready0)), config, buffer[processed..])
      ensures !exposed ==> CacheUnassigned(cache, requests)
    {
      var remaining := if bytesReceived < HEADER_LEN then HEADER_LEN - bytesReceived
                       else if bytesReceived < HEADER_LEN + contentBytesExpected
                       then HEADER_LEN + contentBytesExpected - bytesReceived
                       else HEADER_LEN + contentBytesExpected + paddingBytesExpected - bytesReceived;
      var number := if remaining <= |buffer| - processed then remaining else |buffer| - processed;
      next := processed + number;
      ConsumeStep(View(ready0), config, buffer, processed, next);
      ok, ready, cache, exposed := ReadSection(buffer[processed..next], ready0, cache0, exposed0);
    }

    /** The inner loop: everything in the buffer is processed. */
    method ProcessBuffer(buffer: seq<byte>, ready0: seq<Key>, cache0: Option<Key>, ghost exposed0: bool)
      returns (ok: bool, ready: seq<Key>, cache: Option<Key>, ghost exposed: bool)
      requires Valid(ready0, cache0)
      requires !exposed0 ==> CacheUnassigned(cache0, requests)
      modifies this
      ensures ok && View(ready) == Consume(old(View(ready0)), config, buffer)
      ensures Valid(ready, cache)
      ensures exposed <==> exposed0 || Exposes(old(View(ready0)), config, buffer)
      ensures !exposed ==> CacheUnassigned(cache, requests)
    {
      ok, ready, cache, exposed := true, ready0, cache0, exposed0;
      var processed := 0;
      assert buffer[0..] == buffer;
      while processed < |buffer|
        invariant ok && processed <= |buffer| && Valid(ready, cache)
        invariant Consume(View(ready), config, buffer[processed..]) == Consume(old(View(ready0)), config, buffer)
        invariant exposed || Exposes(View(ready), config, buffer[processed..]) <==>
                  exposed0 || Exposes(old(View(ready0)), config, buffer)
        invariant !exposed ==> CacheUnassigned(cache, requests)
      {
        ok, processed, ready, cache, exposed := ReadNext(buffer, processed, ready, cache, exposed);
      }
    }

    /** ReadRecords for the portions that read delivers, all but the last of them
        full buffers. Unless the socket merely blocked, the connection is scheduled
        for closure and the list is discarded. `exposed` says that the call relied
        on a cached entry which a request thread could remove meanwhile. */
    method ReadRecords(portions: seq<seq<byte>>, ending: Ending)
      returns (ok: bool, ready: seq<Key>, ghost discarded: seq<Key>, ghost exposed: bool)
      requires Valid([], None) && portions != []
      requires forall k :: 0 <= k < |portions| ==>
                 |portions[k]| <= BUFFER_SIZE && (|portions[k]| == BUFFER_SIZE <==> k < |portions| - 1)
      modifies this
      ensures ok
      ensures ending.Blocked? ==> View(ready) == Consume(old(View([])), config, Flatten(portions)) && Valid(ready, None)
      ensures !ending.Blocked? ==> ready == [] && closing
      ensures !ending.Blocked? ==>
                var n := Consume(old(View([])), config, Flatten(portions[..|portions| - 1]));
                View(discarded) == n.(m := n.m.(closing := true))
      ensures exposed <==> Exposes(old(View([])), config,
                                   Flatten(if ending.Blocked? then portions else portions[..|portions| - 1]))
    {
      hide Consume, Exposes, Flatten, ConnectionOk;
      ok, ready, discarded, exposed := true, [], [], false;
      var cache := None;
      ghost var start := View([]);
      var i := 0;
      var done := false;
      FlattenNone(portions);
      ConsumeNone(start, config);
      while !done
        invariant ok && i <= |portions| && Valid(ready, cache)
        invariant View(ready) == Consume(start, config, Flatten(portions[..i]))
        invariant exposed <==> Exposes(start, config, Flatten(portions[..i]))
        invariant !exposed ==> CacheUnassigned(cache, requests)
        invariant done <==> i == |portions|
        invariant done ==> ending.Blocked?
        decreases |portions| - i
      {
        var buffer := portions[i];
        if |buffer| < BUFFER_SIZE && !ending.Blocked? {
          closing := true;
          discarded := ready;
          return ok, [], discarded, exposed;
        }
        ghost var before := Flatten(portions[..i]);
        ok, ready, cache, exposed := ProcessBuffer(buffer, ready, cache, exposed);
        ConsumeAppend(start, config, before, buffer);
        ExposesAppend(start, config, before, buffer);
        FlattenMore(portions[..i], buffer);
        assert portions[..i + 1] == portions[..i] + [buffer];
        i := i + 1;
        done := |buffer| < BUFFER_SIZE;
      }
      assert portions[..i] == portions;
    }
  }

  lemma ConsumeNone(rd: Reader, cfg: Config)
    requires ReaderOk(rd, cfg.fd)
    ensures Consume(rd, cfg, []) == rd && !Exposes(rd, cfg, [])
  {
  }

  lemma FlattenNone(portions: seq<seq<byte>>)
    ensures Flatten(portions[..0]) == []
  {
  }

  lemma ConsumeStep(rd: Reader, cfg: Config, buffer: seq<byte>, from: nat, to: nat)
    requires ReaderOk(rd, cfg.fd) && from < |buffer| && to == from + Min(Wanted(rd.p), |buffer| - from)
    ensures ReaderOk(Turn(rd, cfg, buffer[from..to]), cfg.fd)
    ensures Consume(rd, cfg, buffer[from..]) == Consume(Turn(rd, cfg, buffer[from..to]), cfg, buffer[to..])
    ensures Exposes(rd, cfg, buffer[from..]) <==>
            TurnNames(rd, cfg.fd, buffer[from..to]) || Exposes(Turn(rd, cfg, buffer[from..to]), cfg, buffer[to..])
  {
    var s := buffer[from..];
    assert s[..to - from] == buffer[from..to] && s[to - from..] == buffer[to..];
    TurnOk(rd, cfg, buffer[from..to]);
  }
}
