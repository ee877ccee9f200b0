/** ExtractContent, the chunked decoder that the library's tests apply to what
    it writes: an independent reading of a stream of records. */
module ContentExtractor {
  import opened Bytes
  import opened BytePartition
  import opened FcgiRecords

  /** Results: no header or section error, ended by an empty record, all records
      aligned, number of headers, content. */
  datatype Outcome = Outcome(ok: bool, terminated: bool, aligned: bool, count: nat, content: seq<byte>)

  datatype Section = InHeader | InContent | InPadding

  /** The local variables of ExtractContent. `read` counts the bytes read of the
      current section once the header is complete. */
  datatype Scan = Scan(section: Section, header: seq<byte>, contentLength: nat, padding: nat, read: nat,
                       aligned: bool, count: nat, content: seq<byte>, headerError: bool, terminated: bool)

  const START := Scan(InHeader, [], 0, 0, 0, true, 0, [], false, false)

  predicate Valid(st: Scan) {
    && |st.header| <= HEADER_LEN && st.contentLength <= MAX_CONTENT && st.padding < 256
    && (st.section.InHeader? && !Stopped(st) ==> |st.header| < HEADER_LEN)
    && (st.section.InContent? && !Stopped(st) ==> st.read < st.contentLength)
    && (st.section.InPadding? && !Stopped(st) ==> st.read <= st.padding)
  }

  predicate Stopped(st: Scan) {
    st.headerError || st.terminated
  }

  /** What a complete header leads to. */
  function AfterHeader(st: Scan, header: seq<byte>, kind: byte, id: nat): (next: Scan)
    requires |header| == HEADER_LEN
    ensures Valid(next)
  {
    var c, p := HeaderContentLength(header), header[6];
    var counted := st.(header := header, contentLength := c, padding := p, read := 0, count := st.count + 1,
                       aligned := st.aligned && (c + p) % 8 == 0, headerError := false, terminated := false);
    if header[1] != kind || HeaderId(header) != id then counted.(headerError := true)
    else if c == 0 then counted.(terminated := true)
    else counted.(section := InContent, header := [])
  }

  function SectionComplete(st: Scan): bool {
    match st.section
    case InHeader => st.header == []
    case InContent => false
    case InPadding => st.read == st.padding
  }

  function Finish(st: Scan): Outcome {
    var error := st.headerError || (!st.terminated && !SectionComplete(st));
    Outcome(!error, st.terminated, !error && st.aligned, st.count, st.content)
  }

  /** The outcome if the stream goes on with `s`. */
  function Outlook(st: Scan, s: seq<byte>, kind: byte, id: nat): Outcome
    requires Valid(st)
    decreases |s|, match st.section case InHeader => 0 case InContent => 0 case InPadding => 1
  {
    if Stopped(st) || s == [] then Finish(st)
    else
      match st.section
      case InHeader =>
        var n := HEADER_LEN - |st.header|;
        if |s| < n then Finish(st.(header := st.header + s))
        else Outlook(AfterHeader(st, st.header + s[..n], kind, id), s[n..], kind, id)
      case InContent =>
        var n := st.contentLength - st.read;
        if |s| < n then Finish(st.(content := st.content + s, read := st.read + |s|))
        else Outlook(st.(content := st.content + s[..n], section := InPadding, read := 0), s[n..], kind, id)
      case InPadding =>
        var n := st.padding - st.read;
        if |s| < n then Finish(st.(read := st.read + |s|))
        else Outlook(st.(section := InHeader, header := [], read := 0), s[n..], kind, id)
  }

  /** The progress made by the bytes of one buffer that belong to the current
      section. */
  function Advance(st: Scan, a: seq<byte>, kind: byte, id: nat): (next: Scan)
    requires Valid(st) && !Stopped(st) && |a| <= Wanted(st)
    ensures Valid(next)
  {
    match st.section
    case InHeader =>
      if |a| < Wanted(st) then st.(header := st.header + a) else AfterHeader(st, st.header + a, kind, id)
    case InContent =>
      var more := st.(content := st.content + a, read := st.read + |a|);
      if |a| < Wanted(st) then more else more.(section := InPadding, read := 0)
    case InPadding =>
      if |a| < Wanted(st) then st.(read := st.read + |a|) else st.(section := InHeader, header := [], read := 0)
  }

  /** Bytes that complete the current section. */
  function Wanted(st: Scan): nat
    requires Valid(st) && !Stopped(st)
  {
    match st.section
    case InHeader => HEADER_LEN - |st.header|
    case InContent => st.contentLength - st.read
    case InPadding => st.padding - st.read
  }

  lemma SplitAt(a: seq<byte>, s: seq<byte>)
    ensures (a + s)[..|a|] == a && (a + s)[|a|..] == s
  {
  }

  /** Bytes that complete the section lead to the next one. */
  lemma OutlookComplete(st: Scan, a: seq<byte>, s: seq<byte>, kind: byte, id: nat)
    requires Valid(st) && !Stopped(st) && |a| == Wanted(st) && a + s != []
    ensures Outlook(st, a + s, kind, id) == Outlook(Advance(st, a, kind, id), s, kind, id)
  {
    SplitAt(a, s);
  }

  lemma SplitLater(x: seq<byte>, a: seq<byte>, s: seq<byte>, n: nat)
    requires |a| <= n <= |a + s|
    ensures x + (a + s) == (x + a) + s
    ensures x + (a + s)[..n] == (x + a) + s[..n - |a|]
    ensures (a + s)[n..] == s[n - |a|..]
  {
  }

  lemma OutlookHeaderPart(st: Scan, a: seq<byte>, s: seq<byte>, kind: byte, id: nat)
    requires Valid(st) && !Stopped(st) && st.section.InHeader? && 0 < |a| < Wanted(st) && s != []
    ensures Outlook(st, a + s, kind, id) == Outlook(Advance(st, a, kind, id), s, kind, id)
  {
    hide Finish;
    var n := Wanted(st);
    SplitLater(st.header, a, s, if n <= |a + s| then n else |a + s|);
  }

  lemma OutlookContentPart(st: Scan, a: seq<byte>, s: seq<byte>, kind: byte, id: nat)
    requires Valid(st) && !Stopped(st) && st.section.InContent? && 0 < |a| < Wanted(st) && s != []
    ensures Outlook(st, a + s, kind, id) == Outlook(Advance(st, a, kind, id), s, kind, id)
  {
    var n := Wanted(st);
    SplitLater(st.content, a, s, if n <= |a + s| then n else |a + s|);
  }

  lemma OutlookPaddingPart(st: Scan, a: seq<byte>, s: seq<byte>, kind: byte, id: nat)
    requires Valid(st) && !Stopped(st) && st.section.InPadding? && 0 < |a| < Wanted(st) && s != []
    ensures Outlook(st, a + s, kind, id) == Outlook(Advance(st, a, kind, id), s, kind, id)
  {
    var n := Wanted(st);
    SplitLater([], a, s, if n <= |a + s| then n else |a + s|);
  }

  /** The outlook does not change when a portion of it arrives. */
  lemma OutlookAdvance(st: Scan, a: seq<byte>, s: seq<byte>, kind: byte, id: nat)
    requires Valid(st) && !Stopped(st) && |a| <= Wanted(st) && a + s != []
    requires |a| == Wanted(st) || a != []
    ensures Outlook(st, a + s, kind, id) == Outlook(Advance(st, a, kind, id), s, kind, id)
  {
    if |a| == Wanted(st) {
      OutlookComplete(st, a, s, kind, id);
    } else if s == [] {
      assert a + s == a;
    } else if st.section.InHeader? {
      OutlookHeaderPart(st, a, s, kind, id);
    } else if st.section.InContent? {
      OutlookContentPart(st, a, s, kind, id);
    } else {
      OutlookPaddingPart(st, a, s, kind, id);
    }
  }

  lemma OutlookOver(st: Scan, s: seq<byte>, kind: byte, id: nat)
    requires Valid(st) && (Stopped(st) || s == [])
    ensures Outlook(st, s, kind, id) == Finish(st)
  {
  }

  /** The bytes that read(2) delivers in these portions; an empty portion is the
      end of the file. */
  function Delivered(portions: seq<seq<byte>>): seq<byte> {
    if portions == [] || portions[0] == [] then [] else portions[0] + Delivered(portions[1..])
  }

  /** What a stream means to ExtractContent. */
  function Extract(s: seq<byte>, kind: byte, id: nat): Outcome {
    Outlook(START, s, kind, id)
  }

  /** The loop over one buffer. */
  method ExtractPortion(st0: Scan, buffer: seq<byte>, ghost later: seq<byte>, kind: byte, id: nat) returns (st: Scan)
    requires Valid(st0)
    ensures Valid(st) && Outlook(st, later, kind, id) == Outlook(st0, buffer + later, kind, id)
  {
    hide Outlook;
    st := st0;
    var offset := 0;
    assert buffer[0..] + later == buffer + later;
    while offset < |buffer| && !Stopped(st)
      invariant 0 <= offset <= |buffer| && Valid(st)
      invariant Outlook(st, buffer[offset..] + later, kind, id) == Outlook(st0, buffer + later, kind, id)
      decreases |buffer| - offset, st.section.InPadding?
    {
      var n := if Wanted(st) <= |buffer| - offset then Wanted(st) else |buffer| - offset;
      assert buffer[offset..] + later == buffer[offset..offset + n] + (buffer[offset + n..] + later);
      OutlookAdvance(st, buffer[offset..offset + n], buffer[offset + n..] + later, kind, id);
      st := Advance(st, buffer[offset..offset + n], kind, id);
      offset := offset + n;
    }
    if Stopped(st) {
      OutlookOver(st, buffer[offset..] + later, kind, id);
      OutlookOver(st, later, kind, id);
    } else {
      assert buffer[offset..] + later == later;
    }
  }

  lemma DeliveredNext(portions: seq<seq<byte>>, i: nat)
    requires i <= |portions|
    ensures i == |portions| || portions[i] == [] ==> Delivered(portions[i..]) == []
    ensures i < |portions| && portions[i] != [] ==>
              Delivered(portions[i..]) == portions[i] + Delivered(portions[i + 1..])
  {
    assert i < |portions| ==> portions[i..][1..] == portions[i + 1..];
  }

  method ExtractContent(portions: seq<seq<byte>>, kind: byte, id: nat) returns (r: Outcome)
    ensures r == Extract(Delivered(portions), kind, id)
  {
    hide Outlook, Delivered;
    var st := START;
    var i := 0;
    assert portions[0..] == portions;
    while i < |portions| && portions[i] != [] && !Stopped(st)
      invariant 0 <= i <= |portions| && Valid(st)
      invariant Outlook(st, Delivered(portions[i..]), kind, id) == Extract(Delivered(portions), kind, id)
    {
      DeliveredNext(portions, i);
      st := ExtractPortion(st, portions[i], Delivered(portions[i + 1..]), kind, id);
      i := i + 1;
    }
    DeliveredNext(portions, i);
    OutlookOver(st, Delivered(portions[i..]), kind, id);
    r := Finish(st);
  }

  // ------------------------------------------------------------------
  // Round trips

  predicate AtBoundary(st: Scan) {
    Valid(st) && !Stopped(st) && st.section.InHeader? && st.header == []
  }

  /** The state after a well-framed record. */
  function Passed(st: Scan, r: Record): Scan {
    st.(contentLength := |r.content|, padding := r.padding, read := 0, count := st.count + 1,
        content := st.content + r.content)
  }

  lemma AdvanceHeader(st: Scan, h: seq<byte>, kind: byte, id: nat)
    requires AtBoundary(st) && |h| == HEADER_LEN && h[1] == kind && HeaderId(h) == id
    requires HeaderContentLength(h) > 0 && (HeaderContentLength(h) + h[6]) % 8 == 0
    ensures Advance(st, h, kind, id) ==
            st.(section := InContent, contentLength := HeaderContentLength(h), padding := h[6], read := 0,
                count := st.count + 1)
  {
    assert [] + h == h;
  }

  lemma OutlookRest(st: Scan, content: seq<byte>, zeros: seq<byte>, rest: seq<byte>, kind: byte, id: nat)
    requires Valid(st) && !Stopped(st) && st.section.InContent? && st.header == [] && st.read == 0
    requires |content| == st.contentLength && |zeros| == st.padding
    ensures Outlook(st, content + (zeros + rest), kind, id) ==
            Outlook(st.(section := InHeader, content := st.content + content), rest, kind, id)
  {
    var b := st.(section := InPadding, content := st.content + content);
    OutlookComplete(st, content, zeros + rest, kind, id);
    assert Advance(st, content, kind, id) == b;
    if zeros + rest != [] {
      OutlookComplete(b, zeros, rest, kind, id);
    }
  }

  lemma RecordParts(s: seq<byte>) returns (h: seq<byte>, content: seq<byte>, padding: seq<byte>, rest: seq<byte>)
    requires StartsWithRecord(s)
    ensures |h| == HEADER_LEN && h[1] == s[1] && h[6] == s[6] && HeaderId(h) == HeaderId(s)
    ensures HeaderContentLength(h) == HeaderContentLength(s) == |content| && |padding| == s[6]
    ensures content == FirstRecord(s).content && rest == s[RecordLength(s)..]
    ensures s == h + (content + (padding + rest))
  {
    var n := HEADER_LEN + HeaderContentLength(s);
    h, content, padding, rest := s[..HEADER_LEN], s[HEADER_LEN..n], s[n..RecordLength(s)], s[RecordLength(s)..];
  }

  lemma OutlookParts(st: Scan, h: seq<byte>, content: seq<byte>, padding: seq<byte>, rest: seq<byte>,
                     kind: byte, id: nat)
    requires AtBoundary(st) && |h| == HEADER_LEN && h[1] == kind && HeaderId(h) == id
    requires HeaderContentLength(h) == |content| > 0 && h[6] == |padding| && (|content| + |padding|) % 8 == 0
    ensures Outlook(st, h + (content + (padding + rest)), kind, id) ==
            Outlook(Passed(st, Record(kind, id, content, |padding|)), rest, kind, id)
  {
    hide Outlook, Advance;
    OutlookComplete(st, h, content + (padding + rest), kind, id);
    AdvanceHeader(st, h, kind, id);
    OutlookRest(Advance(st, h, kind, id), content, padding, rest, kind, id);
  }

  /** A well-framed record is passed over completely. */
  lemma OutlookRecord(st: Scan, s: seq<byte>, kind: byte, id: nat)
    requires AtBoundary(st) && StartsWithRecord(s) && WellFramed(FirstRecord(s), kind, id)
    ensures Outlook(st, s, kind, id) == Outlook(Passed(st, FirstRecord(s)), s[RecordLength(s)..], kind, id)
  {
    var h, content, padding, rest := RecordParts(s);
    OutlookParts(st, h, content, padding, rest, kind, id);
  }

  lemma FramedFirst(s: seq<byte>, kind: byte, id: nat)
    requires Unparsed(s) == [] && AllFramed(Parse(s), kind, id) && StartsWithRecord(s)
    ensures var rest := s[RecordLength(s)..];
            && Unparsed(rest) == [] && AllFramed(Parse(rest), kind, id)
            && WellFramed(FirstRecord(s), kind, id)
            && |Parse(s)| == 1 + |Parse(rest)|
            && Contents(Parse(s)) == FirstRecord(s).content + Contents(Parse(rest))
  {
    var rest := s[RecordLength(s)..];
    assert Parse(s)[0] == FirstRecord(s) && Parse(s)[1..] == Parse(rest);
    forall k | 0 <= k < |Parse(rest)| ensures WellFramed(Parse(rest)[k], kind, id) {
      assert Parse(rest)[k] == Parse(s)[k + 1];
    }
  }

  lemma {:induction false} OutlookRecords(st: Scan, s: seq<byte>, rest: seq<byte>, kind: byte, id: nat)
    returns (next: Scan)
    requires AtBoundary(st) && Unparsed(s) == [] && AllFramed(Parse(s), kind, id)
    ensures AtBoundary(next) && next.count == st.count + |Parse(s)| && next.aligned == st.aligned
    ensures next.content == st.content + Contents(Parse(s))
    ensures Outlook(st, s + rest, kind, id) == Outlook(next, rest, kind, id)
    decreases |s|
  {
    hide Outlook;
    if StartsWithRecord(s) {
      FramedFirst(s, kind, id);
      FirstOfLonger(s, rest);
      OutlookRecord(st, s + rest, kind, id);
      next := OutlookRecords(Passed(st, FirstRecord(s)), s[RecordLength(s)..], rest, kind, id);
    } else {
      next := st;
      assert s + rest == rest;
    }
  }

  lemma FirstOfLonger(s: seq<byte>, rest: seq<byte>)
    requires StartsWithRecord(s)
    ensures StartsWithRecord(s + rest) && RecordLength(s + rest) == RecordLength(s)
    ensures FirstRecord(s + rest) == FirstRecord(s)
    ensures (s + rest)[RecordLength(s)..] == s[RecordLength(s)..] + rest
  {
    assert (s + rest)[..HEADER_LEN] == s[..HEADER_LEN];
  }

  /** However the bytes of well-framed records are delivered, ExtractContent finds
      no error, all records aligned, their number and their content. */
  lemma ExtractCarried(portions: seq<seq<byte>>, kind: byte, id: nat, content: seq<byte>)
    requires Carries(Delivered(portions), kind, id, content)
    ensures Extract(Delivered(portions), kind, id) ==
            Outcome(true, false, true, |Parse(Delivered(portions))|, content)
  {
    var s := Delivered(portions);
    var next := OutlookRecords(START, s, [], kind, id);
    assert s + [] == s;
  }

  /** An empty record after them ends the stream; what follows it is not read. */
  lemma ExtractTerminated(s: seq<byte>, after: seq<byte>, kind: byte, id: nat, content: seq<byte>)
    requires Carries(s, kind, id, content) && id < 0x1_0000
    ensures Extract(s + (Header(kind, id, 0, 0) + after), kind, id) ==
            Outcome(true, true, true, |Parse(s)| + 1, content)
  {
    hide Outlook, Parse, Contents;
    var h := Header(kind, id, 0, 0);
    var next := OutlookRecords(START, s, h + after, kind, id);
    assert HeaderId(h) == id && HeaderContentLength(h) == 0 && next.header + h == h;
    OutlookComplete(next, h, after, kind, id);
    OutlookOver(Advance(next, h, kind, id), after, kind, id);
  }

  /** A header of another kind or with another id is an error, wherever it comes, and
      nothing behind it is read. */
  lemma ExtractMismatched(s: seq<byte>, t: seq<byte>, kind: byte, id: nat, content: seq<byte>)
    requires Carries(s, kind, id, content) && |t| >= HEADER_LEN && (t[1] != kind || HeaderId(t) != id)
    ensures Extract(s + t, kind, id) == Outcome(false, false, false, |Parse(s)| + 1, content)
  {
    hide Outlook, Parse, Contents;
    var next := OutlookRecords(START, s, t, kind, id);
    var h, rest := t[..HEADER_LEN], t[HEADER_LEN..];
    assert t == h + rest && next.header + h == h;
    OutlookComplete(next, h, rest, kind, id);
    OutlookOver(Advance(next, h, kind, id), rest, kind, id);
  }

  /** What is not aligned stays so. */
  lemma {:induction false} NeverAlignedAgain(st: Scan, s: seq<byte>, kind: byte, id: nat)
    requires Valid(st) && !st.aligned
    ensures !Outlook(st, s, kind, id).aligned
    decreases |s|, match st.section case InHeader => 0 case InContent => 0 case InPadding => 1
  {
    if !Stopped(st) && s != [] {
      var n := Wanted(st);
      if |s| >= n {
        match st.section
        case InHeader => NeverAlignedAgain(AfterHeader(st, st.header + s[..n], kind, id), s[n..], kind, id);
        case InContent =>
          NeverAlignedAgain(st.(content := st.content + s[..n], section := InPadding, read := 0), s[n..], kind, id);
        case InPadding => NeverAlignedAgain(st.(section := InHeader, header := [], read := 0), s[n..], kind, id);
      }
    }
  }

  /** A record whose total length is not a multiple of eight is noticed, whatever
      follows. */
  lemma ExtractUnaligned(s: seq<byte>, t: seq<byte>, kind: byte, id: nat, content: seq<byte>)
    requires Carries(s, kind, id, content) && |t| >= HEADER_LEN && RecordLength(t) % 8 != 0
    ensures !Extract(s + t, kind, id).aligned
  {
    hide Outlook, Parse, Contents;
    var next := OutlookRecords(START, s, t, kind, id);
    var h, rest := t[..HEADER_LEN], t[HEADER_LEN..];
    assert t == h + rest && next.header + h == h;
    OutlookComplete(next, h, rest, kind, id);
    NeverAlignedAgain(Advance(next, h, kind, id), rest, kind, id);
  }

  /** A stream that ends within a record is an error. */
  lemma ExtractCutShort(s: seq<byte>, t: seq<byte>, kind: byte, id: nat, content: seq<byte>)
    requires Carries(s, kind, id, content) && t != [] && !StartsWithRecord(t)
    requires |t| >= HEADER_LEN ==> HeaderContentLength(t) > 0
    ensures !Extract(s + t, kind, id).ok
  {
    hide Parse, Contents;
    if |t| >= HEADER_LEN && (t[1] != kind || HeaderId(t) != id) {
      ExtractMismatched(s, t, kind, id, content);
    } else {
      var next := OutlookRecords(START, s, t, kind, id);
      if |t| >= HEADER_LEN {
        CutBehindHeader(next, t, kind, id);
      }
    }
  }

  lemma CutBehindHeader(st: Scan, t: seq<byte>, kind: byte, id: nat)
    requires AtBoundary(st) && |t| >= HEADER_LEN && !StartsWithRecord(t)
    requires t[1] == kind && HeaderId(t) == id && HeaderContentLength(t) > 0
    ensures !Outlook(st, t, kind, id).ok
  {
    var h, rest := t[..HEADER_LEN], t[HEADER_LEN..];
    assert t == h + rest && st.header + h == h;
    OutlookComplete(st, h, rest, kind, id);
    var a := Advance(st, h, kind, id);
    var n := HeaderContentLength(t);
    if |rest| >= n {
      assert rest == rest[..n] + rest[n..];
      OutlookComplete(a, rest[..n], rest[n..], kind, id);
    }
  }

  /** What a successful WriteHelper sends reads back as its argument. */
  method WriteThenExtract(data: seq<byte>, kind: byte, id: nat, l: Limits, written: nat -> bool,
                          portions: seq<seq<byte>>)
    returns (ok: bool, sent: seq<seq<byte>>, r: Outcome)
    requires id < 0x1_0000 && Supported(l)
    ensures ok && Delivered(portions) == Flatten(sent) ==>
              r == Outcome(true, false, true, |Parse(Flatten(sent))|, data)
  {
    var at: nat;
    ok, sent, at := WriteHelper(data, kind, id, l, true, written);
    r := ExtractContent(portions, kind, id);
    if ok && Delivered(portions) == Flatten(sent) {
      assert data[..at] == data;
      ExtractCarried(portions, kind, id, data);
    }
  }
}
