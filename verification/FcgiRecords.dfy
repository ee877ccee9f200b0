/** The record format of section 3.3 of the FastCGI specification: an eight-byte
    header, the content it announces, and padding. */
module FcgiRecords {
  import opened Bytes

  const HEADER_LEN := 8
  const VERSION_1: byte := 1
  const MAX_CONTENT := 65535
  /** Greatest content length of a record whose total length is a multiple of
      eight without padding. */
  const ALIGNED_MAX := MAX_CONTENT - 7

  datatype Record = Record(kind: byte, id: nat, content: seq<byte>, padding: nat)

  predicate Serializable(r: Record) {
    r.id < 0x1_0000 && |r.content| <= MAX_CONTENT && r.padding < 256
  }

  /** PopulateHeader. */
  function Header(kind: byte, id: nat, contentLength: nat, padding: nat): (h: seq<byte>)
    requires id < 0x1_0000 && contentLength <= MAX_CONTENT && padding < 256
    ensures |h| == HEADER_LEN
  {
    [VERSION_1, kind, id / 256, id % 256, contentLength / 256, contentLength % 256, padding, 0]
  }

  function HeaderId(h: seq<byte>): (id: nat)
    requires |h| >= HEADER_LEN
    ensures id < 0x1_0000
  {
    h[2] as int * 256 + h[3]
  }

  function HeaderContentLength(h: seq<byte>): (n: nat)
    requires |h| >= HEADER_LEN
    ensures n <= MAX_CONTENT
  {
    h[4] as int * 256 + h[5]
  }

  function Zeros(n: nat): (z: seq<byte>)
    ensures |z| == n
  {
    seq(n, _ => 0)
  }

  function Serialize(r: Record): (s: seq<byte>)
    requires Serializable(r)
    ensures |s| == HEADER_LEN + |r.content| + r.padding
  {
    Header(r.kind, r.id, |r.content|, r.padding) + r.content + Zeros(r.padding)
  }

  /** Length of the record whose header starts `s`. */
  function RecordLength(s: seq<byte>): nat
    requires |s| >= HEADER_LEN
  {
    HEADER_LEN + HeaderContentLength(s) + s[6]
  }

  predicate StartsWithRecord(s: seq<byte>) {
    |s| >= HEADER_LEN && |s| >= RecordLength(s)
  }

  function FirstRecord(s: seq<byte>): Record
    requires StartsWithRecord(s)
  {
    Record(s[1], HeaderId(s), s[HEADER_LEN..HEADER_LEN + HeaderContentLength(s)], s[6])
  }

  /** The records that the headers of a byte stream delimit; an incomplete last
      record is not among them. */
  function Parse(s: seq<byte>): seq<Record> {
    if StartsWithRecord(s) then [FirstRecord(s)] + Parse(s[RecordLength(s)..]) else []
  }

  /** The bytes after the last complete record. */
  function Unparsed(s: seq<byte>): seq<byte> {
    if StartsWithRecord(s) then Unparsed(s[RecordLength(s)..]) else s
  }

  /** The contents of consecutive records. */
  function Contents(rs: seq<Record>): seq<byte> {
    if rs == [] then [] else rs[0].content + Contents(rs[1..])
  }

  // ------------------------------------------------------------------

  lemma ParseSerialized(r: Record, rest: seq<byte>)
    requires Serializable(r)
    ensures StartsWithRecord(Serialize(r) + rest)
    ensures Parse(Serialize(r) + rest) == [r] + Parse(rest)
    ensures Unparsed(Serialize(r) + rest) == Unparsed(rest)
  {
    var s := Serialize(r) + rest;
    var n := |r.content|;
    assert s[..HEADER_LEN] == Header(r.kind, r.id, n, r.padding);
    assert HeaderContentLength(s) == n && HeaderId(s) == r.id && s[1] == r.kind && s[6] == r.padding;
    assert s[HEADER_LEN..HEADER_LEN + n] == r.content;
    assert s[RecordLength(s)..] == rest;
  }

  /** A stream that ends at a record boundary can be parsed on its own. */
  lemma {:induction false} ParseAppend(a: seq<byte>, b: seq<byte>)
    requires Unparsed(a) == []
    ensures Parse(a + b) == Parse(a) + Parse(b) && Unparsed(a + b) == Unparsed(b)
    decreases |a|
  {
    if StartsWithRecord(a) {
      var n := RecordLength(a);
      assert (a + b)[..HEADER_LEN] == a[..HEADER_LEN];
      assert HeaderContentLength(a + b) == HeaderContentLength(a);
      assert FirstRecord(a + b) == FirstRecord(a);
      ParseAppend(a[n..], b);
      assert (a + b)[n..] == a[n..] + b;
    } else {
      assert a + b == b;
    }
  }

  lemma {:induction false} ContentsAppend(a: seq<Record>, b: seq<Record>)
    ensures Contents(a + b) == Contents(a) + Contents(b)
  {
    if a == [] {
      assert a + b == b;
    } else {
      ContentsAppend(a[1..], b);
      assert (a + b)[0] == a[0] && (a + b)[1..] == a[1..] + b;
      var first, rest, more := a[0].content, Contents(a[1..]), Contents(b);
      assert first + (rest + more) == (first + rest) + more;
    }
  }

  // ------------------------------------------------------------------
  // Framing of a byte string

  /** Least number of bytes that brings a length to a multiple of eight. */
  function PaddingFor(n: nat): (p: nat)
    ensures p < 8 && (n + p) % 8 == 0
  {
    (8 - n % 8) % 8
  }

  function FramedRecord(kind: byte, id: nat, content: seq<byte>): (r: Record)
    requires id < 0x1_0000 && |content| <= MAX_CONTENT
    ensures Serializable(r)
  {
    Record(kind, id, content, PaddingFor(|content|))
  }

  /** A nonempty content is sent as full aligned records followed by one padded
      record for what remains. */
  function Frame(kind: byte, id: nat, content: seq<byte>): seq<byte>
    requires id < 0x1_0000
  {
    if content == [] then []
    else if |content| <= ALIGNED_MAX then Serialize(FramedRecord(kind, id, content))
    else Serialize(FramedRecord(kind, id, content[..ALIGNED_MAX])) + Frame(kind, id, content[ALIGNED_MAX..])
  }

  /** A stream record as the library sends it: its own kind and id, a nonempty
      content of at most 65528 bytes, and a total length divisible by eight. */
  predicate WellFramed(r: Record, kind: byte, id: nat) {
    && r.kind == kind && r.id == id
    && 0 < |r.content| <= ALIGNED_MAX
    && r.padding < 8 && (|r.content| + r.padding) % 8 == 0
  }

  predicate AllFramed(rs: seq<Record>, kind: byte, id: nat) {
    forall k :: 0 <= k < |rs| ==> WellFramed(rs[k], kind, id)
  }

  /** Number of records needed for `n` bytes of content. */
  function RecordsFor(n: nat): nat {
    n / ALIGNED_MAX + if n % ALIGNED_MAX > 0 then 1 else 0
  }

  lemma RecordsForStep(n: nat)
    ensures n == 0 ==> RecordsFor(n) == 0
    ensures 0 < n <= ALIGNED_MAX ==> RecordsFor(n) == 1
    ensures n > ALIGNED_MAX ==> RecordsFor(n) == 1 + RecordsFor(n - ALIGNED_MAX)
  {
    if n > ALIGNED_MAX {
      assert n / ALIGNED_MAX == 1 + (n - ALIGNED_MAX) / ALIGNED_MAX;
      assert n % ALIGNED_MAX == (n - ALIGNED_MAX) % ALIGNED_MAX;
    }
  }

  /** Splits a framed content into its first record and the framed rest. */
  lemma FrameStep(kind: byte, id: nat, content: seq<byte>) returns (r: Record, rest: seq<byte>)
    requires id < 0x1_0000 && content != []
    ensures Serializable(r) && WellFramed(r, kind, id) && content == r.content + rest
    ensures Frame(kind, id, content) == Serialize(r) + Frame(kind, id, rest)
    ensures RecordsFor(|content|) == 1 + RecordsFor(|rest|)
    ensures r.padding + PaddingFor(|rest|) == PaddingFor(|content|)
  {
    RecordsForStep(|content|);
    var n := if |content| <= ALIGNED_MAX then |content| else ALIGNED_MAX;
    assert |content| <= ALIGNED_MAX ==> content[..n] == content;
    r, rest := FramedRecord(kind, id, content[..n]), content[n..];
    assert Serialize(r) + [] == Serialize(r);
    PaddingAfterFull(|content|);
  }

  lemma PaddingAfterFull(n: nat)
    ensures n > ALIGNED_MAX ==> PaddingFor(n) == PaddingFor(n - ALIGNED_MAX)
    ensures PaddingFor(ALIGNED_MAX) == PaddingFor(0) == 0
  {
    if n > ALIGNED_MAX {
      AddEightsKeeps(n - ALIGNED_MAX, ALIGNED_MAX / 8);
    }
  }

  lemma AddEightsKeeps(n: nat, k: nat)
    ensures (n + 8 * k) % 8 == n % 8
  {
  }

  /** The records found in a framed content are all well framed, their contents
      concatenate to it, and there are as few of them as alignment allows. */
  lemma {:induction false} FrameParses(kind: byte, id: nat, content: seq<byte>)
    requires id < 0x1_0000
    ensures var f := Frame(kind, id, content);
            && Unparsed(f) == []
            && AllFramed(Parse(f), kind, id)
            && Contents(Parse(f)) == content
            && |Parse(f)| == RecordsFor(|content|)
    decreases |content|
  {
    if content != [] {
      var r, rest := FrameStep(kind, id, content);
      FrameParses(kind, id, rest);
      ParseSerialized(r, Frame(kind, id, rest));
    }
  }

  lemma {:induction false} FrameLength(kind: byte, id: nat, content: seq<byte>)
    requires id < 0x1_0000
    ensures |Frame(kind, id, content)| == |content| + 8 * RecordsFor(|content|) + PaddingFor(|content|)
    decreases |content|
  {
    if content != [] {
      var r, rest := FrameStep(kind, id, content);
      FrameLength(kind, id, rest);
      assert |Frame(kind, id, content)| == |Serialize(r)| + |Frame(kind, id, rest)|;
    }
  }

  lemma FrameAligned(kind: byte, id: nat, content: seq<byte>)
    requires id < 0x1_0000
    ensures |Frame(kind, id, content)| % 8 == 0
  {
    FrameLength(kind, id, content);
    AddEights(|content| + PaddingFor(|content|), RecordsFor(|content|));
  }

  lemma AddEights(n: nat, k: nat)
    requires n % 8 == 0
    ensures (n + 8 * k) % 8 == 0
  {
  }
}
