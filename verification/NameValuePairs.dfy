/** The name-value pair format of section 3.4 of the FastCGI specification. */
module NameValuePairs {
  import opened Wrappers
  import opened Bytes

  datatype Pair = Pair(name: seq<byte>, value: seq<byte>)

  /** Greatest lengths that fit the one-byte and the four-byte form. */
  const ONE_BYTE_MAX := 127
  const FOUR_BYTE_MAX := 0x7FFF_FFFF

  // ------------------------------------------------------------------
  // Lengths

  /** The four-byte form: the low 31 bits, high byte first, under a set bit. */
  function FourBytes(length: nat): (s: seq<byte>)
    ensures |s| == 4 && s[0] >= 128
  {
    [length / 0x100_0000 % 128 + 128, length / 0x1_0000 % 256, length / 0x100 % 256, length % 256]
  }

  function FromFourBytes(s: seq<byte>): (length: nat)
    requires |s| >= 4
    ensures length <= FOUR_BYTE_MAX
  {
    (((s[0] % 128) as int * 256 + s[1]) * 256 + s[2]) * 256 + s[3]
  }

  lemma Shifts(length: nat)
    ensures length / 0x1_0000 == length / 256 / 256 && length / 0x100_0000 == length / 256 / 256 / 256
  {
  }

  /** The value of the low 31 bits, from the bytes. */
  lemma LowBits(length: nat, b1: nat, b2: nat, b3: nat)
    requires b1 == length / 256 && b2 == b1 / 256 && b3 == b2 / 256
    ensures ((b3 % 128 * 256 + b2 % 256) * 256 + b1 % 256) * 256 + length % 256 == length % 0x8000_0000
  {
    var low := ((b3 % 128 * 256 + b2 % 256) * 256 + b1 % 256) * 256 + length % 256;
    assert length == b1 * 256 + length % 256 && b1 == b2 * 256 + b1 % 256;
    assert b2 == b3 * 256 + b2 % 256 && b3 == b3 / 128 * 128 + b3 % 128;
    assert length == b3 / 128 * 0x8000_0000 + low;
    Remainder(length, b3 / 128, low);
  }

  lemma Remainder(n: nat, q: nat, r: nat)
    requires n == q * 0x8000_0000 + r && r < 0x8000_0000
    ensures n % 0x8000_0000 == r
  {
  }

  /** Exactly the lengths below 2^31 survive the four-byte form. */
  lemma FourBytesRoundTrip(length: nat)
    ensures FromFourBytes(FourBytes(length)) == length % 0x8000_0000
    ensures FromFourBytes(FourBytes(length)) == length <==> length <= FOUR_BYTE_MAX
  {
    Shifts(length);
    LowBits(length, length / 256, length / 256 / 256, length / 256 / 256 / 256);
    var s, b3 := FourBytes(length), length / 256 / 256 / 256 % 128;
    assert s[0] == b3 + 128 && s[0] % 128 == b3;
    assert FromFourBytes(s) == length % 0x8000_0000;
  }

  lemma FourBytesOnto(s: seq<byte>)
    requires |s| >= 4 && s[0] >= 128
    ensures FourBytes(FromFourBytes(s)) == s[..4]
  {
    var length := FromFourBytes(s);
    assert length % 256 == s[3] && length / 256 == ((s[0] % 128) as int * 256 + s[1]) * 256 + s[2];
    assert length / 256 % 256 == s[2] && length / 256 / 256 == (s[0] % 128) as int * 256 + s[1];
    assert length / 256 / 256 % 256 == s[1] && length / 256 / 256 / 256 == s[0] % 128;
    assert length / 0x1_0000 == length / 256 / 256 && length / 0x100_0000 == length / 256 / 256 / 256;
  }

  /** EncodeFourByteLength: a length with a one-byte form is an error. */
  method EncodeFourByteLength(length: int) returns (bytes: Option<seq<byte>>)
    ensures bytes == if length < 128 then None else Some(FourBytes(length))
  {
    if length < 128 {
      return None;
    }
    var shifts := [0x1_0000, 0x100, 1];
    ghost var spec := FourBytes(length);
    var out: seq<byte> := [length / 0x100_0000 % 256 % 128 + 128];
    assert spec[..1] == [spec[0]];
    var i := 0;
    while i < 3
      invariant 0 <= i <= 3 && out == spec[..i + 1]
    {
      assert spec[i + 1] == length / shifts[i] % 256;
      assert spec[..i + 2] == spec[..i + 1] + [spec[i + 1]];
      out := out + [length / shifts[i] % 256];
      i := i + 1;
    }
    assert spec[..4] == spec;
    return Some(out);
  }

  /** ExtractFourByteLength. */
  method ExtractFourByteLength(bytes: seq<byte>) returns (length: nat)
    requires |bytes| >= 4
    ensures length == FromFourBytes(bytes)
  {
    length := bytes[0] % 128;
    var i := 0;
    while i < 3
      invariant 0 <= i <= 3
      invariant i == 0 ==> length == bytes[0] % 128
      invariant i == 1 ==> length == (bytes[0] % 128) as int * 256 + bytes[1]
      invariant i == 2 ==> length == ((bytes[0] % 128) as int * 256 + bytes[1]) * 256 + bytes[2]
      invariant i == 3 ==> length == FromFourBytes(bytes)
    {
      i := i + 1;
      length := length * 256 + bytes[i];
    }
  }

  // ------------------------------------------------------------------
  // Encoded pairs

  /** The forms in which a length may be written. */
  function EncodeLength(n: nat, wide: bool): (s: seq<byte>)
    requires n <= ONE_BYTE_MAX || wide
    ensures |s| == if wide then 4 else 1
  {
    if wide then FourBytes(n) else [n]
  }

  /** Which lengths are written wide: name, value. */
  datatype Form = Form(name: bool, value: bool)

  predicate FormFits(p: Pair, f: Form) {
    && |p.name| <= FOUR_BYTE_MAX && |p.value| <= FOUR_BYTE_MAX
    && (|p.name| <= ONE_BYTE_MAX || f.name) && (|p.value| <= ONE_BYTE_MAX || f.value)
  }

  function EncodeAs(p: Pair, f: Form): (s: seq<byte>)
    requires FormFits(p, f)
    ensures |s| >= 2
  {
    EncodeLength(|p.name|, f.name) + EncodeLength(|p.value|, f.value) + p.name + p.value
  }

  predicate FormsFit(ps: seq<Pair>, fs: seq<Form>) {
    |fs| == |ps| && forall k :: 0 <= k < |ps| ==> FormFits(ps[k], fs[k])
  }

  function EncodeAllAs(ps: seq<Pair>, fs: seq<Form>): seq<byte>
    requires FormsFit(ps, fs)
  {
    if ps == [] then [] else EncodeAs(ps[0], fs[0]) + EncodeAllAs(ps[1..], fs[1..])
  }

  /** The form that the library's encoder chooses. */
  function Shortest(p: Pair): Form {
    Form(|p.name| > ONE_BYTE_MAX, |p.value| > ONE_BYTE_MAX)
  }

  /** Neither name nor value is longer than the format allows. */
  predicate Encodable(p: Pair) {
    |p.name| <= FOUR_BYTE_MAX && |p.value| <= FOUR_BYTE_MAX
  }

  function Encode(p: Pair): (s: seq<byte>)
    requires Encodable(p)
    ensures |s| >= 2
  {
    EncodeAs(p, Shortest(p))
  }

  predicate AllEncodable(ps: seq<Pair>) {
    forall k :: 0 <= k < |ps| ==> Encodable(ps[k])
  }

  function EncodeAll(ps: seq<Pair>): seq<byte>
    requires AllEncodable(ps)
  {
    if ps == [] then [] else Encode(ps[0]) + EncodeAll(ps[1..])
  }

  // ------------------------------------------------------------------
  // Decoding

  datatype LengthField = LengthField(value: nat, size: nat)

  function DecodeLength(s: seq<byte>): (r: Option<LengthField>)
    ensures r.Some? ==> 1 <= r.value.size <= |s|
  {
    if s == [] then None
    else if s[0] < 128 then Some(LengthField(s[0], 1))
    else if |s| < 4 then None
    else Some(LengthField(FromFourBytes(s), 4))
  }

  datatype Decoded = Decoded(pair: Pair, size: nat)

  function DecodePair(s: seq<byte>): (r: Option<Decoded>)
    ensures r.Some? ==> 2 <= r.value.size <= |s|
  {
    match DecodeLength(s)
    case None => None
    case Some(n) =>
      (match DecodeLength(s[n.size..])
       case None => None
       case Some(v) =>
         var name := n.size + v.size;
         var value := name + n.value;
         if value + v.value > |s| then None
         else Some(Decoded(Pair(s[name..value], s[value..value + v.value]), value + v.value)))
  }

  function Decode(s: seq<byte>): Option<seq<Pair>> {
    if s == [] then Some([])
    else
      var d := DecodePair(s);
      if d.None? then None else Prepend([d.value.pair], Decode(s[d.value.size..]))
  }

  function Prepend(ps: seq<Pair>, rest: Option<seq<Pair>>): Option<seq<Pair>> {
    if rest.None? then None else Some(ps + rest.value)
  }

  lemma PrependPrepend(ps: seq<Pair>, p: Pair, rest: Option<seq<Pair>>)
    ensures Prepend(ps, Prepend([p], rest)) == Prepend(ps + [p], rest)
    ensures Prepend([], rest) == rest
  {
    if rest.Some? {
      assert ps + ([p] + rest.value) == ps + [p] + rest.value;
      assert [] + rest.value == rest.value;
    }
  }

  /** `result` are the pairs in the first `done` bytes of `content`. */
  ghost predicate DecodedUpTo(content: seq<byte>, done: nat, result: seq<Pair>)
    requires done <= |content|
  {
    Decode(content) == Prepend(result, Decode(content[done..]))
  }

  lemma DecodedNone(content: seq<byte>)
    ensures DecodedUpTo(content, 0, [])
  {
    assert content[0..] == content;
    PrependPrepend([], Pair([], []), Decode(content));
  }

  lemma DecodedAll(content: seq<byte>, result: seq<Pair>)
    requires DecodedUpTo(content, |content|, result)
    ensures Decode(content) == Some(result)
  {
    assert content[|content|..] == [] && result + [] == result;
  }

  /** The pair that starts at `done` announces the lengths `n` and `v`, and its
      name starts at `at`. */
  ghost predicate LengthsAt(content: seq<byte>, done: nat, n: nat, v: nat, at: nat)
    requires done <= |content|
  {
    var s := content[done..];
    && DecodeLength(s).Some? && DecodeLength(s).value.value == n
    && var size := DecodeLength(s).value.size;
    && DecodeLength(s[size..]).Some? && DecodeLength(s[size..]).value.value == v
    && at == done + size + DecodeLength(s[size..]).value.size
  }

  lemma PairAt(content: seq<byte>, done: nat, n: nat, v: nat, at: nat)
    requires done <= |content| && LengthsAt(content, done, n, v, at)
    ensures done < at <= |content|
    ensures DecodePair(content[done..]) ==
            if at + n + v > |content| then None
            else Some(Decoded(Pair(content[at..at + n], content[at + n..at + n + v]), at + n + v - done))
  {
    var s := content[done..];
    if at + n + v <= |content| {
      assert s[at - done..at - done + n] == content[at..at + n];
      assert s[at - done + n..at - done + n + v] == content[at + n..at + n + v];
    }
  }

  lemma DecodeFirst(s: seq<byte>)
    requires s != []
    ensures DecodePair(s).None? ==> Decode(s).None?
    ensures DecodePair(s).Some? ==>
              Decode(s) == Prepend([DecodePair(s).value.pair], Decode(s[DecodePair(s).value.size..]))
  {
  }

  lemma DecodedBad(content: seq<byte>, done: nat, result: seq<Pair>)
    requires done < |content| && DecodedUpTo(content, done, result) && DecodePair(content[done..]).None?
    ensures Decode(content).None?
  {
    DecodeFirst(content[done..]);
  }

  /** What one turn of the decoding loop does to the result. */
  lemma DecodedNext(content: seq<byte>, done: nat, result: seq<Pair>, end: nat, p: Pair)
    requires done < end <= |content| && DecodedUpTo(content, done, result)
    requires DecodePair(content[done..]) == Some(Decoded(p, end - done))
    ensures DecodedUpTo(content, end, result + [p])
  {
    hide Decode, DecodePair;
    var s := content[done..];
    DecodeFirst(s);
    assert s[end - done..] == content[end..];
    PrependPrepend(result, p, Decode(content[end..]));
  }

  /** The lengths of the pair that starts at `processed`, and where they end. */
  method ExtractLengths(content: seq<byte>, processed: nat) returns (ok: bool, lengths: seq<nat>, at: nat)
    requires processed < |content|
    ensures ok ==> |lengths| == 2 && LengthsAt(content, processed, lengths[0], lengths[1], at)
    ensures !ok ==> DecodePair(content[processed..]).None?
  {
    ghost var start := content[processed..];
    lengths, at := [], processed;
    var i := 0;
    while i < 2
      invariant 0 <= i <= 2 && |lengths| == i && processed <= at <= |content|
      invariant i == 0 ==> at == processed
      invariant i >= 1 ==> DecodeLength(start).Some? && lengths[0] == DecodeLength(start).value.value
      invariant i == 1 ==> at == processed + DecodeLength(start).value.size
      invariant i == 2 ==> LengthsAt(content, processed, lengths[0], lengths[1], at)
    {
      assert content[at..] == start[at - processed..];
      if at + 1 > |content| {
        return false, lengths, at;
      }
      if content[at] >= 128 {
        if at + 4 > |content| {
          return false, lengths, at;
        }
        var length := ExtractFourByteLength(content[at..]);
        lengths := lengths + [length];
        at := at + 4;
      } else {
        lengths := lengths + [content[at]];
        at := at + 1;
      }
      i := i + 1;
    }
    ok := true;
  }

  /** The sum of a position and two lengths in size_t. */
  function PastEnd(at: nat, n: nat, v: nat, sizeMax: nat): nat {
    (at + n + v) % (sizeMax + 1)
  }

  /** The comparison with the length of the content finds out whether the pair
      ends within it. */
  predicate ComparesRight(at: nat, n: nat, v: nat, length: nat, sizeMax: nat) {
    PastEnd(at, n, v, sizeMax) > length <==> at + n + v > length
  }

  lemma NoWrap(at: nat, n: nat, v: nat, sizeMax: nat)
    requires at + n + v <= sizeMax
    ensures PastEnd(at, n, v, sizeMax) == at + n + v
  {
  }

  lemma Wrap(at: nat, n: nat, v: nat, sizeMax: nat)
    requires at + n + v == sizeMax + 1
    ensures PastEnd(at, n, v, sizeMax) == 0
  {
  }

  /** The comparison is right for all lengths exactly if no sum wraps. */
  lemma ComparisonIsRight(length: nat, sizeMax: nat)
    requires length <= sizeMax
    ensures (forall at: nat, n: nat, v: nat :: at <= length && n <= FOUR_BYTE_MAX && v <= FOUR_BYTE_MAX ==>
               ComparesRight(at, n, v, length, sizeMax)) <==>
            length + 2 * FOUR_BYTE_MAX <= sizeMax
  {
    hide PastEnd;
    if length + 2 * FOUR_BYTE_MAX <= sizeMax {
      forall at: nat, n: nat, v: nat | at <= length && n <= FOUR_BYTE_MAX && v <= FOUR_BYTE_MAX
        ensures ComparesRight(at, n, v, length, sizeMax)
      {
        NoWrap(at, n, v, sizeMax);
      }
    } else {
      var k := sizeMax + 1 - length;
      var n := if k <= FOUR_BYTE_MAX then k else FOUR_BYTE_MAX;
      Wrap(length, n, k - n, sizeMax);
      assert !ComparesRight(length, n, k - n, length, sizeMax);
    }
  }

  /** With 32 bits the comparison lets this content pass, which does not decode. */
  lemma WrappedSum()
    ensures var s: seq<byte> := [255, 255, 255, 255, 255, 255, 255, 255];
            && LengthsAt(s, 0, FOUR_BYTE_MAX, FOUR_BYTE_MAX, 8) && Decode(s).None?
            && PastEnd(8, FOUR_BYTE_MAX, FOUR_BYTE_MAX, 0xFFFF_FFFF) == 6 <= |s|
  {
    var s: seq<byte> := [255, 255, 255, 255, 255, 255, 255, 255];
    assert FromFourBytes(s) == FOUR_BYTE_MAX;
    assert DecodeLength(s) == Some(LengthField(FOUR_BYTE_MAX, 4));
    assert s[0..] == s && s[4..] == [255, 255, 255, 255];
    assert FromFourBytes(s[4..]) == FOUR_BYTE_MAX;
    assert DecodeLength(s[4..]) == Some(LengthField(FOUR_BYTE_MAX, 4));
    PairAt(s, 0, FOUR_BYTE_MAX, FOUR_BYTE_MAX, 8);
    DecodeFirst(s);
  }

  lemma LengthsBounded(content: seq<byte>, done: nat, n: nat, v: nat, at: nat)
    requires done <= |content| && LengthsAt(content, done, n, v, at)
    ensures n <= FOUR_BYTE_MAX && v <= FOUR_BYTE_MAX
  {
  }

  /** One turn of the loop: the next pair, unless the content is ill formed. */
  method ExtractPair(content: seq<byte>, processed: nat, sizeMax: nat) returns (ok: bool, p: Pair, end: nat)
    requires processed < |content| && |content| + 2 * FOUR_BYTE_MAX <= sizeMax
    ensures processed <= end <= |content| && (ok ==> processed < end)
    ensures if ok then DecodePair(content[processed..]) == Some(Decoded(p, end - processed))
            else DecodePair(content[processed..]).None?
  {
    p, end := Pair([], []), processed;
    var lengths, at;
    ok, lengths, at := ExtractLengths(content, processed);
    if !ok {
      return;
    }
    PairAt(content, processed, lengths[0], lengths[1], at);
    LengthsBounded(content, processed, lengths[0], lengths[1], at);
    NoWrap(at, lengths[0], lengths[1], sizeMax);
    hide PastEnd;
    var pastEnd := PastEnd(at, lengths[0], lengths[1], sizeMax);
    if pastEnd > |content| {
      return false, p, end;
    }
    end := pastEnd;
    p := Pair(content[at..at + lengths[0]], content[at + lengths[0]..end]);
  }

  /** ExtractBinaryNameValuePairs: an ill-formed input and an empty one both give
      the empty list. `sizeMax` is SIZE_MAX. */
  method ExtractBinaryNameValuePairs(content: seq<byte>, sizeMax: nat) returns (result: seq<Pair>)
    requires |content| + 2 * FOUR_BYTE_MAX <= sizeMax
    ensures Decode(content) == Some(result) || (Decode(content).None? && result == [])
  {
    var processed := 0;
    result := [];
    DecodedNone(content);
    while processed < |content|
      invariant 0 <= processed <= |content|
      invariant DecodedUpTo(content, processed, result)
    {
      var ok, p, end := ExtractPair(content, processed, sizeMax);
      if !ok {
        DecodedBad(content, processed, result);
        return [];
      }
      DecodedNext(content, processed, result, end, p);
      result := result + [p];
      processed := end;
    }
    DecodedAll(content, result);
  }

  // ------------------------------------------------------------------
  // Decoding inverts every way of encoding, and only those

  lemma DecodeLengthEncoded(n: nat, wide: bool, rest: seq<byte>)
    requires n <= FOUR_BYTE_MAX && (n <= ONE_BYTE_MAX || wide)
    ensures DecodeLength(EncodeLength(n, wide) + rest) == Some(LengthField(n, if wide then 4 else 1))
  {
    if wide {
      var s := FourBytes(n) + rest;
      FourBytesRoundTrip(n);
      assert s[0] == FourBytes(n)[0] && s[1] == FourBytes(n)[1] && s[2] == FourBytes(n)[2] && s[3] == FourBytes(n)[3];
    }
  }

  lemma SliceMiddle(a: seq<byte>, b: seq<byte>, c: seq<byte>)
    ensures (a + b + c)[|a|..|a| + |b|] == b
  {
  }

  lemma LengthsEncoded(p: Pair, f: Form, rest: seq<byte>)
    requires FormFits(p, f)
    ensures var s, n := EncodeAs(p, f) + rest, if f.name then 4 else 1;
            && DecodeLength(s) == Some(LengthField(|p.name|, n))
            && DecodeLength(s[n..]) == Some(LengthField(|p.value|, if f.value then 4 else 1))
  {
    hide DecodeLength;
    var e, g := EncodeLength(|p.name|, f.name), EncodeLength(|p.value|, f.value);
    var s, after := EncodeAs(p, f) + rest, g + (p.name + p.value + rest);
    assert s == e + after && s[|e|..] == after;
    DecodeLengthEncoded(|p.name|, f.name, after);
    DecodeLengthEncoded(|p.value|, f.value, p.name + p.value + rest);
  }

  lemma ContentsEncoded(p: Pair, f: Form, rest: seq<byte>)
    requires FormFits(p, f)
    ensures var s, at := EncodeAs(p, f) + rest, (if f.name then 4 else 1) + (if f.value then 4 else 1);
            && |EncodeAs(p, f)| == at + |p.name| + |p.value|
            && s[at..at + |p.name|] == p.name
            && s[at + |p.name|..at + |p.name| + |p.value|] == p.value
  {
    var lengths := EncodeLength(|p.name|, f.name) + EncodeLength(|p.value|, f.value);
    SliceMiddle(lengths, p.name, p.value + rest);
    SliceMiddle(lengths + p.name, p.value, rest);
    assert EncodeAs(p, f) + rest == lengths + p.name + (p.value + rest);
    assert EncodeAs(p, f) + rest == lengths + p.name + p.value + rest;
  }

  lemma DecodePairEncoded(p: Pair, f: Form, rest: seq<byte>)
    requires FormFits(p, f)
    ensures DecodePair(EncodeAs(p, f) + rest) == Some(Decoded(p, |EncodeAs(p, f)|))
  {
    LengthsEncoded(p, f, rest);
    ContentsEncoded(p, f, rest);
    hide DecodeLength, EncodeAs;
    var s := EncodeAs(p, f) + rest;
    assert DecodePair(s) == Some(Decoded(p, |EncodeAs(p, f)|));
  }

  lemma {:induction false} DecodeEncodedAs(ps: seq<Pair>, fs: seq<Form>)
    requires FormsFit(ps, fs)
    ensures Decode(EncodeAllAs(ps, fs)) == Some(ps)
  {
    if ps != [] {
      var rest := EncodeAllAs(ps[1..], fs[1..]);
      DecodePairEncoded(ps[0], fs[0], rest);
      DecodeEncodedAs(ps[1..], fs[1..]);
      var s := EncodeAs(ps[0], fs[0]) + rest;
      assert s[|EncodeAs(ps[0], fs[0])|..] == rest;
      assert [ps[0]] + ps[1..] == ps;
    }
  }

  lemma DecodedLength(s: seq<byte>) returns (wide: bool)
    requires DecodeLength(s).Some?
    ensures var n := DecodeLength(s).value;
            && n.value <= FOUR_BYTE_MAX && (n.value <= ONE_BYTE_MAX || wide)
            && s[..n.size] == EncodeLength(n.value, wide)
  {
    wide := s[0] >= 128;
    if wide {
      FourBytesOnto(s);
    }
  }

  lemma FourParts(s: seq<byte>, a: nat, b: nat, c: nat, d: nat)
    requires a <= b <= c <= d <= |s|
    ensures s[..d] == s[..a] + s[a..][..b - a] + s[b..c] + s[c..d]
  {
    assert s[a..][..b - a] == s[a..b];
    assert s[..a] + s[a..b] == s[..b] && s[..b] + s[b..c] == s[..c] && s[..c] + s[c..d] == s[..d];
  }

  lemma DecodedPair(s: seq<byte>) returns (f: Form)
    requires DecodePair(s).Some?
    ensures var d := DecodePair(s).value;
            FormFits(d.pair, f) && s[..d.size] == EncodeAs(d.pair, f)
  {
    var d := DecodePair(s).value;
    var n := DecodeLength(s).value;
    var v := DecodeLength(s[n.size..]).value;
    var wideName := DecodedLength(s);
    var wideValue := DecodedLength(s[n.size..]);
    f := Form(wideName, wideValue);
    var at := n.size + v.size;
    FourParts(s, n.size, at, at + n.value, d.size);
  }

  /** What decodes is a concatenation of encoded pairs, in one form or another. */
  lemma {:induction false} DecodedIsEncoded(s: seq<byte>, ps: seq<Pair>) returns (fs: seq<Form>)
    requires Decode(s) == Some(ps)
    ensures FormsFit(ps, fs) && EncodeAllAs(ps, fs) == s
    decreases |s|
  {
    hide DecodePair;
    if s == [] {
      fs := [];
    } else {
      var d, later := DecodeSplit(s, ps);
      var f := DecodedPair(s);
      var rest := DecodedIsEncoded(s[d.size..], later);
      fs := [f] + rest;
      EncodeFirst(d.pair, f, later, rest);
      assert s == s[..d.size] + s[d.size..];
    }
  }

  lemma DecodeSplit(s: seq<byte>, ps: seq<Pair>) returns (d: Decoded, later: seq<Pair>)
    requires s != [] && Decode(s) == Some(ps)
    ensures DecodePair(s) == Some(d) && 2 <= d.size <= |s|
    ensures Decode(s[d.size..]) == Some(later) && ps == [d.pair] + later
  {
    DecodeFirst(s);
    d := DecodePair(s).value;
    later := Decode(s[d.size..]).value;
  }

  lemma EncodeFirst(p: Pair, f: Form, ps: seq<Pair>, fs: seq<Form>)
    requires FormFits(p, f) && FormsFit(ps, fs)
    ensures FormsFit([p] + ps, [f] + fs)
    ensures EncodeAllAs([p] + ps, [f] + fs) == EncodeAs(p, f) + EncodeAllAs(ps, fs)
  {
    assert ([p] + ps)[1..] == ps && ([f] + fs)[1..] == fs;
  }

  lemma {:induction false} EncodeAllShortest(ps: seq<Pair>)
    requires AllEncodable(ps)
    ensures FormsFit(ps, ShortestForms(ps)) && EncodeAll(ps) == EncodeAllAs(ps, ShortestForms(ps))
  {
    if ps != [] {
      EncodeAllShortest(ps[1..]);
      assert ShortestForms(ps)[1..] == ShortestForms(ps[1..]);
    }
  }

  function ShortestForms(ps: seq<Pair>): seq<Form> {
    seq(|ps|, k requires 0 <= k < |ps| => Shortest(ps[k]))
  }

  /** Decoding undoes the library's encoder. */
  lemma DecodeEncoded(ps: seq<Pair>)
    requires AllEncodable(ps)
    ensures Decode(EncodeAll(ps)) == Some(ps)
  {
    EncodeAllShortest(ps);
    DecodeEncodedAs(ps, ShortestForms(ps));
  }

  /** The converse fails: a short length in the four-byte form decodes to a pair
      that is encoded differently. */
  lemma EncodeDecodedDiffers()
    ensures var s: seq<byte> := [128, 0, 0, 0, 0];
            && Decode(s) == Some([Pair([], [])])
            && EncodeAll([Pair([], [])]) == [0, 0] != s
  {
    var p := Pair([], []);
    var s: seq<byte> := [128, 0, 0, 0, 0];
    assert FromFourBytes(s) == 0;
    assert DecodeLength(s) == Some(LengthField(0, 4));
    assert s[4..] == [0] && s[5..] == [];
    assert DecodeLength(s[4..]) == Some(LengthField(0, 1));
    assert s[5..5] == [];
    assert DecodePair(s) == Some(Decoded(p, 5));
    DecodeFirst(s);
    assert Decode(s[5..]) == Some([]) && [p] + [] == [p];
    assert EncodeLength(0, false) == [0] && Encode(p) == [0, 0];
    assert EncodeAll([p]) == Encode(p) + EncodeAll([]) == [0, 0];
  }

  // ------------------------------------------------------------------
  // When encoding undoes decoding

  /** A pair in two forms of the same length is in the same form, and of two forms
      the shortest is the only one of its length. */
  lemma FormLength(p: Pair, f: Form)
    requires FormFits(p, f)
    ensures |EncodeAs(p, f)| >= |Encode(p)|
    ensures |EncodeAs(p, f)| == |Encode(p)| <==> f == Shortest(p)
  {
  }

  /** Of all encodings of some pairs the library's own is the shortest, and no other
      is as short. */
  lemma {:induction false} EncodingIsShortest(ps: seq<Pair>, fs: seq<Form>)
    requires FormsFit(ps, fs)
    ensures AllEncodable(ps) && |EncodeAllAs(ps, fs)| >= |EncodeAll(ps)|
    ensures EncodeAllAs(ps, fs) == EncodeAll(ps) <==> fs == ShortestForms(ps)
    ensures |EncodeAllAs(ps, fs)| == |EncodeAll(ps)| ==> fs == ShortestForms(ps)
  {
    if ps != [] {
      assert AllEncodable(ps);
      FormLength(ps[0], fs[0]);
      EncodingIsShortest(ps[1..], fs[1..]);
      assert ShortestForms(ps) == [Shortest(ps[0])] + ShortestForms(ps[1..]);
      assert fs == [fs[0]] + fs[1..];
    }
    EncodeAllShortest(ps);
  }

  /** The length fields of the pair that starts `s` are no longer than they need. */
  predicate ShortLengths(s: seq<byte>)
    requires DecodePair(s).Some?
  {
    var n := DecodeLength(s).value;
    var v := DecodeLength(s[n.size..]).value;
    (n.size == 4 ==> n.value > ONE_BYTE_MAX) && (v.size == 4 ==> v.value > ONE_BYTE_MAX)
  }

  /** No length below 128 is written in four bytes. */
  predicate AllShortLengths(s: seq<byte>)
    requires Decode(s).Some?
    decreases |s|
  {
    s == [] || (ShortLengths(s) && AllShortLengths(s[DecodePair(s).value.size..]))
  }

  lemma DecodedPairShort(s: seq<byte>)
    requires DecodePair(s).Some?
    ensures var d := DecodePair(s).value;
            && Encodable(d.pair) && |Encode(d.pair)| <= d.size
            && (ShortLengths(s) <==> s[..d.size] == Encode(d.pair))
            && (ShortLengths(s) <==> d.size == |Encode(d.pair)|)
  {
    var f := DecodedPair(s);
    var d := DecodePair(s).value;
    FormLength(d.pair, f);
    var n := DecodeLength(s).value;
    var v := DecodeLength(s[n.size..]).value;
    assert d.size == n.size + v.size + |d.pair.name| + |d.pair.value|;
  }

  /** Encoding gives decoded bytes back exactly if no length below 128 was written
      in four bytes; otherwise it gives fewer bytes. */
  lemma {:induction false} EncodeDecoded(s: seq<byte>, ps: seq<Pair>)
    requires Decode(s) == Some(ps)
    ensures AllEncodable(ps) && |EncodeAll(ps)| <= |s|
    ensures EncodeAll(ps) == s <==> AllShortLengths(s)
    ensures EncodeAll(ps) == s <==> |EncodeAll(ps)| == |s|
    decreases |s|
  {
    hide DecodePair, Encode, ShortLengths;
    if s != [] {
      var d, later := DecodeSplit(s, ps);
      DecodedPairShort(s);
      EncodeDecoded(s[d.size..], later);
      assert ps[0] == d.pair && ps[1..] == later;
      assert s == s[..d.size] + s[d.size..];
      var e := Encode(d.pair);
      if EncodeAll(ps) == s && |e| == d.size {
        assert (e + EncodeAll(later))[..|e|] == e && (e + EncodeAll(later))[|e|..] == EncodeAll(later);
      }
    }
  }

  lemma {:induction false} EncodeAllAppend(a: seq<Pair>, b: seq<Pair>)
    requires AllEncodable(a) && AllEncodable(b)
    ensures EncodeAll(a + b) == EncodeAll(a) + EncodeAll(b)
  {
    if a == [] {
      assert a + b == b;
    } else {
      EncodeAllAppend(a[1..], b);
      assert (a + b)[1..] == a[1..] + b;
    }
  }
}
