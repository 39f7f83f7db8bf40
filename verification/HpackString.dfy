/** Strings of section 5.2 of RFC 7541 and the parsing of names and values around them
    (src/hpack/encoder.rs:202-247, src/hpack/decoder.rs:314-361, src/hpack/header.rs). */
module HpackString {
  import opened Prelude
  import opened HpackHeader
  import opened HpackInt
  import opened HuffmanCode
  import opened Huffman

  /** What the codec takes from elsewhere: the Huffman code, and which octets external
      code accepts as a field name and as the value of a given name. */
  datatype Env = Env(code: Tree, nameOk: seq<Byte> -> bool, valueOk: (Name, seq<Byte>) -> bool)

  datatype DecoderError =
    | InvalidRepresentation
    | InvalidIntegerPrefix
    | InvalidTableIndex
    | InvalidHuffmanCode
    | InvalidUtf8
    | InvalidStatusCode
    | InvalidPseudoheader
    | InvalidMaxDynamicSize
    | IntegerOverflow
    | UnexpectedEndOfStream
    | IntegerUnderflow
    | StringUnderflow

  /** The three reasons to ask for more input. */
  predicate NeedMore(e: DecoderError) {
    e.UnexpectedEndOfStream? || e.IntegerUnderflow? || e.StringUnderflow?
  }

  function IntError(r: IntResult): (e: DecoderError)
    requires !r.IntOk?
  {
    match r
    case IntNeedMore => IntegerUnderflow
    case IntOverflow => IntegerOverflow
    case IntInvalidPrefix => InvalidIntegerPrefix
  }

  datatype Parsed<T> = Good(value: T, used: nat) | Fault(error: DecoderError)

  /** A string at the start of s. */
  function ParseString(env: Env, s: seq<Byte>): (r: Parsed<seq<Byte>>)
    ensures r.Good? ==> 1 <= r.used <= |s|
  {
    if |s| == 0 then Fault(UnexpectedEndOfStream)
    else
      match DecodeInt(s, 7)
      case IntOk(len, used) =>
        if len > |s| - used then Fault(StringUnderflow)
        else
          var raw := s[used..used + len];
          if s[0] >= 128 then
            match HuffDecode(env.code, raw)
            case Some(v) => Good(v, used + len)
            case None => Fault(InvalidHuffmanCode)
          else Good(raw, used + len)
      case e => Fault(IntError(e))
  }

  function EncodeStr(env: Env, v: seq<Byte>): (r: seq<Byte>)
    ensures |r| >= 1
  {
    if |v| == 0 then [0]
    else
      var h := HuffEncode(env.code, v);
      EncodeInt(|h|, 7, 0x80) + h
  }

  /** The length of the Huffman form is within what the decoder's integers can say. */
  predicate StringFits(env: Env, v: seq<Byte>) {
    |HuffEncode(env.code, v)| < 127 + 0x1000_0000
  }

  lemma FirstOctetFlagged(value: nat, rest: seq<Byte>)
    ensures (EncodeInt(value, 7, 0x80) + rest)[0] >= 128
  {
  }

  /** A string comes back exactly when its Huffman form is not too long to announce. */
  lemma StringRoundTrip(env: Env, v: seq<Byte>, rest: seq<Byte>)
    requires WellFormed(env.code)
    ensures ParseString(env, EncodeStr(env, v) + rest) ==
              if v == [] || StringFits(env, v) then Good(v, |EncodeStr(env, v)|) else Fault(IntegerOverflow)
  {
    if v == [] {
      var s := EncodeStr(env, v) + rest;
      assert s[0] == 0 && DecodeInt(s, 7) == IntOk(0, 1);
      assert s[1..1] == [];
    } else {
      var h := HuffEncode(env.code, v);
      HuffmanExact(env.code, h, v);
      HuffmanStringRoundTrip(env, v, h, rest);
      Regroup(EncodeInt(|h|, 7, 0x80), h, rest);
    }
  }

  lemma Regroup(a: seq<Byte>, b: seq<Byte>, c: seq<Byte>)
    ensures a + b + c == a + (b + c)
  {
  }

  lemma HuffmanStringRoundTrip(env: Env, v: seq<Byte>, h: seq<Byte>, rest: seq<Byte>)
    requires HuffDecode(env.code, h) == Some(v)
    ensures ParseString(env, EncodeInt(|h|, 7, 0x80) + (h + rest)) ==
              if |h| < 127 + 0x1000_0000 then Good(v, |EncodeInt(|h|, 7, 0x80)| + |h|) else Fault(IntegerOverflow)
  {
    var head := EncodeInt(|h|, 7, 0x80);
    var s := head + (h + rest);
    IntRoundTrip(|h|, 7, 0x80, h + rest);
    FirstOctetFlagged(|h|, h + rest);
    assert s[|head|..|head| + |h|] == h;
  }

  // ----- names and values -----------------------------------------------------------

  /** src/hpack/header.rs:108-129 */
  function NewHeader(env: Env, name: seq<Byte>, value: seq<Byte>): (r: Parsed<Header>) {
    if |name| == 0 then Fault(UnexpectedEndOfStream)
    else if name[0] == 58 then
      match ParsePseudo(name)
      case None => Fault(InvalidPseudoheader)
      case Some(n) => if env.valueOk(n, value) then Good(Header(n, value, false), 0) else Fault(InvalidUtf8)
    else if env.nameOk(name) && env.valueOk(Field(name), value) then Good(Header(Field(name), value, false), 0)
    else Fault(InvalidUtf8)
  }

  function ParsePseudo(name: seq<Byte>): (r: Option<Name>) {
    if name == NameBytes(Authority) then Some(Authority)
    else if name == NameBytes(Method) then Some(Method)
    else if name == NameBytes(Scheme) then Some(Scheme)
    else if name == NameBytes(Path) then Some(Path)
    else if name == NameBytes(Protocol) then Some(Protocol)
    else if name == NameBytes(Status) then Some(Status)
    else None
  }

  /** src/hpack/header.rs:236-255 */
  function IntoEntry(env: Env, n: Name, value: seq<Byte>): (r: Parsed<Header>) {
    if env.valueOk(n, value) then Good(Header(n, value, false), 0)
    else if n == Status then Fault(InvalidStatusCode)
    else Fault(InvalidUtf8)
  }

  /** A header that can exist: its parts parse, and only fields are ever sensitive. */
  predicate ValidHeader(env: Env, h: Header) {
    && (match h.name
        case Field(b) => |b| > 0 && b[0] != 58 && env.nameOk(b)
        case _ => true)
    && env.valueOk(h.name, h.value)
    && (h.sensitive ==> h.name.Field?)
  }

  lemma PseudoNamesDiffer(n: Name)
    requires !n.Field?
    ensures |NameBytes(n)| > 0 && NameBytes(n)[0] == 58 && ParsePseudo(NameBytes(n)) == Some(n)
  {
    assert NameBytes(Method)[1] == 'm' as int;
    assert NameBytes(Scheme)[2] == 'c' as int;
    assert NameBytes(Status)[2] == 't' as int;
  }

  /** Parsing inverts printing. */
  lemma ParsesBack(env: Env, h: Header)
    requires ValidHeader(env, h)
    ensures NewHeader(env, NameBytes(h.name), h.value) == Good(h.(sensitive := false), 0)
    ensures IntoEntry(env, h.name, h.value) == Good(h.(sensitive := false), 0)
  {
    if !h.name.Field? {
      PseudoNamesDiffer(h.name);
    }
  }

  // ----- the encoder's in-place shift --------------------------------------------------

  lemma {:induction false} VarintLength(w: nat, n: nat)
    requires n >= 1 && w < Pow128(n)
    ensures |Varint(w)| <= n
    decreases n
  {
    if w >= 128 {
      assert Pow128(n) == 128 * Pow128(n - 1);
      VarintLength(w / 128, n - 1);
    }
  }

  lemma HeadLength(len: nat)
    requires len < 0x2_0000_0000_0000
    ensures |EncodeInt(len, 7, 0x80)| <= 8
  {
    if len >= 127 {
      FourGroups();
      assert Pow128(5) == 128 * Pow128(4);
      assert Pow128(6) == 128 * Pow128(5);
      assert Pow128(7) == 128 * Pow128(6);
      VarintLength(len - 127, 7);
    }
  }

  /** src/hpack/encoder.rs:202-247.  The length head is only known once the string has
      been written behind a one-octet placeholder; if it is longer, the string is shifted
      up, last octet first, and the head is copied in. */
  method PutStr(env: Env, val: seq<Byte>, dst0: seq<Byte>) returns (dst: seq<Byte>)
    requires WellFormed(env.code)
    requires |HuffEncode(env.code, val)| < 0x2_0000_0000_0000
    ensures dst == dst0 + EncodeStr(env, val)
  {
    if |val| == 0 {
      return dst0 + [0];
    }
    dst := Huffman.Encode(env.code, val, dst0 + [0]);
    dst := PutHead(dst, |dst0|, dst0, HuffEncode(env.code, val));
  }

  /** src/hpack/encoder.rs:215-245 */
  method PutHead(a0: seq<Byte>, idx: nat, ghost before: seq<Byte>, ghost h: seq<Byte>) returns (a: seq<Byte>)
    requires a0 == before + [0] + h && idx == |before| && |h| < 0x2_0000_0000_0000
    ensures a == before + (EncodeInt(|h|, 7, 0x80) + h)
  {
    var huffLen := |a0| - (idx + 1);
    if huffLen < 127 {
      a := a0[idx := 0x80 + huffLen];
    } else {
      HeadLength(huffLen);
      var buf := PutInt(huffLen, 7, 0x80, []);
      assert buf == EncodeInt(huffLen, 7, 0x80);
      a := a0 + buf[1..];
      assert a[idx + 1..idx + 1 + huffLen] == h && a[..idx] == before;
      a := ShiftUp(a, idx, |buf|, huffLen);
      a := CopyHead(a, idx, buf);
    }
  }

  /** src/hpack/encoder.rs:235-239 */
  method ShiftUp(a0: seq<Byte>, idx: nat, headLen: nat, huffLen: nat) returns (a: seq<Byte>)
    requires headLen >= 1 && |a0| == idx + headLen + huffLen
    ensures |a| == |a0| && a[..idx] == a0[..idx]
    ensures a[idx + headLen..] == a0[idx + 1..idx + 1 + huffLen]
  {
    a := a0;
    var i := 0;
    while i < huffLen
      invariant 0 <= i <= huffLen && |a| == |a0|
      invariant forall p :: 0 <= p < idx + 1 + huffLen - i ==> a[p] == a0[p]
      invariant forall p :: |a0| - i <= p < |a0| ==> a[p] == a0[p - headLen + 1]
    {
      var srcI := idx + 1 + (huffLen - (i + 1));
      var dstI := idx + headLen + (huffLen - (i + 1));
      a := a[dstI := a[srcI]];
      i := i + 1;
    }
  }

  /** src/hpack/encoder.rs:242-244 */
  method CopyHead(a0: seq<Byte>, idx: nat, buf: seq<Byte>) returns (a: seq<Byte>)
    requires idx + |buf| <= |a0|
    ensures a == a0[..idx] + buf + a0[idx + |buf|..]
  {
    a := a0;
    var i := 0;
    while i < |buf|
      invariant 0 <= i <= |buf|
      invariant a == a0[..idx] + buf[..i] + a0[idx + i..]
    {
      a := a[idx + i := buf[i]];
      i := i + 1;
    }
  }
}
