/** Prefix integers of section 5.1 of RFC 7541 (src/hpack/encoder.rs:250-279,
    src/hpack/decoder.rs:399-456). */
module HpackInt {
  import opened Prelude

  function Pow2(n: nat): (p: nat)
    ensures p >= 1
  {
    if n == 0 then 1 else 2 * Pow2(n - 1)
  }

  /** The largest value of a prefix, which says that more octets follow. */
  function Mask(prefix: nat): (m: nat)
    requires 1 <= prefix <= 8
    ensures 1 <= m <= 255
  {
    match prefix
    case 1 => 1
    case 2 => 3
    case 3 => 7
    case 4 => 15
    case 5 => 31
    case 6 => 63
    case 7 => 127
    case _ => 255
  }

  /** The high bits of a first octet leave room for the prefix. */
  predicate RoomFor(first: Byte, prefix: nat) {
    1 <= prefix <= 8 && first % (Mask(prefix) + 1) == 0
  }

  /** Groups of seven bits, least significant first, all but the last flagged. */
  function Varint(v: nat): (r: seq<Byte>)
    ensures |r| >= 1
  {
    if v < 128 then [v] else [128 + v % 128] + Varint(v / 128)
  }

  function EncodeInt(value: nat, prefix: nat, first: Byte): (r: seq<Byte>)
    requires RoomFor(first, prefix)
    ensures |r| >= 1
  {
    RoomAbove(first, prefix);
    if value < Mask(prefix) then [first + value]
    else [first + Mask(prefix)] + Varint(value - Mask(prefix))
  }

  lemma RoomAbove(first: Byte, prefix: nat)
    requires RoomFor(first, prefix)
    ensures first + Mask(prefix) < 256
  {
  }

  lemma PrefixRead(first: Byte, prefix: nat, v: nat)
    requires RoomFor(first, prefix) && v <= Mask(prefix)
    ensures first + v < 256 && (first + v) % (Mask(prefix) + 1) == v
  {
  }

  datatype IntResult =
    | IntOk(value: nat, used: nat)
    | IntNeedMore
    | IntOverflow
    | IntInvalidPrefix

  /** Five octets at most: one of prefix and four of the groups. */
  const MAX_BYTES: nat := 5

  /** The groups after a full prefix; bytes octets have been read and scale is the weight
      of the next group. */
  function DecodeTail(s: seq<Byte>, bytes: nat, ret: nat, scale: nat): (r: IntResult)
    requires 1 <= bytes < MAX_BYTES
    ensures r.IntOk? ==> bytes < r.used <= bytes + |s|
    decreases |s|
  {
    if |s| == 0 then IntNeedMore
    else
      var ret' := ret + s[0] % 128 * scale;
      if s[0] < 128 then IntOk(ret', bytes + 1)
      else if bytes + 1 == MAX_BYTES then IntOverflow
      else DecodeTail(s[1..], bytes + 1, ret', scale * 128)
  }

  function DecodeInt(s: seq<Byte>, prefix: nat): (r: IntResult)
    ensures r.IntOk? ==> 1 <= r.used <= |s|
  {
    if !(1 <= prefix <= 8) then IntInvalidPrefix
    else if |s| == 0 then IntNeedMore
    else
      var ret := s[0] % (Mask(prefix) + 1);
      if ret < Mask(prefix) then IntOk(ret, 1) else DecodeTail(s[1..], 1, ret, 1)
  }

  function Pow128(n: nat): (p: nat)
    ensures p >= 1
  {
    if n == 0 then 1 else 128 * Pow128(n - 1)
  }

  lemma SplitGroups(low: nat, high: nat, scale: nat)
    ensures low * scale + high * (scale * 128) == (low + 128 * high) * scale
  {
    assert high * (scale * 128) == (128 * high) * scale;
  }

  lemma LastGroup(w: nat, rest: seq<Byte>, bytes: nat, ret: nat, scale: nat)
    requires 1 <= bytes < MAX_BYTES && w < 128
    ensures DecodeTail(Varint(w) + rest, bytes, ret, scale) == IntOk(ret + w * scale, bytes + 1)
  {
    var s := Varint(w) + rest;
    assert s[0] == w && w % 128 == w;
  }

  lemma FlaggedGroup(w: nat, rest: seq<Byte>, bytes: nat, ret: nat, scale: nat)
    requires 1 <= bytes < MAX_BYTES && w >= 128
    ensures DecodeTail(Varint(w) + rest, bytes, ret, scale) ==
              if bytes + 1 == MAX_BYTES then IntOverflow
              else DecodeTail(Varint(w / 128) + rest, bytes + 1, ret + w % 128 * scale, scale * 128)
  {
    var s := Varint(w) + rest;
    assert s[0] == 128 + w % 128 && s[0] % 128 == w % 128;
    assert s[1..] == Varint(w / 128) + rest;
  }

  lemma {:induction false} DecodeVarint(w: nat, rest: seq<Byte>, bytes: nat, ret: nat, scale: nat)
    requires 1 <= bytes < MAX_BYTES
    ensures DecodeTail(Varint(w) + rest, bytes, ret, scale) ==
              if w < Pow128(MAX_BYTES - bytes) then IntOk(ret + w * scale, bytes + |Varint(w)|) else IntOverflow
    decreases w
  {
    var p := Pow128(MAX_BYTES - bytes - 1);
    assert Pow128(MAX_BYTES - bytes) == 128 * p;
    if w < 128 {
      LastGroup(w, rest, bytes, ret, scale);
    } else {
      var low, high := w % 128, w / 128;
      FlaggedGroup(w, rest, bytes, ret, scale);
      assert w < 128 * p <==> high < p;
      if bytes + 1 < MAX_BYTES {
        DecodeVarint(high, rest, bytes + 1, ret + low * scale, scale * 128);
        SplitGroups(low, high, scale);
      } else {
        assert p == 1;
      }
    }
  }

  lemma FourGroups()
    ensures Pow128(4) == 0x1000_0000
  {
    assert Pow128(1) == 128 && Pow128(2) == 128 * 128;
    assert Pow128(3) == 128 * 128 * 128;
  }

  /** Decoding what was encoded gives the value back, wherever it stands, exactly when
      what exceeds the prefix is below 2^28; anything larger is an overflow. */
  lemma IntRoundTrip(value: nat, prefix: nat, first: Byte, rest: seq<Byte>)
    requires RoomFor(first, prefix)
    ensures DecodeInt(EncodeInt(value, prefix, first) + rest, prefix) ==
              if value < Mask(prefix) + 0x1000_0000 then IntOk(value, |EncodeInt(value, prefix, first)|) else IntOverflow
  {
    var s := EncodeInt(value, prefix, first) + rest;
    if value < Mask(prefix) {
      PrefixRead(first, prefix, value);
      assert s[0] == first + value;
    } else {
      PrefixRead(first, prefix, Mask(prefix));
      var w := value - Mask(prefix);
      assert s[0] == first + Mask(prefix) && s[1..] == Varint(w) + rest;
      DecodeVarint(w, rest, 1, Mask(prefix), 1);
      FourGroups();
    }
  }

  // ----- an integer cut short, and an integer with something behind it -----------

  lemma {:induction false} TailShort(s: seq<Byte>, k: nat, bytes: nat, ret: nat, scale: nat)
    requires 1 <= bytes < MAX_BYTES && k <= |s|
    requires DecodeTail(s, bytes, ret, scale).IntOk?
    requires bytes + k < DecodeTail(s, bytes, ret, scale).used
    ensures DecodeTail(s[..k], bytes, ret, scale).IntNeedMore?
    decreases |s|
  {
    if k > 0 {
      assert s[..k][0] == s[0] && s[..k][1..] == s[1..][..k - 1];
      assert s[0] >= 128;
      TailShort(s[1..], k - 1, bytes + 1, ret + s[0] % 128 * scale, scale * 128);
    }
  }

  /** A proper prefix of a complete integer asks for more. */
  lemma IntShort(s: seq<Byte>, k: nat, prefix: nat)
    requires DecodeInt(s, prefix).IntOk? && k < DecodeInt(s, prefix).used
    ensures DecodeInt(s[..k], prefix).IntNeedMore?
  {
    if k > 0 {
      assert s[..k][0] == s[0] && s[..k][1..] == s[1..][..k - 1];
      TailShort(s[1..], k - 1, 1, s[0] % (Mask(prefix) + 1), 1);
    }
  }

  lemma {:induction false} TailKeeps(s: seq<Byte>, k: nat, bytes: nat, ret: nat, scale: nat)
    requires 1 <= bytes < MAX_BYTES && k <= |s|
    requires DecodeTail(s, bytes, ret, scale).IntOk?
    requires DecodeTail(s, bytes, ret, scale).used <= bytes + k
    ensures DecodeTail(s[..k], bytes, ret, scale) == DecodeTail(s, bytes, ret, scale)
    decreases |s|
  {
    assert s[..k][0] == s[0] && s[..k][1..] == s[1..][..k - 1];
    if s[0] >= 128 {
      TailKeeps(s[1..], k - 1, bytes + 1, ret + s[0] % 128 * scale, scale * 128);
    }
  }

  /** A prefix that holds the whole integer is as good as the source. */
  lemma IntKeeps(s: seq<Byte>, k: nat, prefix: nat)
    requires DecodeInt(s, prefix).IntOk? && DecodeInt(s, prefix).used <= k <= |s|
    ensures DecodeInt(s[..k], prefix) == DecodeInt(s, prefix)
  {
    assert s[..k][0] == s[0] && s[..k][1..] == s[1..][..k - 1];
    if s[0] % (Mask(prefix) + 1) == Mask(prefix) {
      TailKeeps(s[1..], k - 1, 1, s[0] % (Mask(prefix) + 1), 1);
    }
  }

  /** src/hpack/encoder.rs:250-274 */
  method PutInt(value0: nat, prefix: nat, first: Byte, dst0: seq<Byte>) returns (dst: seq<Byte>)
    requires RoomFor(first, prefix)
    ensures dst == dst0 + EncodeInt(value0, prefix, first)
  {
    RoomAbove(first, prefix);
    if value0 < Mask(prefix) {
      return dst0 + [first + value0];
    }
    var low := Mask(prefix);
    var value: nat := value0 - low;
    dst := dst0 + [first + low];
    while value >= 128
      invariant dst + Varint(value) == dst0 + EncodeInt(value0, prefix, first)
    {
      assert dst + Varint(value) == dst + [128 + value % 128] + Varint(value / 128);
      dst := dst + [128 + value % 128];
      value := value / 128;
    }
    dst := dst + [value];
  }

  /** src/hpack/decoder.rs:399-456; pos is the cursor, left wherever reading stopped. */
  method GetInt(bytes: seq<Byte>, pos0: nat, prefix: nat) returns (r: IntResult, pos: nat)
    requires pos0 <= |bytes|
    ensures r == DecodeInt(bytes[pos0..], prefix)
    ensures pos0 <= pos <= |bytes|
    ensures r.IntOk? ==> pos == pos0 + r.used
  {
    pos := pos0;
    if !(1 <= prefix <= 8) {
      return IntInvalidPrefix, pos;
    }
    if pos == |bytes| {
      return IntNeedMore, pos;
    }
    var ret: nat := bytes[pos] % (Mask(prefix) + 1);
    pos := pos + 1;
    if ret < Mask(prefix) {
      return IntOk(ret, 1), pos;
    }
    assert bytes[pos0..][1..] == bytes[pos..];
    var read: nat, scale: nat := 1, 1;
    while pos < |bytes|
      invariant pos0 <= pos <= |bytes| && 1 <= read < MAX_BYTES && pos == pos0 + read
      invariant DecodeTail(bytes[pos..], read, ret, scale) == DecodeInt(bytes[pos0..], prefix)
    {
      var b := bytes[pos];
      assert bytes[pos..][1..] == bytes[pos + 1..];
      pos := pos + 1;
      read := read + 1;
      ret := ret + b % 128 * scale;
      scale := scale * 128;
      if b < 128 {
        return IntOk(ret, read), pos;
      }
      if read == MAX_BYTES {
        return IntOverflow, pos;
      }
    }
    r := IntNeedMore;
  }

  /** Section C.1 of RFC 7541. */
  lemma Examples()
    ensures EncodeInt(10, 5, 0) == [10]
    ensures EncodeInt(1337, 5, 0) == [31, 154, 10]
    ensures EncodeInt(42, 8, 0) == [42]
  {
    assert Varint(10) == [10];
    assert Varint(1306) == [154] + Varint(10);
  }
}
