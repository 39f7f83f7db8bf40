/** Frames on the wire (section 4.1 of RFC 9113) and the incremental splitter of
    src/codec/frame_decoder.rs. */
module Framing {
  import opened Prelude

  const HEADER_LEN: nat := 9
  const MAX_MAX_FRAME_SIZE: nat := 0xFF_FFFF

  datatype Head = Head(kind: Byte, flag: Byte, id: nat)

  // ----- heads -----------------------------------------------------------------------------

  /** n octets, most significant first. */
  function BigEndian(v: nat, n: nat): (s: seq<Byte>)
    ensures |s| == n
  {
    if n == 0 then [] else BigEndian(v / 256, n - 1) + [v % 256]
  }

  function FromBigEndian(s: seq<Byte>): (v: nat) {
    if |s| == 0 then 0 else 256 * FromBigEndian(s[..|s| - 1]) + s[|s| - 1]
  }

  function Pow256(n: nat): (p: nat) {
    if n == 0 then 1 else 256 * Pow256(n - 1)
  }

  lemma {:induction false} BigEndianReads(v: nat, n: nat)
    requires v < Pow256(n)
    ensures FromBigEndian(BigEndian(v, n)) == v
  {
    if n > 0 {
      BigEndianReads(v / 256, n - 1);
      assert BigEndian(v, n)[..n - 1] == BigEndian(v / 256, n - 1);
    }
  }

  /** src/frame/head.rs:78-83 */
  function EncodeHead(len: nat, h: Head): (s: seq<Byte>)
    ensures |s| == HEADER_LEN
  {
    BigEndian(len, 3) + [h.kind] + [h.flag] + BigEndian(h.id, 4)
  }

  function LengthOf(s: seq<Byte>): (n: nat)
    requires |s| >= 3
  {
    FromBigEndian(s[..3])
  }

  /** src/frame/head.rs:52-60; the reserved bit of the id is dropped. */
  function ParseHead(s: seq<Byte>): (h: Head)
    requires |s| >= HEADER_LEN
  {
    Head(s[3], s[4], FromBigEndian(s[5..9]) % 0x8000_0000)
  }

  function FrameBytes(h: Head, payload: seq<Byte>): (s: seq<Byte>)
    ensures |s| == HEADER_LEN + |payload|
  {
    EncodeHead(|payload|, h) + payload
  }

  lemma HeadRoundTrip(h: Head, payload: seq<Byte>, rest: seq<Byte>)
    requires |payload| <= MAX_MAX_FRAME_SIZE && h.id < 0x8000_0000
    ensures var s := FrameBytes(h, payload);
            LengthOf(s + rest) == |payload| && ParseHead(s) == h && s[HEADER_LEN..] == payload
  {
    var len, id := BigEndian(|payload|, 3), BigEndian(h.id, 4);
    var s := FrameBytes(h, payload);
    assert Pow256(3) == 0x100_0000 && Pow256(4) == 256 * Pow256(3);
    BigEndianReads(|payload|, 3);
    BigEndianReads(h.id, 4);
    assert (s + rest)[..3] == len;
    assert s[5..9] == id;
  }

  /** Four octets as a number, the first one most significant. */
  function Quad(a: int, b: int, c: int, d: int): (n: int) {
    a * 0x100_0000 + b * 0x1_0000 + c * 0x100 + d
  }

  lemma BigEndianFour(s: seq<Byte>)
    requires |s| == 4
    ensures FromBigEndian(s[..3]) == Quad(0, s[0], s[1], s[2])
    ensures FromBigEndian(s) == Quad(s[0], s[1], s[2], s[3])
  {
    assert s[..3][..2] == s[..2] && s[..2][..1] == s[..1] && s[..1][..0] == [];
    assert FromBigEndian(s[..1]) == s[0];
    assert FromBigEndian(s[..2]) == Quad(0, 0, s[0], s[1]);
  }

  /** Section 4.1 of RFC 9113: 24 bits of length, type, flags, a reserved bit that is sent as
      zero, and 31 bits of stream id, most significant octet first. */
  lemma HeadLayout(h: Head, len: nat)
    requires len <= MAX_MAX_FRAME_SIZE && h.id < 0x8000_0000
    ensures var s := EncodeHead(len, h);
            && Quad(0, s[0], s[1], s[2]) == len
            && s[3] == h.kind && s[4] == h.flag
            && Quad(s[5], s[6], s[7], s[8]) == h.id && s[5] < 128
  {
    var s := EncodeHead(len, h);
    assert Pow256(3) == 0x100_0000 && Pow256(4) == 256 * Pow256(3);
    BigEndianReads(len, 3);
    BigEndianReads(h.id, 4);
    assert s[..3] == BigEndian(len, 3) && s[5..9] == BigEndian(h.id, 4);
    BigEndianFour(s[..3] + [0]);
    assert (s[..3] + [0])[..3] == s[..3];
    BigEndianFour(s[5..9]);
  }

  // ----- splitting ---------------------------------------------------------------------------

  /** The complete frames at the start of s, what is left, and whether a frame in it is
      too large. */
  datatype Split = Split(frames: seq<seq<Byte>>, rest: seq<Byte>, tooLarge: bool)

  function SplitAll(max: nat, s: seq<Byte>): (r: Split)
    decreases |s|
  {
    if |s| < 3 then Split([], s, false)
    else if LengthOf(s) > max then Split([], s, true)
    else
      var len := LengthOf(s) + HEADER_LEN;
      if |s| < len then Split([], s, false)
      else
        var more := SplitAll(max, s[len..]);
        more.(frames := [s[..len]] + more.frames)
  }

  lemma LengthOfPrefix(a: seq<Byte>, b: seq<Byte>)
    requires |a| >= 3
    ensures LengthOf(a + b) == LengthOf(a)
  {
    assert (a + b)[..3] == a[..3];
  }

  /** More octets only add to what was there. */
  lemma {:induction false} SplitMore(max: nat, a: seq<Byte>, b: seq<Byte>)
    ensures var first := SplitAll(max, a);
            if first.tooLarge then
              SplitAll(max, a + b) == first.(rest := first.rest + b)
            else
              var more := SplitAll(max, first.rest + b);
              SplitAll(max, a + b) == more.(frames := first.frames + more.frames)
    decreases |a|
  {
    if |a| >= 3 && LengthOf(a) <= max && |a| >= LengthOf(a) + HEADER_LEN {
      var len := LengthOf(a) + HEADER_LEN;
      LengthOfPrefix(a, b);
      SplitMore(max, a[len..], b);
      assert (a + b)[len..] == a[len..] + b && (a + b)[..len] == a[..len];
      var first := SplitAll(max, a[len..]);
      var more := SplitAll(max, first.rest + b);
      assert [a[..len]] + (first.frames + more.frames) == [a[..len]] + first.frames + more.frames;
    } else {
      if |a| >= 3 { LengthOfPrefix(a, b); }
      var more := SplitAll(max, a + b);
      assert [] + more.frames == more.frames;
    }
  }

  /** The splitter's cells: the limit and the length of the frame in progress. */
  class FrameDecoder {
    var maxFrameLen: nat
    var pending: Option<nat>

    /** pending is what the octets in the buffer announce, and was within the limit. */
    ghost predicate Valid(src: seq<Byte>)
      reads this
    {
      pending.Some? ==> |src| >= 3 && pending.value == LengthOf(src) + HEADER_LEN
    }

    constructor (max: nat)
      ensures pending.None? && maxFrameLen == max
    {
      maxFrameLen, pending := max, None;
    }

    /** src/codec/frame_decoder.rs:36-59; error is MaxFrameSize, None asks for more. */
    method Decode(src: seq<Byte>) returns (frame: Option<seq<Byte>>, rest: seq<Byte>, error: bool)
      requires Valid(src)
      modifies this`pending
      ensures Valid(rest)
      ensures error <==> old(pending).None? && |src| >= 3 && LengthOf(src) > maxFrameLen
      ensures frame.Some? <==> !error && |src| >= 3 && |src| >= LengthOf(src) + HEADER_LEN
      ensures frame.Some? ==> pending.None? && src == frame.value + rest && |frame.value| == LengthOf(src) + HEADER_LEN
      ensures frame.None? ==> rest == src
      ensures frame.None? && !error && |src| >= 3 ==> pending.Some?
      ensures error ==> pending.None?
    {
      rest, error := src, false;
      if pending.None? {
        if |src| < 3 {
          return None, src, false;
        }
        var payloadLen := LengthOf(src);
        if payloadLen > maxFrameLen {
          return None, src, true;
        }
        pending := Some(payloadLen + HEADER_LEN);
      }
      var len := pending.value;
      if |src| < len {
        frame := None;
      } else {
        pending := None;
        frame, rest := Some(src[..len]), src[len..];
        assert rest == src[len..];
      }
    }

    /** All the frames a buffer holds. */
    method DecodeAll(src: seq<Byte>) returns (frames: seq<seq<Byte>>, rest: seq<Byte>, error: bool)
      requires Valid(src) && (pending.Some? ==> LengthOf(src) <= maxFrameLen)
      modifies this`pending
      ensures Valid(rest) && (pending.Some? ==> LengthOf(rest) <= maxFrameLen)
      ensures Split(frames, rest, error) == SplitAll(maxFrameLen, src)
    {
      frames, rest, error := [], src, false;
      while true
        invariant Valid(rest) && (pending.Some? ==> LengthOf(rest) <= maxFrameLen)
        invariant var more := SplitAll(maxFrameLen, rest);
                  SplitAll(maxFrameLen, src) == more.(frames := frames + more.frames)
        decreases |rest|
      {
        ghost var s := rest;
        var frame;
        frame, rest, error := Decode(rest);
        if frame.None? {
          assert frames + [] == frames;
          return;
        }
        assert s[..|frame.value|] == frame.value && s[|frame.value|..] == rest;
        ghost var more := SplitAll(maxFrameLen, rest);
        assert frames + ([frame.value] + more.frames) == frames + [frame.value] + more.frames;
        frames := frames + [frame.value];
      }
    }
  }

  // ----- chunks --------------------------------------------------------------------------------

  function Concat(chunks: seq<seq<Byte>>): (s: seq<Byte>) {
    if |chunks| == 0 then [] else chunks[0] + Concat(chunks[1..])
  }

  /** The reader appends each chunk to what is left and splits; it stops at an error. */
  function SplitChunks(max: nat, rest: seq<Byte>, chunks: seq<seq<Byte>>): (r: Split)
    decreases |chunks|
  {
    if |chunks| == 0 then Split([], rest, false)
    else
      var first := SplitAll(max, rest + chunks[0]);
      if first.tooLarge then first.(rest := first.rest + Concat(chunks[1..]))
      else
        var more := SplitChunks(max, first.rest, chunks[1..]);
        more.(frames := first.frames + more.frames)
  }

  lemma {:induction false} RestIsSplit(max: nat, s: seq<Byte>)
    requires !SplitAll(max, s).tooLarge
    ensures SplitAll(max, SplitAll(max, s).rest) == Split([], SplitAll(max, s).rest, false)
    decreases |s|
  {
    if |s| >= 3 && |s| >= LengthOf(s) + HEADER_LEN {
      RestIsSplit(max, s[LengthOf(s) + HEADER_LEN..]);
    }
  }

  /** However the octets are cut into chunks, the same frames come out, in the same order,
      up to the same error. */
  lemma {:induction false} ChunksDoNotMatter(max: nat, rest: seq<Byte>, chunks: seq<seq<Byte>>)
    requires SplitAll(max, rest) == Split([], rest, false)
    ensures SplitChunks(max, rest, chunks) == SplitAll(max, rest + Concat(chunks))
    decreases |chunks|
  {
    if |chunks| == 0 {
      assert rest + [] == rest;
    } else {
      var first := SplitAll(max, rest + chunks[0]);
      SplitMore(max, rest + chunks[0], Concat(chunks[1..]));
      assert rest + (chunks[0] + Concat(chunks[1..])) == rest + chunks[0] + Concat(chunks[1..]);
      if !first.tooLarge {
        RestIsSplit(max, rest + chunks[0]);
        ChunksDoNotMatter(max, first.rest, chunks[1..]);
      }
    }
  }
}
