/** Header blocks in HEADERS and CONTINUATION frames (section 6.10 of RFC 9113): how they are
    cut, put together again, decoded, and checked (src/codec/mod.rs:202-402,
    src/frame/headers.rs:151-202 and 598-641). */
module Codec {
  import opened Prelude
  import opened Framing

  // ----- cutting a block -------------------------------------------------------------------

  const HEADERS: Byte := 1
  const PUSH_PROMISE: Byte := 5
  const CONTINUATION: Byte := 9

  const END_HEADERS: Byte := 0x4

  predicate EndStream(flag: Byte) { flag % 2 == 1 }
  predicate EndHeaders(flag: Byte) { flag / 4 % 2 == 1 }
  predicate Padded(flag: Byte) { flag / 8 % 2 == 1 }
  predicate Priority(flag: Byte) { flag / 32 % 2 == 1 }

  /** A frame taken apart. */
  datatype Frame = Frame(head: Head, payload: seq<Byte>)

  function HeadersFlag(eof: bool, last: bool): (f: Byte) {
    (if eof then 1 else 0) + if last then 4 else 0
  }

  /** What is left of a block, as CONTINUATION frames. */
  function Continuations(block: seq<Byte>, id: nat, max: nat): (fs: seq<Frame>)
    requires max > 0
    decreases |block|
  {
    if |block| > max then
      [Frame(Head(CONTINUATION, 0, id), block[..max])] + Continuations(block[max..], id, max)
    else [Frame(Head(CONTINUATION, END_HEADERS, id), block)]
  }

  function CutBlock(block: seq<Byte>, id: nat, eof: bool, max: nat): (fs: seq<Frame>)
    requires max > 0
  {
    if |block| > max then
      [Frame(Head(HEADERS, HeadersFlag(eof, false), id), block[..max])] + Continuations(block[max..], id, max)
    else [Frame(Head(HEADERS, HeadersFlag(eof, true), id), block)]
  }

  function Write(fs: seq<Frame>): (s: seq<Byte>) {
    if |fs| == 0 then [] else FrameBytes(fs[0].head, fs[0].payload) + Write(fs[1..])
  }

  /** src/frame/headers.rs:618-634: the loop, with the head of the next frame as a variable;
      the flag is cleared by exclusive or, as it is set. */
  method EncodeBlock(block: seq<Byte>, id: nat, eof: bool, maxSize: nat, dst0: seq<Byte>) returns (dst: seq<Byte>)
    requires maxSize > 0
    ensures dst == dst0 + Write(CutBlock(block, id, eof, maxSize))
  {
    dst := dst0;
    var head := Head(HEADERS, HeadersFlag(eof, true), id);
    var start := 0;
    assert block[0..] == block;
    while true
      invariant 0 <= start <= |block| && EndHeaders(head.flag)
      invariant Writing(dst0 + Write(CutBlock(block, id, eof, maxSize)), dst, block[start..], head, maxSize)
      decreases |block| - start
    {
      var end: nat := if start + maxSize < |block| then start + maxSize else |block|;
      assert block[start..][..end - start] == block[start..end] && block[start..][end - start..] == block[end..];
      WritesOn(dst0 + Write(CutBlock(block, id, eof, maxSize)), dst, block[start..], head, maxSize);
      if |block| > end {
        dst := dst + FrameBytes(Head(head.kind, head.flag - END_HEADERS, head.id), block[start..end]);
        head := Head(CONTINUATION, END_HEADERS, head.id);
        start := end;
      } else {
        dst := dst + FrameBytes(head, block[start..end]);
        return;
      }
    }
  }

  /** What is written, followed by the frames still to come, is the whole. */
  ghost predicate Writing(whole: seq<Byte>, dst: seq<Byte>, left: seq<Byte>, head: Head, max: nat)
    requires max > 0 && EndHeaders(head.flag)
  {
    match left
    case left => whole == dst + Write(Left(left, head, max))
  }

  lemma WritesOn(whole: seq<Byte>, dst: seq<Byte>, left: seq<Byte>, head: Head, max: nat)
    requires max > 0 && EndHeaders(head.flag) && Writing(whole, dst, left, head, max)
    ensures |left| <= max ==> whole == dst + FrameBytes(head, left)
    ensures |left| > max ==>
              Writing(whole, dst + FrameBytes(Head(head.kind, head.flag - END_HEADERS, head.id), left[..max]), left[max..],
                      Head(CONTINUATION, END_HEADERS, head.id), max)
  {
    if |left| > max {
      var f := Frame(Head(head.kind, head.flag - END_HEADERS, head.id), left[..max]);
      WrittenFirst(dst, f, Left(left[max..], Head(CONTINUATION, END_HEADERS, head.id), max));
    } else {
      WrittenFirst(dst, Frame(head, left), []);
      assert Left(left, head, max) == [Frame(head, left)] && [Frame(head, left)] + [] == [Frame(head, left)];
      assert dst + FrameBytes(head, left) + [] == dst + FrameBytes(head, left);
    }
  }

  /** The frames still to come, the next one with the given head. */
  function Left(block: seq<Byte>, head: Head, max: nat): (fs: seq<Frame>)
    requires max > 0 && EndHeaders(head.flag)
  {
    if |block| > max then
      [Frame(Head(head.kind, head.flag - END_HEADERS, head.id), block[..max])] + Continuations(block[max..], head.id, max)
    else [Frame(head, block)]
  }

  lemma WrittenFirst(dst: seq<Byte>, f: Frame, fs: seq<Frame>)
    ensures dst + FrameBytes(f.head, f.payload) + Write(fs) == dst + Write([f] + fs)
  {
    assert ([f] + fs)[1..] == fs;
  }

  // ----- putting it together again -----------------------------------------------------------

  datatype Limits = Limits(maxHeaders: nat, maxList: nat, maxContinuations: nat)

  /** A block whose end has not come yet. */
  datatype Partial = Partial(id: nat, flag: Byte, buf: seq<Byte>, count: nat, selfDependent: bool)

  /** A complete block, or a frame of another kind. */
  datatype Piece =
    | Block(id: nat, eof: bool, selfDependent: bool, block: seq<Byte>)
    | Other(frame: Frame)

  datatype Step = Go(partial: Option<Partial>, piece: Option<Piece>) | Fatal

  datatype Fragment = Fragment(block: seq<Byte>, selfDependent: bool) | BadFragment

  /** src/frame/headers.rs:151-202: padding and priority are taken off. */
  function LoadHead(head: Head, src: seq<Byte>): (r: Fragment) {
    if head.id == 0 then BadFragment
    else if Padded(head.flag) && |src| == 0 then BadFragment
    else
      var pad: nat := if Padded(head.flag) then src[0] else 0;
      var body := if Padded(head.flag) then src[1..] else src;
      if Priority(head.flag) && |body| < 5 then BadFragment
      else
        var self := Priority(head.flag) && FromBigEndian(body[..4]) % 0x8000_0000 == head.id;
        var rest := if Priority(head.flag) then body[5..] else body;
        if pad > |rest| then BadFragment else Fragment(rest[..|rest| - pad], self)
  }

  /** The payload of a HEADERS frame (section 6.2 of RFC 9113): the length of the padding if
      there is any, priority, a fragment of the block, and the padding. */
  function HeadPayload(flag: Byte, pad: seq<Byte>, priority: seq<Byte>, block: seq<Byte>): (s: seq<Byte>)
    requires |pad| < 256
  {
    (if Padded(flag) then [|pad|] else []) + (if Priority(flag) then priority else []) + block + (if Padded(flag) then pad else [])
  }

  /** The stream that a priority names, in 31 bits. */
  function Dependency(priority: seq<Byte>): (id: int)
    requires |priority| == 5
  {
    Quad(priority[0] % 128, priority[1], priority[2], priority[3])
  }

  lemma BodyIsLoaded(priority: seq<Byte>, rest: seq<Byte>)
    requires |priority| == 5
    ensures var body := priority + rest;
            body[5..] == rest && FromBigEndian(body[..4]) % 0x8000_0000 == Dependency(priority)
  {
    assert (priority + rest)[..4] == priority[..4];
    BigEndianFour(priority[..4]);
    WithoutTopBit(priority[0], priority[1], priority[2], priority[3]);
  }

  lemma WithoutTopBit(a: int, b: int, c: int, d: int)
    requires 0 <= a < 256 && 0 <= b < 256 && 0 <= c < 256 && 0 <= d < 256
    ensures Quad(a, b, c, d) % 0x8000_0000 == Quad(a % 128, b, c, d)
  {
    var n := Quad(a % 128, b, c, d);
    assert 0 <= n < 0x8000_0000;
    if a < 128 {
      assert a % 128 == a;
    } else {
      assert a % 128 == a - 128;
      assert Quad(a, b, c, d) == 0x8000_0000 + n;
    }
  }

  /** Padding and priority, present or not, leave the fragment as it was. */
  lemma HeadIsLoaded(head: Head, pad: seq<Byte>, priority: seq<Byte>, block: seq<Byte>)
    requires head.id > 0 && |pad| < 256 && |priority| == 5
    ensures LoadHead(head, HeadPayload(head.flag, pad, priority, block))
              == Fragment(block, Priority(head.flag) && Dependency(priority) == head.id)
  {
    var src := HeadPayload(head.flag, pad, priority, block);
    var rest := block + if Padded(head.flag) then pad else [];
    var body := (if Priority(head.flag) then priority else []) + rest;
    assert (if Padded(head.flag) then src[1..] else src) == body;
    assert rest[..|block|] == block;
    if Priority(head.flag) {
      BodyIsLoaded(priority, rest);
    }
  }

  /** A HEADERS frame is malformed on stream 0, without the octets its flags announce, or with
      more padding than there is room for; and only then. */
  lemma HeadIsRefused(head: Head, src: seq<Byte>)
    ensures LoadHead(head, src).BadFragment? <==>
              || head.id == 0
              || |src| < (if Padded(head.flag) then 1 else 0) + (if Priority(head.flag) then 5 else 0)
              || (Padded(head.flag) && src[0] > |src| - 1 - if Priority(head.flag) then 5 else 0)
  {
  }

  /** A DATA frame taken apart: what it costs in flow control, and what it delivers. */
  datatype Loaded = Loaded(flow: nat, data: seq<Byte>, eof: bool) | BadData

  /** src/frame/data.rs:118-137 and src/frame/util.rs:19-40 */
  function LoadData(head: Head, src: seq<Byte>): (r: Loaded)
    ensures r.Loaded? ==> |r.data| <= r.flow
  {
    if head.id == 0 then BadData
    else if !Padded(head.flag) then Loaded(|src|, src, EndStream(head.flag))
    else if |src| == 0 || src[0] >= |src| then BadData
    else Loaded(|src|, src[1..|src| - src[0]], EndStream(head.flag))
  }

  function DataPayload(flag: Byte, pad: seq<Byte>, data: seq<Byte>): (s: seq<Byte>)
    requires |pad| < 256
  {
    if Padded(flag) then [|pad|] + (data + pad) else data
  }

  /** Section 6.1 of RFC 9113: padding and its length octet count for flow control and are not
      delivered; the rest is, as it was. */
  lemma DataIsLoaded(head: Head, pad: seq<Byte>, data: seq<Byte>)
    requires head.id > 0 && |pad| < 256
    ensures LoadData(head, DataPayload(head.flag, pad, data)) ==
              Loaded(|data| + if Padded(head.flag) then 1 + |pad| else 0, data, EndStream(head.flag))
  {
    assert ([|pad|] + (data + pad))[1..1 + |data|] == data;
  }

  /** It is malformed exactly on stream 0, without its length octet, or with padding that
      leaves no room for that. */
  lemma DataIsRefused(head: Head, src: seq<Byte>)
    ensures LoadData(head, src).BadData? <==>
              head.id == 0 || (Padded(head.flag) && (|src| == 0 || src[0] > |src| - 1))
  {
  }

  function KnownKind(kind: Byte): (b: bool) {
    kind <= 4 || 6 <= kind <= 9
  }

  /** src/codec/mod.rs:207-399, but for the decoding of complete blocks and of the frames of
      other kinds. */
  function Assemble(lim: Limits, partial: Option<Partial>, f: Frame): (r: Step) {
    if f.head.kind == PUSH_PROMISE then Fatal
    else if partial.Some? && f.head.kind != CONTINUATION then Fatal
    else if f.head.kind == HEADERS then
      match LoadHead(f.head, f.payload)
      case BadFragment => Fatal
      case Fragment(block, self) =>
        if EndHeaders(f.head.flag) then Go(None, Some(Block(f.head.id, EndStream(f.head.flag), self, block)))
        else Go(Some(Partial(f.head.id, f.head.flag, block, 0, self)), None)
    else if f.head.kind == CONTINUATION then
      match partial
      case None => Fatal
      case Some(p) =>
        var count := if lim.maxContinuations > 0 then p.count + 1 else p.count;
        if p.id != f.head.id then Fatal
        else if lim.maxContinuations > 0 && count > lim.maxContinuations then Fatal
        else if |p.buf| + |f.payload| > lim.maxList then Fatal
        else
          var buf := p.buf + f.payload;
          if EndHeaders(f.head.flag) then Go(None, Some(Block(p.id, EndStream(p.flag), p.selfDependent, buf)))
          else Go(Some(p.(buf := buf, count := count)), None)
    else if KnownKind(f.head.kind) then Go(None, Some(Other(f)))
    else Go(None, None)
  }

  /** Pieces of a run of frames; done is false if it stopped at an error. */
  datatype Assembled = Assembled(pieces: seq<Piece>, partial: Option<Partial>, done: bool)

  function AssembleAll(lim: Limits, partial: Option<Partial>, fs: seq<Frame>): (r: Assembled)
    decreases |fs|
  {
    if |fs| == 0 then Assembled([], partial, true)
    else
      match Assemble(lim, partial, fs[0])
      case Fatal => Assembled([], partial, false)
      case Go(p, piece) =>
        var more := AssembleAll(lim, p, fs[1..]);
        more.(pieces := (if piece.Some? then [piece.value] else []) + more.pieces)
  }

  // ----- fragments ---------------------------------------------------------------------------

  function PayloadOf(fs: seq<Frame>): (s: seq<Byte>) {
    if |fs| == 0 then [] else fs[0].payload + PayloadOf(fs[1..])
  }

  /** Continuations are at most max long, of one stream, only the last ends the block, and
      together they are the block. */
  lemma {:induction false} ContinuationsFit(block: seq<Byte>, id: nat, max: nat)
    requires max > 0
    ensures var fs := Continuations(block, id, max);
            && PayloadOf(fs) == block && |fs| >= 1
            && forall i :: 0 <= i < |fs| ==>
                 |fs[i].payload| <= max && fs[i].head.kind == CONTINUATION && fs[i].head.id == id
                 && (EndHeaders(fs[i].head.flag) <==> i == |fs| - 1) && !EndStream(fs[i].head.flag)
    decreases |block|
  {
    if |block| > max {
      ContinuationsFit(block[max..], id, max);
      var fs := Continuations(block, id, max);
      assert fs[1..] == Continuations(block[max..], id, max);
      assert block == block[..max] + block[max..];
    } else {
      assert [Frame(Head(CONTINUATION, END_HEADERS, id), block)][1..] == [];
      assert block + [] == block;
    }
  }

  /** The frames of a block: fragments within the limit, the first one HEADERS with
      END_STREAM as asked for, END_HEADERS on the last alone, and nothing lost. */
  lemma CutFits(block: seq<Byte>, id: nat, eof: bool, max: nat)
    requires max > 0
    ensures var fs := CutBlock(block, id, eof, max);
            && PayloadOf(fs) == block && |fs| >= 1
            && fs[0].head.kind == HEADERS && (EndStream(fs[0].head.flag) <==> eof)
            && (forall i :: 0 <= i < |fs| ==> |fs[i].payload| <= max && fs[i].head.id == id && (EndHeaders(fs[i].head.flag) <==> i == |fs| - 1))
            && (forall i :: 0 < i < |fs| ==> fs[i].head.kind == CONTINUATION)
  {
    var fs := CutBlock(block, id, eof, max);
    if |block| > max {
      ContinuationsFit(block[max..], id, max);
      assert fs[1..] == Continuations(block[max..], id, max);
      assert block == block[..max] + block[max..];
    } else {
      assert fs[1..] == [];
      assert block + [] == block;
    }
  }

  /** The receiver's limits let the rest of a block through. */
  predicate Admits(lim: Limits, count: nat, size: nat, frames: nat) {
    && (lim.maxContinuations > 0 ==> count + frames <= lim.maxContinuations)
    && size <= lim.maxList
  }

  /** Continuations are put together exactly if the limits admit them. */
  lemma {:induction false} ContinuationsAssemble(lim: Limits, p: Partial, block: seq<Byte>, max: nat)
    requires max > 0
    ensures var fs := Continuations(block, p.id, max);
            var r := AssembleAll(lim, Some(p), fs);
            if Admits(lim, p.count, |p.buf| + |block|, |fs|) then
              r == Assembled([Block(p.id, EndStream(p.flag), p.selfDependent, p.buf + block)], None, true)
            else !r.done && r.pieces == []
    decreases |block|
  {
    var fs := Continuations(block, p.id, max);
    if |block| > max {
      var rest := Continuations(block[max..], p.id, max);
      assert fs[1..] == rest;
      assert |rest| >= 1;
      var p' := p.(buf := p.buf + block[..max], count := if lim.maxContinuations > 0 then p.count + 1 else p.count);
      ContinuationsAssemble(lim, p', block[max..], max);
      assert p'.buf + block[max..] == p.buf + block;
    } else {
      assert fs[1..] == [];
    }
  }

  /** A block that is cut and sent comes together as it was, with its stream and END_STREAM,
      exactly if it is one frame or the receiver's limits admit it. */
  lemma BlockAssembles(lim: Limits, block: seq<Byte>, id: nat, eof: bool, max: nat)
    requires max > 0 && id > 0
    ensures var fs := CutBlock(block, id, eof, max);
            var r := AssembleAll(lim, None, fs);
            if |fs| == 1 || Admits(lim, 0, |block|, |fs| - 1) then r == Assembled([Block(id, eof, false, block)], None, true)
            else !r.done && r.pieces == []
  {
    var fs := CutBlock(block, id, eof, max);
    if |block| > max {
      var p := Partial(id, HeadersFlag(eof, false), block[..max], 0, false);
      assert fs[1..] == Continuations(block[max..], id, max);
      assert block[..max][..max] == block[..max];
      assert LoadHead(fs[0].head, fs[0].payload) == Fragment(block[..max], false);
      ContinuationsAssemble(lim, p, block[max..], max);
      ContinuationsFit(block[max..], id, max);
      assert block[..max] + block[max..] == block;
    } else {
      assert fs[1..] == [];
      assert LoadHead(fs[0].head, fs[0].payload) == Fragment(block, false);
    }
  }

  /** The same for a peer that pads its HEADERS frame and sends a priority with it: the block
      is that of the fragments. */
  lemma PaddedBlockAssembles(lim: Limits, head: Head, pad: seq<Byte>, priority: seq<Byte>, first: seq<Byte>, rest: seq<Byte>, max: nat)
    requires head.kind == HEADERS && head.id > 0 && |pad| < 256 && |priority| == 5 && max > 0
    requires EndHeaders(head.flag) ==> rest == []
    ensures var more := if EndHeaders(head.flag) then [] else Continuations(rest, head.id, max);
            var r := AssembleAll(lim, None, [Frame(head, HeadPayload(head.flag, pad, priority, first))] + more);
            var self := Priority(head.flag) && Dependency(priority) == head.id;
            if EndHeaders(head.flag) || Admits(lim, 0, |first| + |rest|, |more|)
            then r == Assembled([Block(head.id, EndStream(head.flag), self, first + rest)], None, true)
            else !r.done && r.pieces == []
  {
    var f := Frame(head, HeadPayload(head.flag, pad, priority, first));
    HeadIsLoaded(head, pad, priority, first);
    var more := if EndHeaders(head.flag) then [] else Continuations(rest, head.id, max);
    assert ([f] + more)[1..] == more;
    if EndHeaders(head.flag) {
      assert first + rest == first;
    } else {
      var self := Priority(head.flag) && Dependency(priority) == head.id;
      ContinuationsAssemble(lim, Partial(head.id, head.flag, first, 0, self), rest, max);
    }
  }

  // ----- runs of frames ----------------------------------------------------------------------

  /** A HEADERS frame that does not end its block. */
  predicate OpensBlock(f: Frame) {
    f.head.kind == HEADERS && !EndHeaders(f.head.flag)
  }

  /** Frames i+1 to j are CONTINUATION of the stream of frame i, and none before j ends the
      block. */
  predicate ContinuesFrom(fs: seq<Frame>, i: nat, j: nat) {
    && i < j < |fs|
    && (forall k :: i < k <= j ==> fs[k].head.kind == CONTINUATION && fs[k].head.id == fs[i].head.id)
    && (forall k :: i < k < j ==> !EndHeaders(fs[k].head.flag))
  }

  /** With a block incomplete, a run that is accepted goes on with it up to its end. */
  lemma {:induction false} PartialGoesOn(lim: Limits, p: Partial, fs: seq<Frame>, j: nat)
    requires AssembleAll(lim, Some(p), fs).done && j < |fs|
    requires forall k :: 0 <= k < j ==> !EndHeaders(fs[k].head.flag)
    ensures fs[j].head.kind == CONTINUATION && fs[j].head.id == p.id
    decreases |fs|
  {
    if j > 0 {
      var step := Assemble(lim, Some(p), fs[0]);
      assert !EndHeaders(fs[0].head.flag);
      PartialGoesOn(lim, step.partial.value, fs[1..], j - 1);
    }
  }

  /** A run that is accepted has no PUSH_PROMISE in it, in a block or not. */
  lemma {:induction false} NoPromises(lim: Limits, partial: Option<Partial>, fs: seq<Frame>, i: nat)
    requires AssembleAll(lim, partial, fs).done && i < |fs|
    ensures fs[i].head.kind != PUSH_PROMISE
    decreases |fs|
  {
    if i > 0 {
      NoPromises(lim, Assemble(lim, partial, fs[0]).partial, fs[1..], i - 1);
    }
  }

  /** Frames of no block: DATA, PRIORITY, RST_STREAM, SETTINGS, PING, GOAWAY, WINDOW_UPDATE. */
  function Others(fs: seq<Frame>): (ps: seq<Piece>) {
    if |fs| == 0 then [] else (if fs[0].head.kind in {0, 2, 3, 4, 6, 7, 8} then [Other(fs[0])] else []) + Others(fs[1..])
  }

  /** Between blocks frames of other kinds are handed on as they are, and those of unknown
      kinds are ignored (section 4.1 of RFC 9113). */
  lemma {:induction false} OthersPass(lim: Limits, fs: seq<Frame>)
    requires forall i :: 0 <= i < |fs| ==> fs[i].head.kind !in {HEADERS, PUSH_PROMISE, CONTINUATION}
    ensures AssembleAll(lim, None, fs) == Assembled(Others(fs), None, true)
    decreases |fs|
  {
    if |fs| > 0 {
      OthersPass(lim, fs[1..]);
    }
  }

  /** In a run that is accepted nothing comes between the frames of a block: behind a HEADERS
      frame that does not end its block, everything up to and including the frame that does
      is a CONTINUATION of its stream. */
  lemma {:induction false} NothingInBetween(lim: Limits, partial: Option<Partial>, fs: seq<Frame>, i: nat, j: nat)
    requires AssembleAll(lim, partial, fs).done && i < j < |fs| && OpensBlock(fs[i])
    requires forall k :: i < k < j ==> !EndHeaders(fs[k].head.flag)
    ensures fs[j].head.kind == CONTINUATION && fs[j].head.id == fs[i].head.id
    decreases i
  {
    var step := Assemble(lim, partial, fs[0]);
    if i == 0 {
      PartialGoesOn(lim, step.partial.value, fs[1..], j - 1);
    } else {
      NothingInBetween(lim, step.partial, fs[1..], i - 1, j - 1);
    }
  }

  /** partial is what fs[..n] leaves of the block that frame i has opened. */
  predicate LeavesOpen(fs: seq<Frame>, n: nat, partial: Option<Partial>, i: nat) {
    partial.Some? ==>
      && i < n <= |fs| && OpensBlock(fs[i]) && fs[i].head.id == partial.value.id
      && (forall k :: i < k < n ==> fs[k].head.kind == CONTINUATION && fs[k].head.id == fs[i].head.id && !EndHeaders(fs[k].head.flag))
  }

  lemma OneMoreFrame(lim: Limits, fs: seq<Frame>, n: nat, partial: Option<Partial>, i: nat) returns (i': nat)
    requires n < |fs| && LeavesOpen(fs, n, partial, i) && Assemble(lim, partial, fs[n]).Go?
    ensures LeavesOpen(fs, n + 1, Assemble(lim, partial, fs[n]).partial, i')
  {
    i' := if OpensBlock(fs[n]) then n else i;
  }

  lemma {:induction false} BlockStart(lim: Limits, fs: seq<Frame>, n: nat, partial: Option<Partial>, i: nat, j: nat) returns (i': nat)
    requires n <= j < |fs| && LeavesOpen(fs, n, partial, i) && AssembleAll(lim, partial, fs[n..]).done
    requires fs[j].head.kind == CONTINUATION
    ensures ContinuesFrom(fs, i', j) && OpensBlock(fs[i'])
    decreases j - n
  {
    assert fs[n..][0] == fs[n] && fs[n..][1..] == fs[n + 1..];
    if n == j {
      i' := i;
    } else {
      var i'' := OneMoreFrame(lim, fs, n, partial, i);
      i' := BlockStart(lim, fs, n + 1, Assemble(lim, partial, fs[n]).partial, i'', j);
    }
  }

  /** And a CONTINUATION is only accepted behind such a frame: it has a HEADERS frame of its
      stream before it that it continues. */
  lemma ContinuationBelongs(lim: Limits, fs: seq<Frame>, j: nat) returns (i: nat)
    requires AssembleAll(lim, None, fs).done && j < |fs| && fs[j].head.kind == CONTINUATION
    ensures ContinuesFrom(fs, i, j) && OpensBlock(fs[i])
  {
    assert fs[0..] == fs;
    i := BlockStart(lim, fs, 0, None, 0, j);
  }

  /** What is kept of an incomplete block: at most one fragment, or the limit. */
  predicate Bounded(lim: Limits, max: nat, partial: Option<Partial>) {
    partial.Some? ==> |partial.value.buf| <= if max <= lim.maxList then lim.maxList else max
  }

  /** After every run of frames of at most max octets, accepted or not, what is kept of an
      incomplete block is within the bound. */
  lemma {:induction false} PartialIsBounded(lim: Limits, partial: Option<Partial>, fs: seq<Frame>, max: nat)
    requires Bounded(lim, max, partial) && forall i :: 0 <= i < |fs| ==> |fs[i].payload| <= max
    ensures Bounded(lim, max, AssembleAll(lim, partial, fs).partial)
    decreases |fs|
  {
    if |fs| > 0 && Assemble(lim, partial, fs[0]).Go? {
      OneFrameBounded(lim, partial, fs[0], max);
      PartialIsBounded(lim, Assemble(lim, partial, fs[0]).partial, fs[1..], max);
    }
  }

  lemma OneFrameBounded(lim: Limits, partial: Option<Partial>, f: Frame, max: nat)
    requires Bounded(lim, max, partial) && |f.payload| <= max && Assemble(lim, partial, f).Go?
    ensures Bounded(lim, max, Assemble(lim, partial, f).partial)
  {
  }
}
