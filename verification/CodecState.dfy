/** The codec as it runs: the splitter, the incomplete block and the decompressor, and the
    loop that returns one frame at a time (src/codec/mod.rs:202-402). */
module CodecState {
  import opened Prelude
  import opened HpackHeader
  import opened HpackFifo
  import opened HpackString
  import opened HpackWire
  import HpackSession
  import HpackDecoder
  import Huffman
  import opened HeaderBlock
  import opened Framing
  import opened Codec
  import opened Message

  datatype Next = Ready(out: Out) | NeedMore | Failed

  /** The next frame for the connection, and what is left after it. */
  datatype Progress = Progress(next: Next, partial: Option<Partial>, table: DynTable, rest: seq<Byte>)

  function DecodeNext(env: Env, lim: Limits, max: nat, partial: Option<Partial>, t: DynTable, s: seq<Byte>): (r: Progress)
    decreases |s|
  {
    if |s| < 3 then Progress(NeedMore, partial, t, s)
    else if LengthOf(s) > max then Progress(Failed, partial, t, s)
    else if |s| < LengthOf(s) + HEADER_LEN then Progress(NeedMore, partial, t, s)
    else
      var rest := s[LengthOf(s) + HEADER_LEN..];
      match Assemble(lim, partial, FirstFrame(s))
      case Fatal => Progress(Failed, partial, t, rest)
      case Go(p, None) => DecodeNext(env, lim, max, p, t, rest)
      case Go(p, Some(piece)) =>
        var (t', out) := LoadPiece(env, lim, t, piece);
        Progress(if out.None? then Failed else Ready(out.value), p, t', rest)
  }

  class CodecState {
    const env: Env
    const lim: Limits
    const decoder: FrameDecoder
    const hpack: HpackDecoder.Decoder
    var partial: Option<Partial>

    ghost predicate Valid()
      reads this, hpack, hpack.table
    {
      && hpack.Valid() && hpack.env == env && hpack.buffer == []
      && hpack.maxSizeUpdate.None? && hpack.lastMaxUpdate == HpackSession.TABLE_SIZE
    }

    /** The splitter is in step with the octets that are left. */
    ghost predicate InStep(src: seq<Byte>)
      reads this, decoder
    {
      decoder.Valid(src) && (decoder.pending.Some? ==> LengthOf(src) <= decoder.maxFrameLen)
    }

    constructor (env: Env, lim: Limits, max: nat, huffman: Huffman.Automaton)
      requires Huffman.Walks(env.code, huffman)
      ensures Valid() && InStep([]) && partial.None? && hpack.table.Contents() == DynTable([], HpackSession.TABLE_SIZE)
      ensures fresh(decoder) && fresh(hpack) && fresh(hpack.table) && decoder.maxFrameLen == max
    {
      this.env, this.lim := env, lim;
      decoder := new FrameDecoder(max);
      hpack := new HpackDecoder.Decoder(env, huffman, HpackSession.TABLE_SIZE);
      partial := None;
    }

    method Decode(src: seq<Byte>) returns (next: Next, rest: seq<Byte>)
      requires Valid() && InStep(src)
      modifies this`partial, decoder`pending, hpack, hpack.table
      ensures var d := DecodeNext(env, lim, decoder.maxFrameLen, old(partial), old(hpack.table.Contents()), src);
              && next == d.next
              && (next != Failed ==> Valid() && InStep(rest) && partial == d.partial && hpack.table.Contents() == d.table && rest == d.rest)
    {
      rest := src;
      while true
        invariant Valid() && InStep(rest)
        invariant DecodeNext(env, lim, decoder.maxFrameLen, partial, hpack.table.Contents(), rest)
                    == DecodeNext(env, lim, decoder.maxFrameLen, old(partial), old(hpack.table.Contents()), src)
        decreases |rest|
      {
        ghost var s := rest;
        var frame, error;
        frame, rest, error := decoder.Decode(rest);
        if error {
          return Failed, rest;
        }
        if frame.None? {
          return NeedMore, rest;
        }
        var bytes := frame.value;
        assert s[..|bytes|] == bytes && s[|bytes|..] == rest;
        var f := Frame(ParseHead(bytes), bytes[HEADER_LEN..]);
        assert f == FirstFrame(s);
        var step := OnFrame(f);
        if step.Fatal? {
          return Failed, rest;
        }
        if step.piece.Some? {
          next := Load(step.piece.value);
          return;
        }
      }
    }

    /** What the reader does with a chunk: it is appended to what is left, and frames are
        taken out until more octets are needed. */
    method OnChunk(left: seq<Byte>, chunk: seq<Byte>) returns (outs: seq<Out>, rest: seq<Byte>, ok: bool)
      requires Valid() && InStep(left)
      modifies this`partial, decoder`pending, hpack, hpack.table
      ensures var d := Drain(env, lim, decoder.maxFrameLen, old(partial), old(hpack.table.Contents()), left + chunk);
              && outs == d.outs && ok == d.ok
              && (ok ==> Valid() && InStep(rest) && partial == d.partial && hpack.table.Contents() == d.table && rest == d.rest)
    {
      outs, rest := [], left + chunk;
      StillInStep(left, chunk);
      ghost var whole := Drain(env, lim, decoder.maxFrameLen, partial, hpack.table.Contents(), rest);
      DrainStarts(env, lim, decoder.maxFrameLen, partial, hpack.table.Contents(), rest);
      while true
        invariant Valid() && InStep(rest)
        invariant Draining(env, lim, decoder.maxFrameLen, whole, outs, partial, hpack.table.Contents(), rest)
        decreases |rest|
      {
        DrainGoesOn(env, lim, decoder.maxFrameLen, whole, outs, partial, hpack.table.Contents(), rest);
        var next;
        next, rest := Decode(rest);
        match next {
          case Failed =>
            return outs, rest, false;
          case NeedMore =>
            return outs, rest, true;
          case Ready(out) =>
            outs := outs + [out];
        }
      }
    }

    lemma StillInStep(left: seq<Byte>, chunk: seq<Byte>)
      requires InStep(left)
      ensures InStep(left + chunk)
    {
      if |left| >= 3 {
        LengthOfPrefix(left, chunk);
      }
    }

    /** The match on the kind of a frame: the incomplete block is taken out and put back. */
    method OnFrame(f: Frame) returns (step: Codec.Step)
      modifies this`partial
      ensures step == Assemble(lim, old(partial), f)
      ensures step.Go? ==> partial == step.partial
    {
      var kind := f.head.kind;
      if kind == PUSH_PROMISE {
        return Codec.Step.Fatal;
      }
      if partial.Some? && kind != CONTINUATION {
        return Codec.Step.Fatal;
      }
      if kind == HEADERS {
        var fragment := LoadHead(f.head, f.payload);
        if fragment.BadFragment? {
          return Codec.Step.Fatal;
        }
        if EndHeaders(f.head.flag) {
          return Go(None, Some(Block(f.head.id, EndStream(f.head.flag), fragment.selfDependent, fragment.block)));
        }
        partial := Some(Partial(f.head.id, f.head.flag, fragment.block, 0, fragment.selfDependent));
        return Go(partial, None);
      }
      if kind == CONTINUATION {
        if partial.None? {
          return Codec.Step.Fatal;
        }
        var p := partial.value;
        partial := None;
        if p.id != f.head.id {
          return Codec.Step.Fatal;
        }
        if lim.maxContinuations > 0 {
          p := p.(count := p.count + 1);
          if p.count > lim.maxContinuations {
            return Codec.Step.Fatal;
          }
        }
        if |p.buf| + |f.payload| > lim.maxList {
          return Codec.Step.Fatal;
        }
        p := p.(buf := p.buf + f.payload);
        if EndHeaders(f.head.flag) {
          return Go(None, Some(Block(p.id, EndStream(p.flag), p.selfDependent, p.buf)));
        }
        partial := Some(p);
        return Go(partial, None);
      }
      step := Go(None, if KnownKind(kind) then Some(Other(f)) else None);
    }

    method Load(piece: Piece) returns (next: Next)
      requires Valid()
      modifies hpack, hpack.table
      ensures var (t, out) := LoadPiece(env, lim, old(hpack.table.Contents()), piece);
              && next == (if out.None? then Failed else Ready(out.value))
              && (out.Some? ==> Valid() && hpack.table.Contents() == t)
    {
      match piece {
        case Other(f) =>
          next := Ready(OtherFrame(f));
        case Block(id, eof, self, block) =>
          var cursor := new HpackDecoder.Cursor(block);
          var headers, error := hpack.Decode(cursor);
          if error.Some? {
            return Failed;
          }
          var loaded := LoadAll(headers, lim.maxHeaders, lim.maxList);
          next := Ready(if loaded.Accepted? && !self then HeadersFrame(id, eof, loaded.section) else InvalidHeaders(id));
      }
    }
  }

  // ----- one frame after the other is draining ---------------------------------------------------

  lemma {:induction false} DrainNext(env: Env, lim: Limits, max: nat, partial: Option<Partial>, t: DynTable, s: seq<Byte>)
    ensures var d := DecodeNext(env, lim, max, partial, t, s);
            Drain(env, lim, max, partial, t, s) ==
              match d.next
              case Failed => Stopped(d.table)
              case NeedMore => Drained([], d.partial, d.table, d.rest, true)
              case Ready(out) => Before([out], Drain(env, lim, max, d.partial, d.table, d.rest))
    ensures var d := DecodeNext(env, lim, max, partial, t, s); d.next.Ready? ==> |d.rest| < |s|
    decreases |s|
  {
    if HasFrame(max, s) {
      var step := Assemble(lim, partial, FirstFrame(s));
      if step.Go? && step.piece.None? {
        DrainNext(env, lim, max, step.partial, t, Tail(s));
      }
    }
  }

  /** Draining the whole comes to the frames so far, then to draining what is left. */
  ghost predicate Draining(env: Env, lim: Limits, max: nat, whole: Drained, outs: seq<Out>, partial: Option<Partial>, t: DynTable, s: seq<Byte>) {
    match outs
    case outs => whole == Before(outs, Drain(env, lim, max, partial, t, s))
  }

  lemma DrainStarts(env: Env, lim: Limits, max: nat, partial: Option<Partial>, t: DynTable, s: seq<Byte>)
    ensures Draining(env, lim, max, Drain(env, lim, max, partial, t, s), [], partial, t, s)
  {
    var d := Drain(env, lim, max, partial, t, s);
    assert [] + d.outs == d.outs;
  }

  lemma DrainGoesOn(env: Env, lim: Limits, max: nat, whole: Drained, outs: seq<Out>, partial: Option<Partial>, t: DynTable, s: seq<Byte>)
    requires Draining(env, lim, max, whole, outs, partial, t, s)
    ensures var d := DecodeNext(env, lim, max, partial, t, s);
            match d.next
            case Failed => whole == Drained(outs, None, d.table, [], false)
            case NeedMore => whole == Drained(outs, d.partial, d.table, d.rest, true)
            case Ready(out) => |d.rest| < |s| && Draining(env, lim, max, whole, outs + [out], d.partial, d.table, d.rest)
  {
    DrainNext(env, lim, max, partial, t, s);
    var d := DecodeNext(env, lim, max, partial, t, s);
    assert outs + [] == outs;
    if d.next.Ready? {
      BeforeTwice(outs, [d.next.out], Drain(env, lim, max, d.partial, d.table, d.rest));
    }
  }
}
