/** A header section on its way: compressed, cut into frames, written as octets, read in
    whatever chunks, put together, decompressed and checked. */
module Message {
  import opened Prelude
  import opened HpackHeader
  import opened HpackFifo
  import opened HuffmanCode
  import opened HpackString
  import opened HpackWire
  import HpackSession
  import opened HeaderBlock
  import opened Framing
  import opened Codec

  // ----- the receiver ----------------------------------------------------------------------

  /** What the codec hands to the connection. */
  datatype Out =
    | HeadersFrame(id: nat, eof: bool, section: Section)
    | InvalidHeaders(id: nat)
    | OtherFrame(frame: Frame)

  /** src/codec/mod.rs:39-61 and its callers: the table afterwards, and None if compression
      failed; a section that is refused has been decoded all the same. */
  function LoadPiece(env: Env, lim: Limits, t: DynTable, p: Piece): (r: (DynTable, Option<Out>)) {
    match p
    case Other(f) => (t, Some(OtherFrame(f)))
    case Block(id, eof, self, block) =>
      var d := DecodeBlock(env, t, HpackSession.TABLE_SIZE, true, block);
      (d.table, if d.error.Some? then None else Some(Judge(lim, id, eof, self, d.headers)))
  }

  function Judge(lim: Limits, id: nat, eof: bool, self: bool, headers: seq<Header>): (r: Out) {
    match Verdict(LoadFrom(Start(), headers, lim.maxHeaders, lim.maxList))
    case Accepted(section) => if self then InvalidHeaders(id) else HeadersFrame(id, eof, section)
    case _ => InvalidHeaders(id)
  }

  function LoadPieces(env: Env, lim: Limits, t: DynTable, ps: seq<Piece>): (r: (DynTable, seq<Out>, bool))
    decreases |ps|
  {
    if |ps| == 0 then (t, [], true)
    else
      var (t', out) := LoadPiece(env, lim, t, ps[0]);
      if out.None? then (t', [], false)
      else
        var more := LoadPieces(env, lim, t', ps[1..]);
        (more.0, [out.value] + more.1, more.2)
  }

  predicate HasFrame(max: nat, s: seq<Byte>) {
    |s| >= 3 && LengthOf(s) <= max && |s| >= LengthOf(s) + HEADER_LEN
  }

  function FirstFrame(s: seq<Byte>): (f: Frame)
    requires |s| >= 3 && |s| >= LengthOf(s) + HEADER_LEN
  {
    var len := LengthOf(s) + HEADER_LEN;
    Frame(ParseHead(s[..len]), s[..len][HEADER_LEN..])
  }

  function Tail(s: seq<Byte>): (r: seq<Byte>)
    requires |s| >= 3 && |s| >= LengthOf(s) + HEADER_LEN
    ensures |r| < |s|
  {
    s[LengthOf(s) + HEADER_LEN..]
  }

  /** What comes of a buffer: frames for the connection, the incomplete block, the table,
      the octets left; after an error only what came before it counts. */
  datatype Drained = Drained(outs: seq<Out>, partial: Option<Partial>, table: DynTable, rest: seq<Byte>, ok: bool)

  function Stopped(t: DynTable): (d: Drained) {
    Drained([], None, t, [], false)
  }

  function Before(outs: seq<Out>, d: Drained): (r: Drained) {
    d.(outs := outs + d.outs)
  }

  /** What one frame comes to, in front of the rest. */
  function InFront(env: Env, lim: Limits, t: DynTable, step: Codec.Step, more: (Option<Partial>, DynTable) -> Drained): (r: Drained) {
    match step
    case Fatal => Stopped(t)
    case Go(p, None) => more(p, t)
    case Go(p, Some(piece)) =>
      var (t', out) := LoadPiece(env, lim, t, piece);
      if out.None? then Stopped(t') else Before([out.value], more(p, t'))
  }

  /** src/codec/mod.rs:202-402, called until it asks for more or fails. */
  function Drain(env: Env, lim: Limits, max: nat, partial: Option<Partial>, t: DynTable, s: seq<Byte>): (r: Drained)
    decreases |s|
  {
    if |s| >= 3 && LengthOf(s) > max then Stopped(t)
    else if !HasFrame(max, s) then Drained([], partial, t, s, true)
    else
      match Assemble(lim, partial, FirstFrame(s))
      case Fatal => Stopped(t)
      case Go(p, None) => Drain(env, lim, max, p, t, Tail(s))
      case Go(p, Some(piece)) =>
        var (t', out) := LoadPiece(env, lim, t, piece);
        if out.None? then Stopped(t') else Before([out.value], Drain(env, lim, max, p, t', Tail(s)))
  }

  lemma DrainFirst(env: Env, lim: Limits, max: nat, partial: Option<Partial>, t: DynTable, s: seq<Byte>)
    requires HasFrame(max, s)
    ensures Drain(env, lim, max, partial, t, s) ==
              InFront(env, lim, t, Assemble(lim, partial, FirstFrame(s)), (p, t') => Drain(env, lim, max, p, t', Tail(s)))
  {
  }

  // ----- chunk by chunk ----------------------------------------------------------------------

  /** Going on with more octets where a buffer was drained. */
  function GoOn(env: Env, lim: Limits, max: nat, more: seq<Byte>, d: Drained): (r: Drained) {
    if !d.ok then d else Before(d.outs, Drain(env, lim, max, d.partial, d.table, d.rest + more))
  }

  lemma BeforeTwice(a: seq<Out>, b: seq<Out>, d: Drained)
    ensures Before(a, Before(b, d)) == Before(a + b, d)
  {
    assert a + (b + d.outs) == a + b + d.outs;
  }

  lemma GoOnBehind(env: Env, lim: Limits, max: nat, more: seq<Byte>, outs: seq<Out>, d: Drained)
    ensures GoOn(env, lim, max, more, Before(outs, d)) == Before(outs, GoOn(env, lim, max, more, d))
  {
    if d.ok {
      BeforeTwice(outs, d.outs, Drain(env, lim, max, d.partial, d.table, d.rest + more));
    }
  }

  lemma InFrontGoesOn(env: Env, lim: Limits, max: nat, more: seq<Byte>, t: DynTable, step: Codec.Step,
                      f: (Option<Partial>, DynTable) -> Drained, g: (Option<Partial>, DynTable) -> Drained)
    requires forall p, t' :: g(p, t') == GoOn(env, lim, max, more, f(p, t'))
    ensures InFront(env, lim, t, step, g) == GoOn(env, lim, max, more, InFront(env, lim, t, step, f))
  {
    if step.Go? && step.piece.Some? {
      var (t', out) := LoadPiece(env, lim, t, step.piece.value);
      if out.Some? {
        GoOnBehind(env, lim, max, more, [out.value], f(step.partial, t'));
      }
    }
  }

  lemma LongerBuffer(max: nat, a: seq<Byte>, b: seq<Byte>)
    requires HasFrame(max, a)
    ensures HasFrame(max, a + b) && FirstFrame(a + b) == FirstFrame(a) && Tail(a + b) == Tail(a) + b
  {
    LengthOfPrefix(a, b);
    assert (a + b)[..LengthOf(a) + HEADER_LEN] == a[..LengthOf(a) + HEADER_LEN];
  }

  /** Draining a buffer and then what is left with more octets is draining all of them. */
  lemma {:induction false} DrainMore(env: Env, lim: Limits, max: nat, partial: Option<Partial>, t: DynTable, a: seq<Byte>, b: seq<Byte>)
    ensures Drain(env, lim, max, partial, t, a + b) == GoOn(env, lim, max, b, Drain(env, lim, max, partial, t, a))
    decreases |a|
  {
    if HasFrame(max, a) {
      LongerBuffer(max, a, b);
      forall p, t'
        ensures Drain(env, lim, max, p, t', Tail(a) + b) == GoOn(env, lim, max, b, Drain(env, lim, max, p, t', Tail(a)))
      {
        DrainMore(env, lim, max, p, t', Tail(a), b);
      }
      DrainFirst(env, lim, max, partial, t, a);
      DrainFirst(env, lim, max, partial, t, a + b);
      InFrontGoesOn(env, lim, max, b, t, Assemble(lim, partial, FirstFrame(a)),
                    (p, t') => Drain(env, lim, max, p, t', Tail(a)), (p, t') => Drain(env, lim, max, p, t', Tail(a) + b));
      SameInFront(env, lim, t, Assemble(lim, partial, FirstFrame(a)),
                  (p, t') => Drain(env, lim, max, p, t', Tail(a) + b), (p, t') => Drain(env, lim, max, p, t', Tail(a + b)));
    } else {
      Incomplete(env, lim, max, partial, t, a, b);
    }
  }

  lemma Incomplete(env: Env, lim: Limits, max: nat, partial: Option<Partial>, t: DynTable, a: seq<Byte>, b: seq<Byte>)
    requires !HasFrame(max, a)
    ensures Drain(env, lim, max, partial, t, a + b) == GoOn(env, lim, max, b, Drain(env, lim, max, partial, t, a))
  {
    if |a| >= 3 {
      LengthOfPrefix(a, b);
    }
    var d := Drain(env, lim, max, partial, t, a + b);
    assert [] + d.outs == d.outs;
  }

  lemma SameInFront(env: Env, lim: Limits, t: DynTable, step: Codec.Step,
                    f: (Option<Partial>, DynTable) -> Drained, g: (Option<Partial>, DynTable) -> Drained)
    requires forall p, t' :: f(p, t') == g(p, t')
    ensures InFront(env, lim, t, step, f) == InFront(env, lim, t, step, g)
  {
  }

  /** The reader appends each chunk to what is left of the last ones and drains. */
  function DrainChunks(env: Env, lim: Limits, max: nat, partial: Option<Partial>, t: DynTable, rest: seq<Byte>, chunks: seq<seq<Byte>>): (r: Drained)
    decreases |chunks|
  {
    if |chunks| == 0 then Drained([], partial, t, rest, true)
    else
      var d := Drain(env, lim, max, partial, t, rest + chunks[0]);
      if !d.ok then d else Before(d.outs, DrainChunks(env, lim, max, d.partial, d.table, d.rest, chunks[1..]))
  }

  /** Nothing more comes of what is left without more octets. */
  predicate Settled(env: Env, lim: Limits, max: nat, partial: Option<Partial>, t: DynTable, rest: seq<Byte>) {
    Drain(env, lim, max, partial, t, rest) == Drained([], partial, t, rest, true)
  }

  lemma DrainSettles(env: Env, lim: Limits, max: nat, partial: Option<Partial>, t: DynTable, s: seq<Byte>)
    ensures var d := Drain(env, lim, max, partial, t, s); d.ok ==> Settled(env, lim, max, d.partial, d.table, d.rest)
  {
    var d := Drain(env, lim, max, partial, t, s);
    DrainMore(env, lim, max, partial, t, s, []);
    assert s + [] == s && d.rest + [] == d.rest;
    if d.ok {
      LeftIsShort(env, lim, max, partial, t, s);
    }
  }

  lemma {:induction false} LeftIsShort(env: Env, lim: Limits, max: nat, partial: Option<Partial>, t: DynTable, s: seq<Byte>)
    ensures var d := Drain(env, lim, max, partial, t, s);
            d.ok ==> !HasFrame(max, d.rest) && !(|d.rest| >= 3 && LengthOf(d.rest) > max)
    decreases |s|
  {
    if HasFrame(max, s) {
      match Assemble(lim, partial, FirstFrame(s))
      case Fatal =>
      case Go(p, None) => LeftIsShort(env, lim, max, p, t, Tail(s));
      case Go(p, Some(piece)) => LeftIsShort(env, lim, max, p, LoadPiece(env, lim, t, piece).0, Tail(s));
    }
  }

  /** However the octets come in chunks, the same frames reach the connection, the same
      error stops it, and the same incomplete block, table and octets are left. */
  lemma {:induction false} ChunkedIsWhole(env: Env, lim: Limits, max: nat, partial: Option<Partial>, t: DynTable,
                                          rest: seq<Byte>, chunks: seq<seq<Byte>>)
    requires Settled(env, lim, max, partial, t, rest)
    ensures DrainChunks(env, lim, max, partial, t, rest, chunks) == Drain(env, lim, max, partial, t, rest + Concat(chunks))
    decreases |chunks|
  {
    if |chunks| == 0 {
      assert rest + [] == rest;
    } else {
      var d := Drain(env, lim, max, partial, t, rest + chunks[0]);
      assert rest + (chunks[0] + Concat(chunks[1..])) == rest + chunks[0] + Concat(chunks[1..]);
      DrainMore(env, lim, max, partial, t, rest + chunks[0], Concat(chunks[1..]));
      if d.ok {
        DrainSettles(env, lim, max, partial, t, rest + chunks[0]);
        ChunkedIsWhole(env, lim, max, d.partial, d.table, d.rest, chunks[1..]);
      }
    }
  }

  // ----- all at once -------------------------------------------------------------------------

  function ParseFrames(raws: seq<seq<Byte>>): (fs: seq<Frame>)
    requires forall i :: 0 <= i < |raws| ==> |raws[i]| >= HEADER_LEN
  {
    if |raws| == 0 then [] else [Frame(ParseHead(raws[0]), raws[0][HEADER_LEN..])] + ParseFrames(raws[1..])
  }

  lemma {:induction false} SplitFramesAreLong(max: nat, s: seq<Byte>)
    ensures forall i :: 0 <= i < |SplitAll(max, s).frames| ==> |SplitAll(max, s).frames[i]| >= HEADER_LEN
    decreases |s|
  {
    if HasFrame(max, s) {
      SplitFramesAreLong(max, Tail(s));
    }
  }

  function FramesOf(max: nat, s: seq<Byte>): (fs: seq<Frame>) {
    SplitFramesAreLong(max, s);
    ParseFrames(SplitAll(max, s).frames)
  }

  /** Splitting a buffer, then assembling, then loading all of it. */
  function AllAtOnce(env: Env, lim: Limits, max: nat, partial: Option<Partial>, t: DynTable, s: seq<Byte>): (r: Drained) {
    Loaded(env, lim, t, AssembleAll(lim, partial, FramesOf(max, s)), SplitAll(max, s))
  }

  function Loaded(env: Env, lim: Limits, t: DynTable, a: Assembled, split: Split): (r: Drained) {
    var loaded := LoadPieces(env, lim, t, a.pieces);
    if loaded.2 && a.done && !split.tooLarge then Drained(loaded.1, a.partial, loaded.0, split.rest, true)
    else Before(loaded.1, Stopped(loaded.0))
  }

  lemma FramesFirst(max: nat, s: seq<Byte>)
    requires HasFrame(max, s)
    ensures FramesOf(max, s) == [FirstFrame(s)] + FramesOf(max, Tail(s))
    ensures SplitAll(max, s).tooLarge == SplitAll(max, Tail(s)).tooLarge && SplitAll(max, s).rest == SplitAll(max, Tail(s)).rest
  {
    SplitFramesAreLong(max, s);
    SplitFramesAreLong(max, Tail(s));
    var split, rest := SplitAll(max, s), SplitAll(max, Tail(s));
    assert split.frames[0] == s[..LengthOf(s) + HEADER_LEN] && split.frames[1..] == rest.frames;
  }

  /** A piece in front of what was assembled is loaded first. */
  lemma LoadedFirst(env: Env, lim: Limits, t: DynTable, piece: Piece, a: Assembled, split: Split)
    ensures var (t', out) := LoadPiece(env, lim, t, piece);
            Loaded(env, lim, t, a.(pieces := [piece] + a.pieces), split) ==
              if out.None? then Stopped(t') else Before([out.value], Loaded(env, lim, t', a, split))
  {
    var (t', out) := LoadPiece(env, lim, t, piece);
    assert ([piece] + a.pieces)[1..] == a.pieces;
    if out.Some? {
      var more := LoadPieces(env, lim, t', a.pieces);
      assert [out.value] + more.1 + [] == [out.value] + (more.1 + []);
    }
  }

  lemma LoadedRest(env: Env, lim: Limits, t: DynTable, a: Assembled, split: Split, split': Split)
    requires split'.tooLarge == split.tooLarge && split'.rest == split.rest
    ensures Loaded(env, lim, t, a, split) == Loaded(env, lim, t, a, split')
    ensures !a.done && a.pieces == [] ==> Loaded(env, lim, t, a, split) == Stopped(t)
  {
  }

  lemma AssembleFirst(lim: Limits, partial: Option<Partial>, f: Frame, fs: seq<Frame>)
    ensures var step := Assemble(lim, partial, f);
            AssembleAll(lim, partial, [f] + fs) ==
              if step.Fatal? then Assembled([], partial, false)
              else
                var more := AssembleAll(lim, step.partial, fs);
                if step.piece.None? then more else more.(pieces := [step.piece.value] + more.pieces)
  {
    assert ([f] + fs)[1..] == fs;
    var step := Assemble(lim, partial, f);
    if step.Go? {
      assert [] + AssembleAll(lim, step.partial, fs).pieces == AssembleAll(lim, step.partial, fs).pieces;
    }
  }

  lemma AllAtOnceFirst(env: Env, lim: Limits, max: nat, partial: Option<Partial>, t: DynTable, s: seq<Byte>)
    requires HasFrame(max, s)
    ensures AllAtOnce(env, lim, max, partial, t, s) ==
              InFront(env, lim, t, Assemble(lim, partial, FirstFrame(s)), (p, t') => AllAtOnce(env, lim, max, p, t', Tail(s)))
  {
    var more, split, split' := FramesOf(max, Tail(s)), SplitAll(max, s), SplitAll(max, Tail(s));
    FramesFirst(max, s);
    AssembleFirst(lim, partial, FirstFrame(s), more);
    match Assemble(lim, partial, FirstFrame(s))
    case Fatal => LoadedRest(env, lim, t, Assembled([], partial, false), split, split');
    case Go(p, None) => LoadedRest(env, lim, t, AssembleAll(lim, p, more), split, split');
    case Go(p, Some(piece)) =>
      LoadedFirst(env, lim, t, piece, AssembleAll(lim, p, more), split);
      LoadedRest(env, lim, LoadPiece(env, lim, t, piece).0, AssembleAll(lim, p, more), split, split');
  }

  /** The loop over a buffer yields what splitting, assembling and loading all of it would. */
  lemma {:induction false} DrainIsAllAtOnce(env: Env, lim: Limits, max: nat, partial: Option<Partial>, t: DynTable, s: seq<Byte>)
    ensures Drain(env, lim, max, partial, t, s) == AllAtOnce(env, lim, max, partial, t, s)
    decreases |s|
  {
    if HasFrame(max, s) {
      forall p, t'
        ensures Drain(env, lim, max, p, t', Tail(s)) == AllAtOnce(env, lim, max, p, t', Tail(s))
      {
        DrainIsAllAtOnce(env, lim, max, p, t', Tail(s));
      }
      DrainFirst(env, lim, max, partial, t, s);
      AllAtOnceFirst(env, lim, max, partial, t, s);
      SameInFront(env, lim, t, Assemble(lim, partial, FirstFrame(s)),
                  (p, t') => Drain(env, lim, max, p, t', Tail(s)), (p, t') => AllAtOnce(env, lim, max, p, t', Tail(s)));
    }
  }

  // ----- the sender --------------------------------------------------------------------------

  function Items(hs: seq<Header>): (items: seq<Item>)
    ensures |items| == |hs|
  {
    if |hs| == 0 then [] else [Named(hs[0])] + Items(hs[1..])
  }

  function Block(env: Env, e: HpackSession.Encoder, s: Section): (block: seq<Byte>) {
    HpackSession.Encode(env, e, Items(HeadersOf(s))).0
  }

  function EncoderAfter(env: Env, e: HpackSession.Encoder, s: Section): (e': HpackSession.Encoder) {
    HpackSession.Encode(env, e, Items(HeadersOf(s))).1
  }

  /** src/frame/headers.rs:598-641 */
  function Send(env: Env, e: HpackSession.Encoder, s: Section, id: nat, eof: bool, frameSize: nat): (wire: seq<Byte>)
    requires frameSize > 0
  {
    Write(CutBlock(Block(env, e, s), id, eof, frameSize))
  }

  ghost predicate SendableSection(env: Env, s: Section) {
    && Proper(s)
    && forall i :: 0 <= i < |HeadersOf(s)| ==> Sendable(env, HeadersOf(s)[i])
  }

  // ----- sensitivity -------------------------------------------------------------------------

  /** Headers as they arrive, without the mark of sensitivity. */
  function PlainAll(hs: seq<Header>): (r: seq<Header>)
    ensures |r| == |hs|
  {
    if |hs| == 0 then [] else [Plain(hs[0])] + PlainAll(hs[1..])
  }

  function PlainSection(s: Section): (r: Section) {
    s.(fields := PlainAll(s.fields))
  }

  lemma {:induction false} PlainAllKeeps(hs: seq<Header>)
    ensures ListSize(PlainAll(hs)) == ListSize(hs)
    ensures forall i :: 0 <= i < |hs| ==> PlainAll(hs)[i] == Plain(hs[i])
  {
    if |hs| > 0 {
      PlainAllKeeps(hs[1..]);
    }
  }

  lemma {:induction false} PlainAllConcat(a: seq<Header>, b: seq<Header>)
    requires forall i :: 0 <= i < |a| ==> !a[i].sensitive
    ensures PlainAll(a + b) == a + PlainAll(b)
  {
    if |a| == 0 {
      assert a + b == b;
    } else {
      assert (a + b)[1..] == a[1..] + b;
      PlainAllConcat(a[1..], b);
    }
  }

  lemma {:induction false} PseudoArePlain(pseudo: map<Name, seq<Byte>>, k: nat)
    requires k <= 6
    ensures forall i :: 0 <= i < |PseudoHeaders(pseudo, k)| ==> !PseudoHeaders(pseudo, k)[i].sensitive
    decreases 6 - k
  {
    if k < 6 {
      PseudoArePlain(pseudo, k + 1);
    }
  }

  lemma PlainSectionHeaders(s: Section)
    ensures PlainAll(HeadersOf(s)) == HeadersOf(PlainSection(s))
    ensures ListSize(HeadersOf(PlainSection(s))) == ListSize(HeadersOf(s))
  {
    PseudoArePlain(s.pseudo, 0);
    PlainAllConcat(PseudoHeaders(s.pseudo, 0), s.fields);
    PlainAllKeeps(HeadersOf(s));
  }

  lemma PlainSectionIsProper(s: Section)
    requires Proper(s)
    ensures Proper(PlainSection(s))
  {
    PlainAllKeeps(s.fields);
  }

  // ----- one section -------------------------------------------------------------------------

  lemma {:induction false} ItemsAreSendable(env: Env, name: Option<Name>, hs: seq<Header>)
    requires forall i :: 0 <= i < |hs| ==> Sendable(env, hs[i])
    ensures AllSendable(env, name, Items(hs))
    decreases |hs|
  {
    if |hs| > 0 {
      ItemsAreSendable(env, Some(hs[0].name), hs[1..]);
    }
  }

  lemma {:induction false} ItemsMean(name: Name, hs: seq<Header>)
    ensures Meant(name, Items(hs)) == PlainAll(hs)
    decreases |hs|
  {
    if |hs| > 0 {
      ItemsMean(hs[0].name, hs[1..]);
    }
  }

  /** What the connection gets for a section that was sent. */
  function Arrives(lim: Limits, s: Section, id: nat, eof: bool): (out: Out) {
    if ListSize(HeadersOf(s)) <= lim.maxList && |s.fields| <= lim.maxHeaders then HeadersFrame(id, eof, PlainSection(s))
    else InvalidHeaders(id)
  }

  /** One block: the receiver's table follows the sender's whether or not the section is
      accepted, and it is accepted exactly if it is within the limits. */
  lemma BlockIsLoaded(env: Env, e: HpackSession.Encoder, lim: Limits, s: Section, id: nat, eof: bool)
    requires WellFormed(env.code) && HpackSession.Serves(e, HpackSession.TABLE_SIZE)
    requires SendableSection(env, s) && lim.maxList < MAX_USIZE
    ensures LoadPiece(env, lim, e.table, Piece.Block(id, eof, false, Block(env, e, s)))
              == (EncoderAfter(env, e, s).table, Some(Arrives(lim, s, id, eof)))
    ensures HpackSession.Serves(EncoderAfter(env, e, s), HpackSession.TABLE_SIZE)
  {
    var hs := HeadersOf(s);
    ItemsAreSendable(env, None, hs);
    ItemsMean(Status, hs);
    HpackSession.EncodeDecode(env, e, HpackSession.TABLE_SIZE, Items(hs));
    PlainSectionHeaders(s);
    PlainSectionIsProper(s);
    SectionRoundTrip(PlainSection(s), lim.maxHeaders, lim.maxList);
  }

  /** A block whose priority makes its stream depend on itself is decoded like any other, and
      refused (section 5.3.1 of RFC 7540). */
  lemma SelfDependentIsLoaded(env: Env, e: HpackSession.Encoder, lim: Limits, s: Section, id: nat, eof: bool)
    requires WellFormed(env.code) && HpackSession.Serves(e, HpackSession.TABLE_SIZE) && SendableSection(env, s)
    ensures LoadPiece(env, lim, e.table, Piece.Block(id, eof, true, Block(env, e, s)))
              == (EncoderAfter(env, e, s).table, Some(InvalidHeaders(id)))
  {
    ItemsAreSendable(env, None, HeadersOf(s));
    HpackSession.EncodeDecode(env, e, HpackSession.TABLE_SIZE, Items(HeadersOf(s)));
  }

  lemma {:induction false} WrittenIsParsed(max: nat, fs: seq<Frame>)
    requires max <= MAX_MAX_FRAME_SIZE
    requires forall i :: 0 <= i < |fs| ==> |fs[i].payload| <= max && fs[i].head.id < 0x8000_0000
    ensures var split := SplitAll(max, Write(fs));
            && !split.tooLarge && split.rest == [] && |split.frames| == |fs|
            && (forall i :: 0 <= i < |split.frames| ==> |split.frames[i]| >= HEADER_LEN)
            && ParseFrames(split.frames) == fs
    decreases |fs|
  {
    if |fs| > 0 {
      var first, more := FrameBytes(fs[0].head, fs[0].payload), Write(fs[1..]);
      HeadRoundTrip(fs[0].head, fs[0].payload, more);
      WrittenIsParsed(max, fs[1..]);
      assert (first + more)[..|first|] == first && (first + more)[|first|..] == more;
      var split := SplitAll(max, Write(fs));
      assert split.frames[1..] == SplitAll(max, more).frames;
    }
  }

  /** The receiver's framing limits admit the block. */
  predicate Fits(lim: Limits, block: seq<Byte>, id: nat, eof: bool, frameSize: nat)
    requires frameSize > 0
  {
    var n := |CutBlock(block, id, eof, frameSize)|;
    n == 1 || Admits(lim, 0, |block|, n - 1)
  }

  lemma OnePiece(env: Env, lim: Limits, t: DynTable, p: Piece)
    requires LoadPiece(env, lim, t, p).1.Some?
    ensures LoadPieces(env, lim, t, [p]) == (LoadPiece(env, lim, t, p).0, [LoadPiece(env, lim, t, p).1.value], true)
  {
    var (t', out) := LoadPiece(env, lim, t, p);
    assert [p][1..] == [];
    assert LoadPieces(env, lim, t', []) == (t', [], true);
    assert [out.value] + [] == [out.value];
  }

  /** Limits and sizes a receiver and a sender agree on. */
  predicate Agreed(lim: Limits, max: nat, frameSize: nat) {
    0 < frameSize <= max <= MAX_MAX_FRAME_SIZE && lim.maxList < MAX_USIZE
  }

  /** The octets of one section, drained from a clean state, leave a clean state. */
  lemma SectionIsDrained(env: Env, e: HpackSession.Encoder, lim: Limits, max: nat, s: Section, id: nat, eof: bool, frameSize: nat)
    requires WellFormed(env.code) && HpackSession.Serves(e, HpackSession.TABLE_SIZE) && Agreed(lim, max, frameSize)
    requires SendableSection(env, s) && 0 < id < 0x8000_0000 && Fits(lim, Block(env, e, s), id, eof, frameSize)
    ensures Drain(env, lim, max, None, e.table, Send(env, e, s, id, eof, frameSize))
              == Drained([Arrives(lim, s, id, eof)], None, EncoderAfter(env, e, s).table, [], true)
  {
    var block := Block(env, e, s);
    var fs := CutBlock(block, id, eof, frameSize);
    DrainIsAllAtOnce(env, lim, max, None, e.table, Write(fs));
    CutFits(block, id, eof, frameSize);
    WrittenIsParsed(max, fs);
    BlockAssembles(lim, block, id, eof, frameSize);
    BlockIsLoaded(env, e, lim, s, id, eof);
    OnePiece(env, lim, e.table, Piece.Block(id, eof, false, block));
  }

  // ----- runs of sections --------------------------------------------------------------------

  /** What a sender does: it takes over a table size of the peer, or sends a section. */
  datatype Op = SetSize(val: nat) | SendSection(section: Section, id: nat, eof: bool)

  function SendAll(env: Env, e: HpackSession.Encoder, ops: seq<Op>, frameSize: nat): (r: (seq<Byte>, HpackSession.Encoder))
    requires frameSize > 0
    decreases |ops|
  {
    if |ops| == 0 then ([], e)
    else
      match ops[0]
      case SetSize(val) =>
        SendAll(env, HpackSession.UpdateMaxSize(e, Min(val, HpackSession.TABLE_SIZE)), ops[1..], frameSize)
      case SendSection(s, id, eof) =>
        var more := SendAll(env, EncoderAfter(env, e, s), ops[1..], frameSize);
        (Send(env, e, s, id, eof, frameSize) + more.0, more.1)
  }

  /** Each section can be sent, and its block is admitted by the receiver. */
  ghost predicate AllAdmitted(env: Env, e: HpackSession.Encoder, lim: Limits, ops: seq<Op>, frameSize: nat)
    requires frameSize > 0
    decreases |ops|
  {
    |ops| == 0 ||
    match ops[0]
    case SetSize(val) =>
      AllAdmitted(env, HpackSession.UpdateMaxSize(e, Min(val, HpackSession.TABLE_SIZE)), lim, ops[1..], frameSize)
    case SendSection(s, id, eof) =>
      && SendableSection(env, s) && 0 < id < 0x8000_0000
      && Fits(lim, Block(env, e, s), id, eof, frameSize)
      && AllAdmitted(env, EncoderAfter(env, e, s), lim, ops[1..], frameSize)
  }

  function Arriving(lim: Limits, ops: seq<Op>): (outs: seq<Out>) {
    if |ops| == 0 then []
    else
      match ops[0]
      case SetSize(_) => Arriving(lim, ops[1..])
      case SendSection(s, id, eof) => [Arrives(lim, s, id, eof)] + Arriving(lim, ops[1..])
  }

  /** All that a run puts on the wire. */
  ghost predicate RunIsDrained(env: Env, e: HpackSession.Encoder, lim: Limits, max: nat, ops: seq<Op>, frameSize: nat)
    requires frameSize > 0
  {
    match SendAll(env, e, ops, frameSize)
    case (wire, e') => Drain(env, lim, max, None, e.table, wire) == Drained(Arriving(lim, ops), None, e'.table, [], true)
  }

  lemma SectionInFront(env: Env, e: HpackSession.Encoder, lim: Limits, max: nat, ops: seq<Op>, frameSize: nat)
    requires frameSize > 0 && |ops| > 0 && ops[0].SendSection?
    requires var SendSection(s, id, eof) := ops[0];
             Drain(env, lim, max, None, e.table, Send(env, e, s, id, eof, frameSize))
               == Drained([Arrives(lim, s, id, eof)], None, EncoderAfter(env, e, s).table, [], true)
    requires RunIsDrained(env, EncoderAfter(env, e, ops[0].section), lim, max, ops[1..], frameSize)
    ensures RunIsDrained(env, e, lim, max, ops, frameSize)
  {
    var SendSection(s, id, eof) := ops[0];
    var more := SendAll(env, EncoderAfter(env, e, s), ops[1..], frameSize).0;
    DrainMore(env, lim, max, None, e.table, Send(env, e, s, id, eof, frameSize), more);
    assert [] + more == more;
  }

  lemma {:induction false} RunDrains(env: Env, e: HpackSession.Encoder, lim: Limits, max: nat, ops: seq<Op>, frameSize: nat)
    requires WellFormed(env.code) && HpackSession.Serves(e, HpackSession.TABLE_SIZE) && Agreed(lim, max, frameSize)
    requires AllAdmitted(env, e, lim, ops, frameSize)
    ensures RunIsDrained(env, e, lim, max, ops, frameSize)
    decreases |ops|
  {
    if |ops| > 0 {
      match ops[0]
      case SetSize(val) =>
        HpackSession.QueueServes(e, HpackSession.TABLE_SIZE, Min(val, HpackSession.TABLE_SIZE));
        RunDrains(env, HpackSession.UpdateMaxSize(e, Min(val, HpackSession.TABLE_SIZE)), lim, max, ops[1..], frameSize);
      case SendSection(s, id, eof) =>
        SectionIsDrained(env, e, lim, max, s, id, eof, frameSize);
        BlockIsLoaded(env, e, lim, s, id, eof);
        RunDrains(env, EncoderAfter(env, e, s), lim, max, ops[1..], frameSize);
        SectionInFront(env, e, lim, max, ops, frameSize);
    }
  }

  /** The whole way, for a run of header sections and table size changes: compressed, cut
      into frames, written, read in whatever chunks, put together, decompressed and checked,
      the sections arrive in order as they were, but for the mark of sensitivity, with their
      stream ids and END_STREAM, or are refused exactly if they exceed the limits; nothing is
      left over, and the dynamic tables stay equal all along. */
  lemma MessageRoundTrip(env: Env, e: HpackSession.Encoder, lim: Limits, max: nat, ops: seq<Op>, frameSize: nat, chunks: seq<seq<Byte>>)
    requires WellFormed(env.code) && HpackSession.Serves(e, HpackSession.TABLE_SIZE) && Agreed(lim, max, frameSize)
    requires AllAdmitted(env, e, lim, ops, frameSize)
    requires Concat(chunks) == SendAll(env, e, ops, frameSize).0
    ensures DrainChunks(env, lim, max, None, e.table, [], chunks)
              == Drained(Arriving(lim, ops), None, SendAll(env, e, ops, frameSize).1.table, [], true)
  {
    ChunkedIsWhole(env, lim, max, None, e.table, [], chunks);
    assert [] + Concat(chunks) == Concat(chunks);
    RunDrains(env, e, lim, max, ops, frameSize);
  }
}
