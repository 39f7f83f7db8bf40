/** Blocks that any peer may send (section 6 of RFC 7541), not only the ones our encoder
    writes: every representation, strings plain or coded, names spelled or by index. */
module HpackBlocks {
  import opened Prelude
  import opened HpackHeader
  import opened HpackFifo
  import opened HpackInt
  import opened HuffmanCode
  import opened HpackString
  import opened HpackWire

  datatype Text = Verbatim(octets: seq<Byte>) | Coded(octets: seq<Byte>)

  datatype Mode = Incremental | Without | Never

  /** nameIdx 0 spells the name out. */
  datatype Rep =
    | Ref(idx: nat)
    | Literal(mode: Mode, nameIdx: nat, name: Text, value: Text)
    | Limit(size: nat)

  // ----- octets ------------------------------------------------------------------------------

  function TextBytes(env: Env, x: Text): (s: seq<Byte>) {
    match x
    case Verbatim(o) => EncodeInt(|o|, 7, 0) + o
    case Coded(o) => EncodeInt(|HuffEncode(env.code, o)|, 7, 0x80) + HuffEncode(env.code, o)
  }

  function ModePrefix(m: Mode): (n: nat)
    ensures n == 6 || n == 4
  {
    if m.Incremental? then 6 else 4
  }

  function ModeBits(m: Mode): (b: Byte)
    ensures RoomFor(b, ModePrefix(m))
  {
    match m
    case Incremental => 0x40
    case Without => 0
    case Never => 0x10
  }

  function RepBytes(env: Env, r: Rep): (s: seq<Byte>)
    ensures |s| >= 1
  {
    match r
    case Ref(idx) => EncodeInt(idx, 7, 0x80)
    case Literal(mode, idx, name, value) =>
      EncodeInt(idx, ModePrefix(mode), ModeBits(mode)) + ((if idx == 0 then TextBytes(env, name) else []) + TextBytes(env, value))
    case Limit(size) => EncodeInt(size, 5, 0x20)
  }

  function BlockBytes(env: Env, rs: seq<Rep>): (s: seq<Byte>) {
    if |rs| == 0 then [] else RepBytes(env, rs[0]) + BlockBytes(env, rs[1..])
  }

  // ----- meaning -----------------------------------------------------------------------------

  /** The header of a representation, if it makes one. */
  function HeaderOf(env: Env, t: DynTable, r: Rep): (h: Option<Header>) {
    match r
    case Ref(idx) => TableGet(t, idx)
    case Limit(_) => None
    case Literal(_, idx, name, value) =>
      if idx == 0 then Made(NewHeader(env, name.octets, value.octets))
      else if TableGet(t, idx).None? then None
      else Made(IntoEntry(env, TableGet(t, idx).value.name, value.octets))
  }

  function Made(p: Parsed<Header>): (h: Option<Header>) {
    match p
    case Good(h, _) => Some(h)
    case Fault(_) => None
  }

  function TableAfter(env: Env, t: DynTable, r: Rep): (t': DynTable) {
    match r
    case Limit(size) => Resize(t, size)
    case Literal(Incremental, _, _, _) => if HeaderOf(env, t, r).Some? then Insert(t, HeaderOf(env, t, r).value) else t
    case _ => t
  }

  predicate TextFits(env: Env, x: Text) {
    match x
    case Verbatim(o) => |o| < 127 + 0x1000_0000
    case Coded(o) => |HuffEncode(env.code, o)| < 127 + 0x1000_0000
  }

  /** Its numbers are ones that a decoder can read. */
  predicate Readable(env: Env, r: Rep) {
    match r
    case Ref(idx) => idx < 0x1000_0000
    case Literal(_, idx, name, value) => idx < 0x1000_0000 && TextFits(env, name) && TextFits(env, value)
    case Limit(size) => size < 0x1000_0000
  }

  /** What a decoder has to take: its index names an entry, its octets make a header, and a
      limit is admitted and in front of all headers. */
  predicate Legal(env: Env, t: DynTable, limit: nat, can: bool, r: Rep) {
    if r.Limit? then can && r.size <= limit else HeaderOf(env, t, r).Some?
  }

  /** What is wrong with it otherwise. */
  function ErrorOf(env: Env, t: DynTable, r: Rep): (e: DecoderError) {
    match r
    case Ref(_) => InvalidTableIndex
    case Limit(_) => InvalidMaxDynamicSize
    case Literal(_, idx, name, value) =>
      if idx == 0 then Reason(NewHeader(env, name.octets, value.octets))
      else if TableGet(t, idx).None? then InvalidTableIndex
      else Reason(IntoEntry(env, TableGet(t, idx).value.name, value.octets))
  }

  function Reason(p: Parsed<Header>): (e: DecoderError) {
    match p
    case Good(_, _) => InvalidRepresentation
    case Fault(e) => e
  }

  predicate AllLegal(env: Env, t: DynTable, limit: nat, can: bool, rs: seq<Rep>)
    decreases |rs|
  {
    |rs| == 0 ||
    (Readable(env, rs[0]) && Legal(env, t, limit, can, rs[0]) && AllLegal(env, TableAfter(env, t, rs[0]), limit, can && rs[0].Limit?, rs[1..]))
  }

  /** The headers of a block and the table it leaves. */
  function Meaning(env: Env, t: DynTable, rs: seq<Rep>): (r: (seq<Header>, DynTable))
    decreases |rs|
  {
    if |rs| == 0 then ([], t)
    else
      var h, more := HeaderOf(env, t, rs[0]), Meaning(env, TableAfter(env, t, rs[0]), rs[1..]);
      ((if h.Some? then [h.value] else []) + more.0, more.1)
  }

  // ----- reading -----------------------------------------------------------------------------

  lemma VerbatimIsRead(env: Env, o: seq<Byte>, rest: seq<Byte>)
    requires |o| < 127 + 0x1000_0000
    ensures ParseString(env, EncodeInt(|o|, 7, 0) + (o + rest)) == Good(o, |EncodeInt(|o|, 7, 0)| + |o|)
  {
    var head := EncodeInt(|o|, 7, 0);
    var s := head + (o + rest);
    IntRoundTrip(|o|, 7, 0, o + rest);
    IntFirst(|o|, 7, 0, o + rest);
    assert s[|head|..|head| + |o|] == o;
  }

  /** A string is read whichever form it has. */
  lemma TextIsRead(env: Env, x: Text, rest: seq<Byte>)
    requires WellFormed(env.code) && TextFits(env, x)
    ensures ParseString(env, TextBytes(env, x) + rest) == Good(x.octets, |TextBytes(env, x)|)
  {
    match x
    case Verbatim(o) =>
      VerbatimIsRead(env, o, rest);
      Regroup(EncodeInt(|o|, 7, 0), o, rest);
    case Coded(o) =>
      var h := HuffEncode(env.code, o);
      HuffmanExact(env.code, h, o);
      HuffmanStringRoundTrip(env, o, h, rest);
      Regroup(EncodeInt(|h|, 7, 0x80), h, rest);
  }

  lemma NameByIndex(env: Env, t: DynTable, mode: Mode, idx: nat, value: Text, rest: seq<Byte>)
    requires WellFormed(env.code) && TextFits(env, value) && 0 < idx < 0x1000_0000 && TableGet(t, idx).Some?
    ensures var head, v := EncodeInt(idx, ModePrefix(mode), ModeBits(mode)), TextBytes(env, value);
            ParseLiteral(env, Lookup(t), head + (v + rest), ModePrefix(mode)) ==
              HpackWire.Literal(IntoEntry(env, TableGet(t, idx).value.name, value.octets), |head| + |v|)
  {
    var head, v := EncodeInt(idx, ModePrefix(mode), ModeBits(mode)), TextBytes(env, value);
    IntRoundTrip(idx, ModePrefix(mode), ModeBits(mode), v + rest);
    TextIsRead(env, value, rest);
    LiteralByIndex(env, Lookup(t), ModePrefix(mode), head, v + rest, idx, TableGet(t, idx).value, value.octets, |v|);
  }

  lemma NameSpelled(env: Env, t: DynTable, mode: Mode, name: Text, value: Text, rest: seq<Byte>)
    requires WellFormed(env.code) && TextFits(env, name) && TextFits(env, value)
    ensures var n, v := TextBytes(env, name), TextBytes(env, value);
            ParseLiteral(env, Lookup(t), [ModeBits(mode)] + (n + (v + rest)), ModePrefix(mode)) ==
              HpackWire.Literal(NewHeader(env, name.octets, value.octets), 1 + |n| + |v|)
  {
    var n, v := TextBytes(env, name), TextBytes(env, value);
    ZeroIsFirst(ModePrefix(mode), ModeBits(mode), n + (v + rest));
    TextIsRead(env, name, v + rest);
    TextIsRead(env, value, rest);
    LiteralByName(env, Lookup(t), ModePrefix(mode), ModeBits(mode), n, v, rest, name.octets, value.octets);
  }

  lemma ModeIsRead(env: Env, t: DynTable, limit: nat, can: bool, mode: Mode, idx: nat, more: seq<Byte>)
    ensures var s := EncodeInt(idx, ModePrefix(mode), ModeBits(mode)) + more;
            ParseStep(env, Lookup(t), limit, can, s) == MadeStep(ParseLiteral(env, Lookup(t), s, ModePrefix(mode)), mode.Incremental?)
  {
    IntFirst(idx, ModePrefix(mode), ModeBits(mode), more);
    StepIsLiteral(env, Lookup(t), limit, can, EncodeInt(idx, ModePrefix(mode), ModeBits(mode)) + more);
  }

  lemma InFront(a: seq<Byte>, b: seq<Byte>, c: seq<Byte>, rest: seq<Byte>)
    ensures a + (b + c) + rest == a + (b + (c + rest)) && a + ([] + c) + rest == a + (c + rest)
  {
    assert [] + c == c;
  }

  /** A literal is read, and makes a header or the error that says why not. */
  function LiteralStep(env: Env, t: DynTable, r: Rep): (step: Step)
    requires r.Literal? && (r.nameIdx > 0 ==> TableGet(t, r.nameIdx).Some?)
  {
    match HeaderOf(env, t, r)
    case Some(h) => Emit(h, r.mode.Incremental?, |RepBytes(env, r)|)
    case None => Broken(ErrorOf(env, t, r))
  }

  lemma SpelledIsRead(env: Env, t: DynTable, limit: nat, can: bool, r: Rep, rest: seq<Byte>)
    requires WellFormed(env.code) && r.Literal? && r.nameIdx == 0 && Readable(env, r)
    ensures ParseStep(env, Lookup(t), limit, can, RepBytes(env, r) + rest) == LiteralStep(env, t, r)
  {
    var first, n, v := ModeBits(r.mode), TextBytes(env, r.name), TextBytes(env, r.value);
    assert EncodeInt(0, ModePrefix(r.mode), first) == [first];
    assert RepBytes(env, r) == [first] + (n + v);
    InFront([first], n, v, rest);
    NameSpelled(env, t, r.mode, r.name, r.value, rest);
    ModeIsRead(env, t, limit, can, r.mode, 0, n + (v + rest));
  }

  lemma IndexedIsRead(env: Env, t: DynTable, limit: nat, can: bool, r: Rep, rest: seq<Byte>)
    requires WellFormed(env.code) && r.Literal? && r.nameIdx > 0 && Readable(env, r) && TableGet(t, r.nameIdx).Some?
    ensures ParseStep(env, Lookup(t), limit, can, RepBytes(env, r) + rest) == LiteralStep(env, t, r)
  {
    var head, v := EncodeInt(r.nameIdx, ModePrefix(r.mode), ModeBits(r.mode)), TextBytes(env, r.value);
    assert RepBytes(env, r) == head + ([] + v);
    InFront(head, [], v, rest);
    NameByIndex(env, t, r.mode, r.nameIdx, r.value, rest);
    ModeIsRead(env, t, limit, can, r.mode, r.nameIdx, v + rest);
  }

  lemma RepIsRead(env: Env, t: DynTable, limit: nat, can: bool, r: Rep, rest: seq<Byte>)
    requires WellFormed(env.code) && Readable(env, r) && Legal(env, t, limit, can, r)
    ensures ParseStep(env, Lookup(t), limit, can, RepBytes(env, r) + rest) ==
              match r
              case Limit(size) => NewLimit(size, |RepBytes(env, r)|)
              case Ref(_) => Emit(HeaderOf(env, t, r).value, false, |RepBytes(env, r)|)
              case Literal(mode, _, _, _) => Emit(HeaderOf(env, t, r).value, mode.Incremental?, |RepBytes(env, r)|)
  {
    match r
    case Ref(idx) => ReadIndexed(env, Lookup(t), limit, can, idx, HeaderOf(env, t, r).value, rest);
    case Literal(_, idx, _, _) =>
      if idx == 0 {
        SpelledIsRead(env, t, limit, can, r, rest);
      } else {
        IndexedIsRead(env, t, limit, can, r, rest);
      }
    case Limit(size) => ReadSizeUpdate(env, Lookup(t), limit, size, rest);
  }

  lemma BadNameIndex(env: Env, t: DynTable, limit: nat, can: bool, r: Rep, rest: seq<Byte>)
    requires r.Literal? && r.nameIdx > 0 && Readable(env, r) && TableGet(t, r.nameIdx).None?
    ensures ParseStep(env, Lookup(t), limit, can, RepBytes(env, r) + rest) == Stuck(InvalidTableIndex)
  {
    var head, v := EncodeInt(r.nameIdx, ModePrefix(r.mode), ModeBits(r.mode)), TextBytes(env, r.value);
    assert RepBytes(env, r) == head + ([] + v);
    InFront(head, [], v, rest);
    IntRoundTrip(r.nameIdx, ModePrefix(r.mode), ModeBits(r.mode), v + rest);
    ModeIsRead(env, t, limit, can, r.mode, r.nameIdx, v + rest);
  }

  /** What is left of the source when a literal makes no header: strings that are not coded
      have been taken off it (src/hpack/decoder.rs:458-482). */
  function LeftOf(env: Env, r: Rep, rest: seq<Byte>): (s: seq<Byte>)
    requires r.Literal?
  {
    if r.value.Verbatim? then rest
    else if r.nameIdx == 0 && r.name.Verbatim? then TextBytes(env, r.value) + rest
    else RepBytes(env, r) + rest
  }

  lemma TextStarts(env: Env, x: Text, rest: seq<Byte>)
    ensures |TextBytes(env, x)| > 0 && ((TextBytes(env, x) + rest)[0] < 128 <==> x.Verbatim?)
  {
    match x
    case Verbatim(o) => IntFirst(|o|, 7, 0, o + rest);
    case Coded(o) => IntFirst(|HuffEncode(env.code, o)|, 7, 0x80, HuffEncode(env.code, o) + rest);
  }

  lemma PlainlyIs(env: Env, before: seq<Byte>, x: Text, rest: seq<Byte>, was: nat)
    requires WellFormed(env.code) && TextFits(env, x) && was <= |before|
    ensures var s := before + (TextBytes(env, x) + rest);
            && StringLength(env, s[|before|..]) == |TextBytes(env, x)|
            && Plainly(env, s, |before|, was) == if x.Verbatim? then |before| + |TextBytes(env, x)| else was
  {
    var s := before + (TextBytes(env, x) + rest);
    assert s[|before|..] == TextBytes(env, x) + rest;
    TextStarts(env, x, rest);
    TextIsRead(env, x, rest);
  }

  lemma HeadIs(env: Env, r: Rep, more: seq<Byte>)
    requires r.Literal? && Readable(env, r)
    ensures var s := EncodeInt(r.nameIdx, ModePrefix(r.mode), ModeBits(r.mode)) + more;
            DecodeInt(s, if LoadRepresentation(s[0]) == LiteralIndexed then 6 else 4) ==
              IntOk(r.nameIdx, |EncodeInt(r.nameIdx, ModePrefix(r.mode), ModeBits(r.mode))|)
  {
    IntRoundTrip(r.nameIdx, ModePrefix(r.mode), ModeBits(r.mode), more);
    IntFirst(r.nameIdx, ModePrefix(r.mode), ModeBits(r.mode), more);
  }

  lemma SpelledBytes(env: Env, r: Rep, rest: seq<Byte>)
    requires r.Literal? && r.nameIdx == 0
    ensures RepBytes(env, r) + rest ==
              EncodeInt(0, ModePrefix(r.mode), ModeBits(r.mode)) + TextBytes(env, r.name) + (TextBytes(env, r.value) + rest)
  {
    InFront(EncodeInt(0, ModePrefix(r.mode), ModeBits(r.mode)), TextBytes(env, r.name), TextBytes(env, r.value), rest);
  }

  lemma SpelledTakenOff(env: Env, s: seq<Byte>, u: nat, n: nat, v: nat, plainName: bool, plainValue: bool)
    requires 0 < u && u + n + v <= |s|
    requires DecodeInt(s, if LoadRepresentation(s[0]) == LiteralIndexed then 6 else 4) == IntOk(0, u)
    requires StringLength(env, s[u..]) == n && Plainly(env, s, u, 0) == if plainName then u + n else 0
    requires Plainly(env, s, u + n, if plainName then u + n else 0) ==
               if plainValue then u + n + v else if plainName then u + n else 0
    ensures TakenOff(env, s) == if plainValue then u + n + v else if plainName then u + n else 0
  {
  }

  /** A spelled literal in its parts, and how they are read. */
  lemma SpelledForm(env: Env, r: Rep, rest: seq<Byte>) returns (s: seq<Byte>, u: nat, n: nat, v: seq<Byte>)
    requires WellFormed(env.code) && r.Literal? && Readable(env, r) && r.nameIdx == 0
    ensures s == RepBytes(env, r) + rest && v == TextBytes(env, r.value)
    ensures 0 < u && u + n + |v| <= |s| && s[u + n..] == v + rest && s[u + n + |v|..] == rest
    ensures DecodeInt(s, if LoadRepresentation(s[0]) == LiteralIndexed then 6 else 4) == IntOk(0, u)
    ensures StringLength(env, s[u..]) == n && Plainly(env, s, u, 0) == if r.name.Verbatim? then u + n else 0
    ensures var was := if r.name.Verbatim? then u + n else 0;
            Plainly(env, s, u + n, was) == if r.value.Verbatim? then u + n + |v| else was
  {
    var head, name := EncodeInt(0, ModePrefix(r.mode), ModeBits(r.mode)), TextBytes(env, r.name);
    v := TextBytes(env, r.value);
    s, u, n := head + name + (v + rest), |head|, |name|;
    SpelledBytes(env, r, rest);
    Offsets(head, name, v, rest);
    HeadIs(env, r, name + (v + rest));
    PlainlyIs(env, head, r.name, v + rest, 0);
    PlainlyIs(env, head + name, r.value, rest, if r.name.Verbatim? then u + n else 0);
  }

  lemma SpelledLeaves(env: Env, r: Rep, rest: seq<Byte>)
    requires WellFormed(env.code) && r.Literal? && Readable(env, r) && r.nameIdx == 0
    ensures var s := RepBytes(env, r) + rest; s[TakenOff(env, s)..] == LeftOf(env, r, rest)
  {
    var s, u, n, v := SpelledForm(env, r, rest);
    SpelledTakenOff(env, s, u, n, |v|, r.name.Verbatim?, r.value.Verbatim?);
  }

  lemma Offsets(a: seq<Byte>, b: seq<Byte>, c: seq<Byte>, d: seq<Byte>)
    ensures var s := a + b + (c + d); s == a + (b + (c + d)) && s[|a| + |b|..] == c + d && s[|a| + |b| + |c|..] == d
  {
  }

  lemma IndexedLeaves(env: Env, r: Rep, rest: seq<Byte>)
    requires WellFormed(env.code) && r.Literal? && Readable(env, r) && r.nameIdx > 0
    ensures var s := RepBytes(env, r) + rest; s[TakenOff(env, s)..] == LeftOf(env, r, rest)
  {
    var head, v := EncodeInt(r.nameIdx, ModePrefix(r.mode), ModeBits(r.mode)), TextBytes(env, r.value);
    InFront(head, [], v, rest);
    HeadIs(env, r, v + rest);
    PlainlyIs(env, head, r.value, rest, 0);
    assert (head + (v + rest))[|head| + |v|..] == rest;
  }

  /** The block ends here, with this error, and this is left. */
  ghost predicate Refused(d: Decoded, t: DynTable, e: DecoderError, left: seq<Byte>) {
    match d
    case d => d.headers == [] && d.table == t && d.error == Some(e) && d.rest == left
  }

  lemma LiteralIsRefused(env: Env, t: DynTable, limit: nat, can: bool, r: Rep, rest: seq<Byte>)
    requires WellFormed(env.code) && r.Literal? && Readable(env, r) && !Legal(env, t, limit, can, r)
    requires r.nameIdx > 0 ==> TableGet(t, r.nameIdx).Some?
    ensures Refused(DecodeBlock(env, t, limit, can, RepBytes(env, r) + rest), t, ErrorOf(env, t, r), LeftOf(env, r, rest))
  {
    if r.nameIdx == 0 {
      SpelledLeaves(env, r, rest);
      SpelledIsRead(env, t, limit, can, r, rest);
    } else {
      IndexedLeaves(env, r, rest);
      IndexedIsRead(env, t, limit, can, r, rest);
    }
  }

  /** A representation that can be read but is not legal ends the block with its error: an
      index of no entry (section 2.3.3 of RFC 7541), octets that make no header, a limit above
      the one in force or behind a header (section 4.2). */
  lemma IllegalIsRefused(env: Env, t: DynTable, limit: nat, can: bool, r: Rep, rest: seq<Byte>)
    requires WellFormed(env.code) && Readable(env, r) && !Legal(env, t, limit, can, r)
    ensures var s := RepBytes(env, r) + rest;
            var made := r.Literal? && (r.nameIdx > 0 ==> TableGet(t, r.nameIdx).Some?);
            Refused(DecodeBlock(env, t, limit, can, s), t, ErrorOf(env, t, r), if made then LeftOf(env, r, rest) else s)
  {
    match r
    case Ref(idx) =>
      IntRoundTrip(idx, 7, 0x80, rest);
      IntFirst(idx, 7, 0x80, rest);
    case Limit(size) =>
      IntRoundTrip(size, 5, 0x20, rest);
      IntFirst(size, 5, 0x20, rest);
    case Literal(_, idx, _, _) =>
      if idx > 0 && TableGet(t, idx).None? {
        BadNameIndex(env, t, limit, can, r, rest);
      } else {
        LiteralIsRefused(env, t, limit, can, r, rest);
      }
  }

  // ----- blocks --------------------------------------------------------------------------------

  /** Size updates are allowed until the first header. */
  predicate StillCan(can: bool, rs: seq<Rep>) {
    can && forall i :: 0 <= i < |rs| ==> rs[i].Limit?
  }

  function AfterAll(hs: seq<Header>, d: Decoded): (r: Decoded) {
    d.(headers := hs + d.headers)
  }

  lemma FirstIsDecoded(env: Env, t: DynTable, limit: nat, can: bool, r: Rep, rest: seq<Byte>)
    requires WellFormed(env.code) && Readable(env, r) && Legal(env, t, limit, can, r)
    ensures var d := DecodeBlock(env, TableAfter(env, t, r), limit, can && r.Limit?, rest);
            DecodeBlock(env, t, limit, can, RepBytes(env, r) + rest) ==
              if HeaderOf(env, t, r).Some? then After(HeaderOf(env, t, r).value, d) else d
  {
    var s := RepBytes(env, r);
    RepIsRead(env, t, limit, can, r, rest);
    assert (s + rest)[|s|..] == rest;
  }

  /** What is legal is decoded to what it means, whatever comes behind it; that is decoded from
      the table it leaves. */
  lemma {:induction false} BlockGoesOn(env: Env, t: DynTable, limit: nat, can: bool, rs: seq<Rep>, more: seq<Byte>)
    requires WellFormed(env.code) && AllLegal(env, t, limit, can, rs)
    ensures var (hs, t') := Meaning(env, t, rs);
            DecodeBlock(env, t, limit, can, BlockBytes(env, rs) + more) ==
              AfterAll(hs, DecodeBlock(env, t', limit, StillCan(can, rs), more))
    decreases |rs|
  {
    if |rs| == 0 {
      assert [] + more == more;
      assert AfterAll([], DecodeBlock(env, t, limit, can, more)) == DecodeBlock(env, t, limit, can, more);
    } else {
      var s, rest := RepBytes(env, rs[0]), BlockBytes(env, rs[1..]) + more;
      assert BlockBytes(env, rs) + more == s + rest;
      FirstIsDecoded(env, t, limit, can, rs[0], rest);
      BlockGoesOn(env, TableAfter(env, t, rs[0]), limit, can && rs[0].Limit?, rs[1..], more);
      StillCanFirst(can, rs);
      InFrontOfAll(HeaderOf(env, t, rs[0]), Meaning(env, TableAfter(env, t, rs[0]), rs[1..]).0,
                   DecodeBlock(env, Meaning(env, t, rs).1, limit, StillCan(can, rs), more));
    }
  }

  lemma StillCanFirst(can: bool, rs: seq<Rep>)
    requires |rs| > 0
    ensures StillCan(can, rs) <==> StillCan(can && rs[0].Limit?, rs[1..])
  {
    assert rs == [rs[0]] + rs[1..];
  }

  lemma InFrontOfAll(h: Option<Header>, more: seq<Header>, d: Decoded)
    ensures AfterAll((if h.Some? then [h.value] else []) + more, d) ==
              if h.Some? then After(h.value, AfterAll(more, d)) else AfterAll(more, d)
  {
    if h.Some? {
      assert [h.value] + more + d.headers == [h.value] + (more + d.headers);
    } else {
      assert [] + more == more;
    }
  }

  /** Section 6 of RFC 7541: every legal block is decoded in full to what it means, and leaves
      the table it calls for. */
  lemma BlockIsDecoded(env: Env, t: DynTable, limit: nat, can: bool, rs: seq<Rep>)
    requires WellFormed(env.code) && AllLegal(env, t, limit, can, rs)
    ensures DecodeBlock(env, t, limit, can, BlockBytes(env, rs)) ==
              Decoded(Meaning(env, t, rs).0, Meaning(env, t, rs).1, [], None)
  {
    BlockGoesOn(env, t, limit, can, rs, []);
    assert BlockBytes(env, rs) + [] == BlockBytes(env, rs);
  }

  /** And up to the first representation that is not, with its error. */
  lemma BlockIsRefused(env: Env, t: DynTable, limit: nat, can: bool, rs: seq<Rep>, r: Rep, rest: seq<Byte>)
    requires WellFormed(env.code) && AllLegal(env, t, limit, can, rs)
    requires Readable(env, r) && !Legal(env, Meaning(env, t, rs).1, limit, StillCan(can, rs), r)
    ensures var (hs, t') := Meaning(env, t, rs);
            var d := DecodeBlock(env, t, limit, can, BlockBytes(env, rs) + (RepBytes(env, r) + rest));
            d.headers == hs && d.table == t' && d.error == Some(ErrorOf(env, t', r))
  {
    BlockGoesOn(env, t, limit, can, rs, RepBytes(env, r) + rest);
    IllegalIsRefused(env, Meaning(env, t, rs).1, limit, StillCan(can, rs), r, rest);
  }
}
