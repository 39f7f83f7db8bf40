/** Header blocks on the wire (section 6 of RFC 7541): what the encoder writes for an
    answer of its table, what the decoder reads, and that the two agree. */
module HpackWire {
  import opened Prelude
  import opened HpackHeader
  import opened HpackFifo
  import opened HpackInt
  import opened HuffmanCode
  import opened HpackString

  // ----- decoding one representation ------------------------------------------------

  datatype Representation = IndexedField | LiteralIndexed | LiteralPlain | LiteralNever | SizeUpdateField

  /** src/hpack/decoder.rs:373-396: the tests of the leading bits, as ranges. */
  function LoadRepresentation(b: Byte): (r: Representation) {
    if b >= 128 then IndexedField
    else if b >= 64 then LiteralIndexed
    else if b < 16 then LiteralPlain
    else if b < 32 then LiteralNever
    else SizeUpdateField
  }

  /** The tests of the code, mask by mask, and its error where none holds. */
  function LoadByMasks(b: bv8): (r: Option<Representation>) {
    if b & 0x80 == 0x80 then Some(IndexedField)
    else if b & 0x40 == 0x40 then Some(LiteralIndexed)
    else if b & 0xF0 == 0 then Some(LiteralPlain)
    else if b & 0xF0 == 0x10 then Some(LiteralNever)
    else if b & 0xE0 == 0x20 then Some(SizeUpdateField)
    else None
  }

  /** The ranges are what the masks test, for every octet, so the error cannot occur. */
  lemma RepresentationMasks(b: bv8)
    ensures LoadByMasks(b) == Some(LoadRepresentation(b as int))
  {
    MasksAreRanges(b);
    assert b >= 128 <==> b as int >= 128;
    assert b >= 64 <==> b as int >= 64;
    assert b >= 32 <==> b as int >= 32;
    assert b >= 16 <==> b as int >= 16;
  }

  lemma MasksAreRanges(b: bv8)
    ensures b >= 128 <==> b & 0x80 == 0x80
    ensures 64 <= b < 128 <==> b & 0x80 != 0x80 && b & 0x40 == 0x40
    ensures b < 16 <==> b & 0x80 != 0x80 && b & 0x40 != 0x40 && b & 0xF0 == 0
    ensures 16 <= b < 32 <==> b & 0x80 != 0x80 && b & 0x40 != 0x40 && b & 0xF0 == 0x10
    ensures 32 <= b < 64 <==> b & 0x80 != 0x80 && b & 0x40 != 0x40 && b & 0xF0 != 0 && b & 0xF0 != 0x10 && b & 0xE0 == 0x20
  {
  }

  /** src/hpack/decoder.rs:521-535 */
  function TableGet(t: DynTable, idx: nat): (r: Option<Header>) {
    if idx == 0 then None
    else if idx <= 61 then Some(StaticHeader(idx))
    else if idx - 62 < |t.entries| then Some(t.entries[idx - 62])
    else None
  }

  /** How an index is resolved while a table is in force. */
  function Lookup(t: DynTable): (look: nat -> Option<Header>) {
    (idx: nat) => TableGet(t, idx)
  }

  /** src/hpack/decoder.rs:286-312: the octets of a literal and the header they make.
      They are read before the header is made, so its errors come with the octets gone. */
  datatype Literal = Literal(made: Parsed<Header>, used: nat) | NoLiteral(error: DecoderError)

  function ParseLiteral(env: Env, look: nat -> Option<Header>, s: seq<Byte>, prefix: nat): (r: Literal)
    ensures r.Literal? ==> 2 <= r.used <= |s|
  {
    match DecodeInt(s, prefix)
    case IntOk(idx, u) =>
      if idx == 0 then
        match ParseString(env, s[u..])
        case Good(name, n) =>
          (match ParseString(env, s[u + n..])
           case Good(value, v) => Literal(NewHeader(env, name, value), u + n + v)
           case Fault(e) => NoLiteral(e))
        case Fault(e) => NoLiteral(e)
      else
        (match look(idx)
         case None => NoLiteral(InvalidTableIndex)
         case Some(entry) =>
           match ParseString(env, s[u..])
           case Good(value, v) => Literal(IntoEntry(env, entry.name, value), u + v)
           case Fault(e) => NoLiteral(e))
    case e => NoLiteral(IntError(e))
  }

  /** A header and a size update take octets off the source; so does a literal that makes
      no header; any other failure leaves it where the representation starts. */
  datatype Step =
    | Emit(header: Header, insert: bool, used: nat)
    | NewLimit(size: nat, used: nat)
    | Broken(error: DecoderError)
    | Stuck(error: DecoderError)

  function ParseStep(env: Env, look: nat -> Option<Header>, limit: nat, canResize: bool, s: seq<Byte>): (r: Step)
    requires |s| > 0
    ensures r.Emit? ==> 1 <= r.used <= |s|
    ensures r.NewLimit? ==> 1 <= r.used <= |s|
  {
    match LoadRepresentation(s[0])
    case IndexedField =>
      (match DecodeInt(s, 7)
       case IntOk(idx, u) =>
         (match look(idx)
          case Some(h) => Emit(h, false, u)
          case None => Stuck(InvalidTableIndex))
       case e => Stuck(IntError(e)))
    case LiteralIndexed => MadeStep(ParseLiteral(env, look, s, 6), true)
    case LiteralPlain => MadeStep(ParseLiteral(env, look, s, 4), false)
    case LiteralNever => MadeStep(ParseLiteral(env, look, s, 4), false)
    case SizeUpdateField =>
      if !canResize then Stuck(InvalidMaxDynamicSize)
      else
        match DecodeInt(s, 5)
        case IntOk(size, u) => if size > limit then Stuck(InvalidMaxDynamicSize) else NewLimit(size, u)
        case e => Stuck(IntError(e))
  }

  function MadeStep(l: Literal, insert: bool): (r: Step) {
    match l
    case Literal(Good(h, _), used) => Emit(h, insert, used)
    case Literal(Fault(e), _) => Broken(e)
    case NoLiteral(e) => Stuck(e)
  }

  // ----- decoding a block -----------------------------------------------------------

  /** Headers decoded, the table afterwards, and what is left of the source. */
  datatype Decoded = Decoded(headers: seq<Header>, table: DynTable, rest: seq<Byte>, error: Option<DecoderError>)

  function After(h: Header, d: Decoded): (r: Decoded) {
    d.(headers := [h] + d.headers)
  }

  /** src/hpack/decoder.rs:197-261 */
  function DecodeBlock(env: Env, t: DynTable, limit: nat, canResize: bool, s: seq<Byte>): (r: Decoded)
    decreases |s|
  {
    if |s| == 0 then Decoded([], t, [], None)
    else
      match ParseStep(env, Lookup(t), limit, canResize, s)
      case Emit(h, insert, u) =>
        After(h, DecodeBlock(env, if insert then Insert(t, h) else t, limit, false, s[u..]))
      case NewLimit(size, u) => DecodeBlock(env, Resize(t, size), limit, canResize, s[u..])
      case Broken(e) => Decoded([], t, s[TakenOff(env, s)..], Some(e))
      case Stuck(e) => Decoded([], t, s, Some(e))
  }

  /** src/hpack/decoder.rs:458-482: plain strings are split off the source as they are read,
      Huffman strings are not; so much is gone when the header cannot be made of them. */
  function TakenOff(env: Env, s: seq<Byte>): (n: nat)
    requires |s| > 0
    ensures n <= |s|
  {
    match DecodeInt(s, if LoadRepresentation(s[0]) == LiteralIndexed then 6 else 4)
    case IntOk(idx, u) => if idx > 0 then Plainly(env, s, u, 0) else Plainly(env, s, u + StringLength(env, s[u..]), Plainly(env, s, u, 0))
    case _ => 0
  }

  /** The octets of the string at s, or none. */
  function StringLength(env: Env, s: seq<Byte>): (n: nat)
    ensures n <= |s|
  {
    match ParseString(env, s)
    case Good(_, used) => used
    case Fault(_) => 0
  }

  /** Behind the string at u if it is plain. */
  function Plainly(env: Env, s: seq<Byte>, u: nat, before: nat): (n: nat)
    requires u <= |s| && before <= |s|
    ensures n <= |s|
  {
    if u < |s| && s[u] < 128 then u + StringLength(env, s[u..]) else before
  }

  // ----- encoding -------------------------------------------------------------------

  /** src/hpack/encoder.rs:114-153; slot is the entry an insertion has just made. */
  function EncodeIndex(env: Env, index: Index, slot: Header): (r: seq<Byte>) {
    match index
    case Indexed(idx, _) => EncodeInt(idx, 7, 0x80)
    case NameIndexed(idx, h) => EncodeNotIndexed(env, idx, h.value, IsSensitive(h))
    case Inserted(_) => [0x40] + EncodeStr(env, NameBytes(slot.name)) + EncodeStr(env, slot.value)
    case InsertedValue(idx, _) => EncodeInt(idx, 6, 0x40) + EncodeStr(env, slot.value)
    case NotIndexed(h) => EncodeNotIndexed2(env, NameBytes(h.name), h.value, IsSensitive(h))
  }

  function EncodeNotIndexed(env: Env, name: nat, value: seq<Byte>, sensitive: bool): (r: seq<Byte>) {
    EncodeInt(name, 4, if sensitive then 0x10 else 0) + EncodeStr(env, value)
  }

  function EncodeNotIndexed2(env: Env, name: seq<Byte>, value: seq<Byte>, sensitive: bool): (r: seq<Byte>) {
    [if sensitive then 0x10 else 0] + EncodeStr(env, name) + EncodeStr(env, value)
  }

  function EncodeSizeUpdate(size: nat): (r: seq<Byte>) {
    EncodeInt(size, 5, 0x20)
  }

  /** Headers come by themselves or, repeating the name of the one before, as a value. */
  datatype Item = Named(header: Header) | Nameless(value: seq<Byte>, sensitive: bool)

  /** src/hpack/table.rs:111-118 */
  function ResolveIdx(index: Index): (r: nat)
    requires !index.NotIndexed?
  {
    match index
    case Indexed(idx, _) => idx
    case NameIndexed(idx, _) => idx
    case Inserted(slot) => slot + DYN_OFFSET
    case InsertedValue(_, slot) => slot + DYN_OFFSET
  }

  /** src/hpack/encoder.rs:155-168 */
  function EncodeNameless(env: Env, last: Index, value: seq<Byte>, sensitive: bool): (r: seq<Byte>) {
    match last
    case NotIndexed(h) => EncodeNotIndexed2(env, NameBytes(h.name), value, sensitive)
    case _ => EncodeNotIndexed(env, ResolveIdx(last), value, sensitive)
  }

  function SlotOf(t: DynTable, h: Header): (r: Header) {
    if |t.entries| > 0 then t.entries[0] else h
  }

  /** src/hpack/encoder.rs:69-95; a nameless item needs a header before it. */
  function EncodeItems(env: Env, t: DynTable, last: Option<Index>, items: seq<Item>): (r: (seq<Byte>, DynTable))
    decreases |items|
  {
    if |items| == 0 then ([], t)
    else
      match items[0]
      case Named(h) =>
        var (index, t') := Scan(t, h);
        var rest := EncodeItems(env, t', Some(index), items[1..]);
        (EncodeIndex(env, index, SlotOf(t', h)) + rest.0, rest.1)
      case Nameless(value, sensitive) =>
        var rest := EncodeItems(env, t, last, items[1..]);
        ((if last.Some? then EncodeNameless(env, last.value, value, sensitive) else []) + rest.0, rest.1)
  }

  // ----- what can be sent --------------------------------------------------------------

  /** A header the decoder's integer limit lets through. */
  predicate Sendable(env: Env, h: Header) {
    && ValidHeader(env, h)
    && StringFits(env, NameBytes(h.name))
    && StringFits(env, h.value)
  }

  predicate AllSendable(env: Env, name: Option<Name>, items: seq<Item>)
    decreases |items|
  {
    |items| == 0 ||
    match items[0]
    case Named(h) => Sendable(env, h) && AllSendable(env, Some(h.name), items[1..])
    case Nameless(value, sensitive) =>
      && name.Some? && name.value.Field?
      && Sendable(env, Header(name.value, value, sensitive))
      && AllSendable(env, name, items[1..])
  }

  /** The headers the items stand for, without the sensitivity mark. */
  function Meant(name: Name, items: seq<Item>): (r: seq<Header>)
    decreases |items|
  {
    if |items| == 0 then []
    else
      match items[0]
      case Named(h) => [Plain(h)] + Meant(h.name, items[1..])
      case Nameless(value, _) => [Header(name, value, false)] + Meant(name, items[1..])
  }

  function Plain(h: Header): (r: Header) {
    h.(sensitive := false)
  }

  /** A table both sides can hold: within its limit, nothing sensitive, indices small
      enough to announce. */
  ghost predicate Shared(t: DynTable) {
    && Fits(t)
    && t.maxSize < 0x1000_0000
    && forall i :: 0 <= i < |t.entries| ==> !t.entries[i].sensitive
  }

  lemma EntriesAreFew(t: DynTable)
    requires Shared(t)
    ensures 32 * |t.entries| <= t.maxSize
  {
  }

  lemma InsertKeepsShared(t: DynTable, h: Header)
    requires Shared(t) && !h.sensitive
    ensures Shared(Insert(t, h))
  {
    InsertFits(t, h);
  }

  lemma ResizeKeepsShared(t: DynTable, size: nat)
    requires Shared(t) && size < 0x1000_0000
    ensures Shared(Resize(t, size))
  {
  }

  // ----- round trip of one header ---------------------------------------------------

  lemma IntFirst(value: nat, prefix: nat, first: Byte, rest: seq<Byte>)
    requires RoomFor(first, prefix)
    ensures first <= (EncodeInt(value, prefix, first) + rest)[0] <= first + Mask(prefix)
  {
    RoomAbove(first, prefix);
  }

  lemma ReadIndexed(env: Env, look: nat -> Option<Header>, limit: nat, can: bool, idx: nat, h: Header, rest: seq<Byte>)
    requires look(idx) == Some(h) && idx < 0x1000_0000
    ensures ParseStep(env, look, limit, can, EncodeInt(idx, 7, 0x80) + rest) == Emit(h, false, |EncodeInt(idx, 7, 0x80)|)
  {
    IntRoundTrip(idx, 7, 0x80, rest);
    IntFirst(idx, 7, 0x80, rest);
  }

  lemma LiteralByIndex(env: Env, look: nat -> Option<Header>, prefix: nat, head: seq<Byte>, more: seq<Byte>,
                       idx: nat, entry: Header, value: seq<Byte>, v: nat)
    requires DecodeInt(head + more, prefix) == IntOk(idx, |head|) && idx > 0
    requires look(idx) == Some(entry) && ParseString(env, more) == Good(value, v)
    ensures ParseLiteral(env, look, head + more, prefix) == Literal(IntoEntry(env, entry.name, value), |head| + v)
  {
    assert (head + more)[|head|..] == more;
  }

  /** A literal whose name is an index. */
  lemma ReadIndexedName(env: Env, look: nat -> Option<Header>, prefix: nat, first: Byte, idx: nat,
                        entry: Header, h: Header, rest: seq<Byte>)
    requires WellFormed(env.code) && Sendable(env, h) && RoomFor(first, prefix)
    requires look(idx) == Some(entry) && entry.name == h.name && 0 < idx < 0x1000_0000
    ensures var head, v := EncodeInt(idx, prefix, first), EncodeStr(env, h.value);
            ParseLiteral(env, look, head + (v + rest), prefix) == Literal(Good(Plain(h), 0), |head| + |v|)
  {
    var head, v := EncodeInt(idx, prefix, first), EncodeStr(env, h.value);
    IntRoundTrip(idx, prefix, first, v + rest);
    StringRoundTrip(env, h.value, rest);
    LiteralByIndex(env, look, prefix, head, v + rest, idx, entry, h.value, |v|);
    ParsesBack(env, h);
  }

  lemma LiteralByName(env: Env, look: nat -> Option<Header>, prefix: nat, first: Byte, n: seq<Byte>, v: seq<Byte>,
                      rest: seq<Byte>, name: seq<Byte>, value: seq<Byte>)
    requires DecodeInt([first] + (n + (v + rest)), prefix) == IntOk(0, 1)
    requires ParseString(env, n + (v + rest)) == Good(name, |n|) && ParseString(env, v + rest) == Good(value, |v|)
    ensures ParseLiteral(env, look, [first] + (n + (v + rest)), prefix) ==
              Literal(NewHeader(env, name, value), 1 + |n| + |v|)
  {
    var s := [first] + (n + (v + rest));
    assert s[1..] == n + (v + rest);
    assert s[1 + |n|..] == v + rest;
  }

  /** A literal whose name is spelled out. */
  lemma ReadSpelledName(env: Env, look: nat -> Option<Header>, prefix: nat, first: Byte, h: Header, rest: seq<Byte>)
    requires WellFormed(env.code) && Sendable(env, h) && RoomFor(first, prefix)
    ensures var n, v := EncodeStr(env, NameBytes(h.name)), EncodeStr(env, h.value);
            ParseLiteral(env, look, [first] + (n + (v + rest)), prefix) == Literal(Good(Plain(h), 0), 1 + |n| + |v|)
  {
    var n, v := EncodeStr(env, NameBytes(h.name)), EncodeStr(env, h.value);
    ZeroIsFirst(prefix, first, n + (v + rest));
    StringRoundTrip(env, NameBytes(h.name), v + rest);
    StringRoundTrip(env, h.value, rest);
    LiteralByName(env, look, prefix, first, n, v, rest, NameBytes(h.name), h.value);
    ParsesBack(env, h);
  }

  lemma ZeroIsFirst(prefix: nat, first: Byte, rest: seq<Byte>)
    requires RoomFor(first, prefix)
    ensures DecodeInt([first] + rest, prefix) == IntOk(0, 1)
  {
    assert EncodeInt(0, prefix, first) == [first];
    IntRoundTrip(0, prefix, first, rest);
  }

  /** The octets of a representation, grouped as the reader meets them. */
  lemma Grouped(a: seq<Byte>, b: seq<Byte>, c: seq<Byte>, rest: seq<Byte>)
    ensures a + b + rest == a + (b + rest)
    ensures a + b + c + rest == a + (b + (c + rest))
  {
  }

  lemma ReadNotIndexed(env: Env, look: nat -> Option<Header>, limit: nat, can: bool, idx: nat,
                       entry: Header, h: Header, sensitive: bool, rest: seq<Byte>)
    requires WellFormed(env.code) && Sendable(env, h)
    requires look(idx) == Some(entry) && entry.name == h.name && 0 < idx < 0x1000_0000
    ensures var s := EncodeNotIndexed(env, idx, h.value, sensitive);
            |s + rest| > 0 && ParseStep(env, look, limit, can, s + rest) == Emit(Plain(h), false, |s|)
  {
    var first: Byte := if sensitive then 0x10 else 0;
    var head, v := EncodeInt(idx, 4, first), EncodeStr(env, h.value);
    Grouped(head, v, [], rest);
    ReadIndexedName(env, look, 4, first, idx, entry, h, rest);
    IntFirst(idx, 4, first, v + rest);
    StepIsLiteral(env, look, limit, can, head + (v + rest));
  }

  lemma ReadNotIndexed2(env: Env, look: nat -> Option<Header>, limit: nat, can: bool, h: Header, sensitive: bool, rest: seq<Byte>)
    requires WellFormed(env.code) && Sendable(env, h)
    ensures var s := EncodeNotIndexed2(env, NameBytes(h.name), h.value, sensitive);
            |s + rest| > 0 && ParseStep(env, look, limit, can, s + rest) == Emit(Plain(h), false, |s|)
  {
    var first: Byte := if sensitive then 0x10 else 0;
    var n, v := EncodeStr(env, NameBytes(h.name)), EncodeStr(env, h.value);
    Grouped([first], n, v, rest);
    ReadSpelledName(env, look, 4, first, h, rest);
    StepIsLiteral(env, look, limit, can, [first] + (n + (v + rest)));
  }

  lemma ReadInserted(env: Env, look: nat -> Option<Header>, limit: nat, can: bool, h: Header, rest: seq<Byte>)
    requires WellFormed(env.code) && Sendable(env, h)
    ensures var s := [0x40] + EncodeStr(env, NameBytes(h.name)) + EncodeStr(env, h.value);
            |s + rest| > 0 && ParseStep(env, look, limit, can, s + rest) == Emit(Plain(h), true, |s|)
  {
    var n, v := EncodeStr(env, NameBytes(h.name)), EncodeStr(env, h.value);
    Grouped([0x40], n, v, rest);
    ReadSpelledName(env, look, 6, 0x40, h, rest);
    StepIsLiteral(env, look, limit, can, [0x40] + (n + (v + rest)));
  }

  lemma ReadInsertedValue(env: Env, look: nat -> Option<Header>, limit: nat, can: bool, idx: nat,
                          entry: Header, h: Header, rest: seq<Byte>)
    requires WellFormed(env.code) && Sendable(env, h)
    requires look(idx) == Some(entry) && entry.name == h.name && 0 < idx < 0x1000_0000
    ensures var s := EncodeInt(idx, 6, 0x40) + EncodeStr(env, h.value);
            |s + rest| > 0 && ParseStep(env, look, limit, can, s + rest) == Emit(Plain(h), true, |s|)
  {
    var head, v := EncodeInt(idx, 6, 0x40), EncodeStr(env, h.value);
    Grouped(head, v, [], rest);
    ReadIndexedName(env, look, 6, 0x40, idx, entry, h, rest);
    IntFirst(idx, 6, 0x40, v + rest);
    StepIsLiteral(env, look, limit, can, head + (v + rest));
  }

  lemma StepIsLiteral(env: Env, look: nat -> Option<Header>, limit: nat, can: bool, s: seq<Byte>)
    requires |s| > 0
    ensures 64 <= s[0] < 128 ==> ParseStep(env, look, limit, can, s) == MadeStep(ParseLiteral(env, look, s, 6), true)
    ensures s[0] < 32 ==> ParseStep(env, look, limit, can, s) == MadeStep(ParseLiteral(env, look, s, 4), false)
  {
  }

  lemma ReadSizeUpdate(env: Env, look: nat -> Option<Header>, limit: nat, size: nat, rest: seq<Byte>)
    requires size <= limit && size < 0x1000_0000
    ensures ParseStep(env, look, limit, true, EncodeSizeUpdate(size) + rest) == NewLimit(size, |EncodeSizeUpdate(size)|)
  {
    IntRoundTrip(size, 5, 0x20, rest);
    IntFirst(size, 5, 0x20, rest);
  }
}
