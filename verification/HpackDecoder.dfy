/** The decoder as it runs: a cursor over the source, a newest-first list with its size,
    and the loop over representations (src/hpack/decoder.rs). */
module HpackDecoder {
  import opened Prelude
  import opened HpackHeader
  import opened HpackFifo
  import opened HpackInt
  import opened HuffmanCode
  import Huffman
  import opened HpackString
  import opened HpackWire
  import opened HpackSplit

  /** src/hpack/decoder.rs:458-495 */
  class Cursor {
    var bytes: seq<Byte>
    var pos: nat

    ghost predicate Valid()
      reads this
    {
      pos <= |bytes|
    }

    ghost function Left(): (s: seq<Byte>)
      reads this
      requires Valid()
    {
      bytes[pos..]
    }

    constructor (bytes: seq<Byte>)
      ensures Valid() && this.bytes == bytes && Left() == bytes
    {
      this.bytes, pos := bytes, 0;
    }

    method Peek() returns (b: Option<Byte>)
      requires Valid()
      ensures b == if |Left()| == 0 then None else Some(Left()[0])
    {
      b := if pos < |bytes| then Some(bytes[pos]) else None;
    }

    method Int(prefix: nat) returns (r: IntResult)
      requires Valid()
      modifies this`pos
      ensures Valid() && r == DecodeInt(old(Left()), prefix)
      ensures r.IntOk? ==> pos == old(pos) + r.used && Left() == old(Left())[r.used..]
    {
      r, pos := GetInt(bytes, pos, prefix);
    }

    method Take(n: nat) returns (head: seq<Byte>)
      requires Valid() && n <= |Left()|
      modifies this
      ensures Valid() && head == old(Left())[..n] && bytes == old(Left())[n..] && pos == 0
    {
      bytes := bytes[pos..];
      head, bytes := bytes[..n], bytes[n..];
      pos := 0;
    }

    method Consume()
      requires Valid()
      modifies this
      ensures Valid() && bytes == old(Left()) && pos == 0
    {
      bytes := bytes[pos..];
      pos := 0;
    }
  }

  /** src/hpack/decoder.rs:498-583 */
  class Table {
    var entries: seq<Header>
    var size: nat
    var maxSize: nat

    ghost predicate Valid()
      reads this
    {
      size == Size(entries) && size <= maxSize
    }

    ghost function Contents(): (t: DynTable)
      reads this
    {
      DynTable(entries, maxSize)
    }

    constructor (maxSize: nat)
      ensures Valid() && Contents() == DynTable([], maxSize)
    {
      entries, size := [], 0;
      this.maxSize := maxSize;
    }

    method Get(index: nat) returns (r: Option<Header>)
      ensures r == TableGet(Contents(), index)
    {
      if index == 0 {
        return None;
      }
      if index <= 61 {
        return Some(StaticHeader(index));
      }
      r := if index - 62 < |entries| then Some(entries[index - 62]) else None;
    }

    method Insert(entry: Header)
      requires Valid()
      modifies this
      ensures Valid() && Contents() == HpackFifo.Insert(old(Contents()), entry)
    {
      var len := Len(entry);
      Reserve(len);
      InsertedInto(old(Contents()), entry, len, entries);
      if size + len <= maxSize {
        size := size + len;
        entries := [entry] + entries;
      }
    }

    method SetMaxSize(max: nat)
      requires Valid()
      modifies this
      ensures Valid() && Contents() == HpackFifo.Resize(old(Contents()), max)
    {
      maxSize := max;
      Consolidate();
    }

    method Reserve(len: nat)
      requires Valid()
      modifies this`entries, this`size
      ensures Valid() && entries == EvictTo(old(entries), maxSize - len)
      ensures size + len > maxSize ==> len > maxSize
    {
      while size + len > maxSize
        invariant Valid() && EvictTo(entries, maxSize - len) == EvictTo(old(entries), maxSize - len)
        decreases |entries|
      {
        if |entries| == 0 {
          return;
        }
        var last := entries[|entries| - 1];
        entries := entries[..|entries| - 1];
        size := size - Len(last);
      }
    }

    /** The panic of an empty list with a positive size is unreachable. */
    method Consolidate()
      requires size == Size(entries)
      modifies this`entries, this`size
      ensures Valid() && entries == EvictTo(old(entries), maxSize)
    {
      while size > maxSize
        invariant size == Size(entries) && EvictTo(entries, maxSize) == EvictTo(old(entries), maxSize)
        decreases |entries|
      {
        assert |entries| > 0;
        size := size - Len(entries[|entries| - 1]);
        entries := entries[..|entries| - 1];
      }
    }
  }

  lemma InsertedInto(t: DynTable, h: Header, len: nat, kept: seq<Header>)
    requires len == Len(h) && kept == EvictTo(t.entries, t.maxSize - len)
    requires Size(kept) + len > t.maxSize ==> len > t.maxSize
    ensures Insert(t, h) == DynTable(if Size(kept) + len <= t.maxSize then [h] + kept else kept, t.maxSize)
    ensures Size([h] + kept) == Size(kept) + len
  {
    SizePushFront(h, kept);
  }

  datatype StringMarker = StringMarker(offset: nat, len: nat, decoded: Option<seq<Byte>>)

  /** The marker stands for the string that s starts with. */
  ghost predicate Marks(env: Env, m: StringMarker, s: seq<Byte>, v: seq<Byte>, used: nat) {
    match m
    case StringMarker(offset, len, decoded) =>
      && ParseString(env, s) == Good(v, used) && used == offset + len
      && (decoded.None? <==> s[0] < 128)
      && v == if decoded.Some? then decoded.value else s[offset..used]
  }

  class Decoder {
    const env: Env
    const huffman: Huffman.Automaton
    const table: Table
    var maxSizeUpdate: Option<nat>
    var lastMaxUpdate: nat
    var buffer: seq<Byte>

    ghost predicate Valid()
      reads this, table
    {
      table.Valid() && Huffman.Walks(env.code, huffman)
    }

    constructor (env: Env, huffman: Huffman.Automaton, size: nat)
      requires Huffman.Walks(env.code, huffman)
      ensures Valid() && fresh(table) && table.Contents() == DynTable([], size)
      ensures lastMaxUpdate == size && maxSizeUpdate.None? && buffer == []
      ensures this.env == env && this.huffman == huffman
    {
      this.env, this.huffman := env, huffman;
      table := new Table(size);
      maxSizeUpdate, lastMaxUpdate, buffer := None, size, [];
    }

    /** The largest of the sizes queued is the one that counts. */
    method QueueSizeUpdate(size: nat)
      modifies this`maxSizeUpdate
      ensures maxSizeUpdate == Some(if old(maxSizeUpdate).Some? && old(maxSizeUpdate).value > size then old(maxSizeUpdate).value else size)
    {
      maxSizeUpdate := Some(match maxSizeUpdate
                            case Some(v) => if v >= size then v else size
                            case None => size);
    }

    /** src/hpack/decoder.rs:314-354 */
    method TryDecodeString(cur: Cursor) returns (r: Parsed<StringMarker>)
      requires Valid() && cur.Valid() && buffer == []
      modifies cur`pos, this`buffer
      ensures Valid() && cur.Valid()
      ensures match ParseString(env, old(cur.Left()))
              case Good(v, used) =>
                && r.Good? && r.used == used && Marks(env, r.value, old(cur.Left()), v, used)
                && cur.pos == old(cur.pos) + used && buffer == []
              case Fault(e) => r == Fault(e) && (e != InvalidHuffmanCode ==> buffer == [])
    {
      var oldPos := cur.pos;
      var first := cur.Peek();
      if first.None? {
        return Fault(UnexpectedEndOfStream);
      }
      var n := cur.Int(7);
      if !n.IntOk? {
        return Fault(IntError(n));
      }
      var len := n.value;
      if len > |cur.bytes| - cur.pos {
        return Fault(StringUnderflow);
      }
      var offset: nat := cur.pos - oldPos;
      ghost var s := cur.bytes[oldPos..];
      var raw := cur.bytes[cur.pos..cur.pos + len];
      SliceOfRest(cur.bytes, oldPos, offset, len);
      StringParts(env, s, len, offset, raw);
      cur.pos := cur.pos + len;
      if first.value >= 128 {
        var plain;
        plain, buffer := Huffman.Decode(huffman, raw, buffer, env.code);
        if plain.None? {
          return Fault(InvalidHuffmanCode);
        }
        assert [] + plain.value == plain.value;
        r := Good(StringMarker(offset, len, plain), offset + len);
      } else {
        r := Good(StringMarker(offset, len, None), offset + len);
      }
    }

    /** src/hpack/decoder.rs:356-361 */
    method DecodeString(cur: Cursor) returns (r: Parsed<seq<Byte>>)
      requires Valid() && cur.Valid() && buffer == []
      modifies cur, this`buffer
      ensures Valid() && cur.Valid()
      ensures match ParseString(env, old(cur.Left()))
              case Good(v, used) => r == Good(v, used) && buffer == []
                                    && Off(cur.bytes, cur.pos, old(cur.bytes), old(cur.pos), used, old(cur.Left())[0] < 128)
              case Fault(e) => r == Fault(e) && (e != InvalidHuffmanCode ==> buffer == []) && cur.bytes == old(cur.bytes)
    {
      var oldPos := cur.pos;
      ghost var s := cur.Left();
      var marker := TryDecodeString(cur);
      if marker.Fault? {
        return Fault(marker.error);
      }
      cur.pos := oldPos;
      var v := ConsumeMarker(marker.value, cur, env, ParseString(env, s).value, marker.used);
      r := Good(v, marker.used);
    }

    /** src/hpack/decoder.rs:293-305: both strings have to be there before either is taken. */
    method SpelledLiteral(cur: Cursor) returns (r: Parsed<(seq<Byte>, seq<Byte>)>)
      requires Valid() && cur.Valid() && buffer == []
      modifies cur, this`buffer
      ensures Valid() && cur.Valid()
      ensures match ParseString(env, old(cur.Left()))
              case Fault(e) => r == Fault(e) && cur.bytes == old(cur.bytes) && (e != InvalidHuffmanCode ==> buffer == [])
              case Good(n, a) =>
                match ParseString(env, old(cur.Left())[a..])
                case Fault(e) => r == Fault(e) && cur.bytes == old(cur.bytes) && (e != InvalidHuffmanCode ==> buffer == [])
                case Good(v, b) => r == Good((n, v), a + b) && buffer == []
                                   && TwiceOff(cur.bytes, cur.pos, old(cur.bytes), old(cur.pos), a, b)
    {
      var oldPos := cur.pos;
      ghost var s := cur.Left();
      ghost var bytes := cur.bytes;
      var name := TryDecodeString(cur);
      if name.Fault? {
        return Fault(name.error);
      }
      assert cur.Left() == s[name.used..];
      var value := TryDecodeString(cur);
      if value.Fault? {
        return Fault(value.error);
      }
      cur.pos := oldPos;
      var n, v := ConsumeBoth(name.value, value.value, cur, env, name.used, value.used);
      r := Good((n, v), name.used + value.used);
    }

    /** src/hpack/decoder.rs:280-312 */
    method DecodeLiteral(cur: Cursor, index: bool) returns (r: Parsed<Header>)
      requires Valid() && cur.Valid() && cur.pos == 0 && buffer == []
      requires |cur.bytes| > 0 && (index <==> LoadRepresentation(cur.bytes[0]) == LiteralIndexed)
      modifies cur, this`buffer
      ensures Valid() && cur.Valid()
      ensures LiteralDone(env, Lookup(table.Contents()), if index then 6 else 4, old(cur.bytes), r, cur.bytes, cur.pos, buffer)
    {
      var prefix := if index then 6 else 4;
      ghost var s, look := cur.bytes, Lookup(table.Contents());
      assert s[0..] == s;
      var idx := cur.Int(prefix);
      if !idx.IntOk? {
        return Fault(IntError(idx));
      }
      if idx.value == 0 {
        r := NameInLiteral(cur, prefix, idx.used, look);
      } else {
        var e := table.Get(idx.value);
        if e.None? {
          return Fault(InvalidTableIndex);
        }
        r := NameFromTable(cur, prefix, idx.value, idx.used, e.value, look);
      }
    }

    /** The cursor is behind the index of the literal at the start of its octets. */
    ghost predicate BehindIndex(cur: Cursor, prefix: nat, idx: nat, u: nat)
      reads this, table, cur
    {
      && Valid() && cur.Valid() && cur.pos == u && buffer == []
      && LiteralPrefix(cur.bytes, prefix) && DecodeInt(cur.bytes, prefix) == IntOk(idx, u)
    }

    method NameInLiteral(cur: Cursor, ghost prefix: nat, ghost u: nat, ghost look: nat -> Option<Header>) returns (r: Parsed<Header>)
      requires BehindIndex(cur, prefix, 0, u)
      modifies cur, this`buffer
      ensures Valid() && cur.Valid()
      ensures LiteralDone(env, look, prefix, old(cur.bytes), r, cur.bytes, cur.pos, buffer)
    {
      ghost var s := cur.bytes;
      var parts := SpelledLiteral(cur);
      if parts.Fault? {
        SpelledFails(env, look, s, prefix, u, parts.error, cur.pos, buffer);
        return Fault(parts.error);
      }
      SpelledDone(env, look, s, prefix, u, parts, cur.bytes, cur.pos);
      r := NewHeader(env, parts.value.0, parts.value.1);
    }

    method NameFromTable(cur: Cursor, ghost prefix: nat, ghost idx: nat, ghost u: nat, e: Header,
                         ghost look: nat -> Option<Header>) returns (r: Parsed<Header>)
      requires BehindIndex(cur, prefix, idx, u) && idx > 0 && look(idx) == Some(e)
      modifies cur, this`buffer
      ensures Valid() && cur.Valid()
      ensures LiteralDone(env, look, prefix, old(cur.bytes), r, cur.bytes, cur.pos, buffer)
    {
      ghost var s := cur.bytes;
      var value := DecodeString(cur);
      if value.Fault? {
        NamedFails(env, look, s, prefix, idx, u, e, value.error, cur.pos, buffer);
        return Fault(value.error);
      }
      NamedMade(env, look, s, prefix, idx, u, e, value.value, value.used, cur.bytes, cur.pos);
      r := IntoEntry(env, e.name, value.value);
    }

    /** One turn of the loop of src/hpack/decoder.rs:209-258. */
    method DecodeNext(cur: Cursor, ty: Byte, canResize: bool) returns (h: Option<Header>, error: Option<DecoderError>)
      requires Valid() && cur.Valid() && cur.pos == 0 && buffer == []
      requires |cur.bytes| > 0 && ty == cur.bytes[0]
      modifies cur, this`buffer, table
      ensures Valid() && cur.Valid()
      ensures error.None? ==> cur.pos == 0 && buffer == []
      ensures StepDone(env, old(table.Contents()), lastMaxUpdate, canResize, old(cur.bytes), h, error, table.Contents(), cur.bytes)
    {
      h, error := None, None;
      assert cur.Left() == cur.bytes;
      match LoadRepresentation(ty) {
        case IndexedField =>
          var index := cur.Int(7);
          if !index.IntOk? {
            return None, Some(IntError(index));
          }
          var entry := table.Get(index.value);
          if entry.None? {
            return None, Some(InvalidTableIndex);
          }
          cur.Consume();
          h := entry;
        case LiteralIndexed =>
          var entry := DecodeLiteral(cur, true);
          if entry.Fault? {
            return None, Some(entry.error);
          }
          table.Insert(entry.value);
          cur.Consume();
          h := Some(entry.value);
        case LiteralPlain =>
          var entry := DecodeLiteral(cur, false);
          if entry.Fault? {
            return None, Some(entry.error);
          }
          cur.Consume();
          h := Some(entry.value);
        case LiteralNever =>
          var entry := DecodeLiteral(cur, false);
          if entry.Fault? {
            return None, Some(entry.error);
          }
          cur.Consume();
          h := Some(entry.value);
        case SizeUpdateField =>
          if !canResize {
            return None, Some(InvalidMaxDynamicSize);
          }
          error := ProcessSizeUpdate(cur);
          if error.Some? {
            return None, error;
          }
          cur.Consume();
      }
    }

    /** src/hpack/decoder.rs:263-279 */
    method ProcessSizeUpdate(cur: Cursor) returns (error: Option<DecoderError>)
      requires Valid() && cur.Valid()
      modifies cur`pos, table
      ensures Valid() && cur.Valid()
      ensures match DecodeInt(old(cur.Left()), 5)
              case IntOk(size, u) =>
                if size > lastMaxUpdate then error == Some(InvalidMaxDynamicSize) && table.Contents() == old(table.Contents())
                else error.None? && table.Contents() == Resize(old(table.Contents()), size) && cur.Left() == old(cur.Left())[u..]
              case e => error == Some(IntError(e)) && table.Contents() == old(table.Contents())
    {
      var size := cur.Int(5);
      if !size.IntOk? {
        return Some(IntError(size));
      }
      if size.value > lastMaxUpdate {
        return Some(InvalidMaxDynamicSize);
      }
      table.SetMaxSize(size.value);
      error := None;
    }

    /** src/hpack/decoder.rs:196-261.  The callback's headers are collected in order. */
    method Decode(cur: Cursor) returns (headers: seq<Header>, error: Option<DecoderError>)
      requires Valid() && cur.Valid() && cur.pos == 0 && buffer == []
      modifies cur, this`buffer, this`maxSizeUpdate, this`lastMaxUpdate, table
      ensures Valid() && cur.Valid() && maxSizeUpdate.None?
      ensures lastMaxUpdate == if old(maxSizeUpdate).Some? then old(maxSizeUpdate).value else old(lastMaxUpdate)
      ensures DecodeBlock(env, old(table.Contents()), lastMaxUpdate, true, old(cur.bytes))
                == Decoded(headers, table.Contents(), cur.bytes, error)
      ensures error.None? ==> buffer == []
    {
      var canResize := true;
      if maxSizeUpdate.Some? {
        lastMaxUpdate := maxSizeUpdate.value;
        maxSizeUpdate := None;
      }
      headers, error := [], None;
      ghost var s, t := cur.bytes, table.Contents();
      NothingYet(env, t, lastMaxUpdate, s);
      while |cur.bytes| > 0
        invariant Valid() && cur.Valid() && cur.pos == 0 && buffer == []
        invariant Comes(env, t, lastMaxUpdate, s, headers, table.Contents(), canResize, cur.bytes)
        invariant error.None?
        invariant maxSizeUpdate.None? && lastMaxUpdate == if old(maxSizeUpdate).Some? then old(maxSizeUpdate).value else old(lastMaxUpdate)
        decreases |cur.bytes|
      {
        var ty := cur.bytes[0];
        ghost var left, table0 := cur.bytes, table.Contents();
        var h;
        h, error := DecodeNext(cur, ty, canResize);
        if error.Some? {
          FailsHere(env, t, lastMaxUpdate, s, headers, table0, canResize, left, h, error, table.Contents(), cur.bytes);
          return;
        }
        GoesOn(env, t, lastMaxUpdate, s, headers, table0, canResize, left, h, table.Contents(), cur.bytes);
        if LoadRepresentation(ty) != SizeUpdateField {
          canResize := false;
        }
        if h.Some? {
          headers := headers + [h.value];
        }
      }
      assert cur.bytes == [];
      EndsHere(env, t, lastMaxUpdate, s, headers, table.Contents(), canResize);
    }
  }

  method ConsumeBoth(name: StringMarker, value: StringMarker, cur: Cursor, ghost env: Env, ghost a: nat, ghost b: nat)
    returns (n: seq<Byte>, v: seq<Byte>)
    requires cur.Valid() && ParseString(env, cur.Left()).Good? && a <= |cur.Left()| && ParseString(env, cur.Left()[a..]).Good?
    requires Marks(env, name, cur.Left(), ParseString(env, cur.Left()).value, a)
    requires Marks(env, value, cur.Left()[a..], ParseString(env, cur.Left()[a..]).value, b)
    modifies cur
    ensures cur.Valid()
    ensures n == ParseString(env, old(cur.Left())).value && v == ParseString(env, old(cur.Left())[a..]).value
    ensures TwiceOff(cur.bytes, cur.pos, old(cur.bytes), old(cur.pos), a, b)
  {
    ghost var s := cur.Left();
    n := ConsumeMarker(name, cur, env, ParseString(env, s).value, a);
    v := ConsumeMarker(value, cur, env, ParseString(env, s[a..]).value, b);
  }

  // ----- what the steps come to --------------------------------------------------------

  ghost predicate LiteralDone(env: Env, look: nat -> Option<Header>, prefix: nat, s: seq<Byte>, r: Parsed<Header>,
                              bytes: seq<Byte>, pos: nat, buffer: seq<Byte>)
  {
    match ParseLiteral(env, look, s, prefix)
    case Literal(made, used) =>
      && r == made && buffer == []
      && |s| > 0 && bytes == s[TakenOff(env, s)..]
      && pos <= |bytes| && bytes[pos..] == s[used..]
    case NoLiteral(e) => r == Fault(e) && bytes == s && (e != InvalidHuffmanCode ==> buffer == [])
  }

  ghost predicate StepDone(env: Env, t: DynTable, limit: nat, can: bool, s: seq<Byte>,
                           h: Option<Header>, error: Option<DecoderError>, t': DynTable, bytes: seq<Byte>)
    requires |s| > 0
  {
    match ParseStep(env, Lookup(t), limit, can, s)
    case Emit(x, insert, u) => error.None? && h == Some(x) && t' == (if insert then Insert(t, x) else t) && bytes == s[u..]
    case NewLimit(size, u) => error.None? && h.None? && t' == Resize(t, size) && bytes == s[u..]
    case Broken(e) => error == Some(e) && h.None? && t' == t && bytes == s[TakenOff(env, s)..]
    case Stuck(e) => error == Some(e) && h.None? && t' == t && bytes == s
  }

  /** Decoding s comes to the headers so far, then to decoding what is left. */
  ghost predicate Comes(env: Env, t0: DynTable, limit: nat, s0: seq<Byte>,
                        headers: seq<Header>, t: DynTable, can: bool, s: seq<Byte>)
  {
    match headers
    case headers => DecodeBlock(env, t0, limit, true, s0) == Put(headers, DecodeBlock(env, t, limit, can, s))
  }

  lemma NothingYet(env: Env, t: DynTable, limit: nat, s: seq<Byte>)
    ensures Comes(env, t, limit, s, [], t, true, s)
  {
    AddsNothing(DecodeBlock(env, t, limit, true, s));
  }

  lemma EndsHere(env: Env, t0: DynTable, limit: nat, s0: seq<Byte>, headers: seq<Header>, t: DynTable, can: bool)
    requires Comes(env, t0, limit, s0, headers, t, can, [])
    ensures DecodeBlock(env, t0, limit, true, s0) == Decoded(headers, t, [], None)
  {
    assert headers + [] == headers;
  }

  lemma FailsHere(env: Env, t0: DynTable, limit: nat, s0: seq<Byte>, headers: seq<Header>, t: DynTable, can: bool, s: seq<Byte>,
                  h: Option<Header>, error: Option<DecoderError>, t': DynTable, bytes: seq<Byte>)
    requires |s| > 0 && Comes(env, t0, limit, s0, headers, t, can, s) && error.Some?
    requires StepDone(env, t, limit, can, s, h, error, t', bytes)
    ensures DecodeBlock(env, t0, limit, true, s0) == Decoded(headers, t', bytes, error)
  {
    assert headers + [] == headers;
  }

  lemma GoesOn(env: Env, t0: DynTable, limit: nat, s0: seq<Byte>, headers: seq<Header>, t: DynTable, can: bool, s: seq<Byte>,
               h: Option<Header>, t': DynTable, bytes: seq<Byte>)
    requires |s| > 0 && Comes(env, t0, limit, s0, headers, t, can, s)
    requires StepDone(env, t, limit, can, s, h, None, t', bytes)
    ensures |bytes| < |s|
    ensures LoadRepresentation(s[0]) == SizeUpdateField <==> h.None?
    ensures Comes(env, t0, limit, s0, if h.Some? then headers + [h.value] else headers, t', h.None? && can, bytes)
  {
    var d := DecodeBlock(env, t', limit, h.None? && can, bytes);
    if h.Some? {
      assert headers + ([h.value] + d.headers) == headers + [h.value] + d.headers;
    }
  }

  predicate LiteralPrefix(s: seq<Byte>, prefix: nat) {
    |s| > 0 && prefix == if LoadRepresentation(s[0]) == LiteralIndexed then 6 else 4
  }

  /** A name and a value that are there, and what is gone of the source with them. */
  lemma SpelledMade(env: Env, look: nat -> Option<Header>, s: seq<Byte>, prefix: nat, u: nat, n: nat, m: nat, bytes: seq<Byte>, pos: nat)
    requires LiteralPrefix(s, prefix) && DecodeInt(s, prefix) == IntOk(0, u) && u <= |s|
    requires ParseString(env, s[u..]).Good? && ParseString(env, s[u..]).used == n
    requires ParseString(env, s[u..][n..]).Good? && ParseString(env, s[u..][n..]).used == m
    requires TwiceOff(bytes, pos, s, u, n, m)
    ensures ParseLiteral(env, look, s, prefix) ==
              Literal(NewHeader(env, ParseString(env, s[u..]).value, ParseString(env, s[u..][n..]).value), u + n + m)
    ensures bytes == s[TakenOff(env, s)..] && pos <= |bytes| && bytes[pos..] == s[u + n + m..]
  {
    assert s[u..][n..] == s[u + n..];
    SpelledOut(env, look, s, prefix, u, n, s[u..], s[u + n..]);
    TakenTwice(env, s, prefix, u, n, m, bytes, pos);
  }

  lemma TakenTwice(env: Env, s: seq<Byte>, prefix: nat, u: nat, n: nat, m: nat, bytes: seq<Byte>, pos: nat)
    requires LiteralPrefix(s, prefix) && DecodeInt(s, prefix) == IntOk(0, u) && u + n <= |s|
    requires StringLength(env, s[u..]) == n && StringLength(env, s[u + n..]) == m
    requires TwiceOff(bytes, pos, s, u, n, m)
    ensures bytes == s[TakenOff(env, s)..] && pos <= |bytes| && bytes[pos..] == s[u + n + m..]
  {
    TakenOffIs(env, s, prefix, u, n, m);
    OffTwice(s, u, n, m, bytes, pos);
  }

  lemma TakenOffIs(env: Env, s: seq<Byte>, prefix: nat, u: nat, n: nat, m: nat)
    requires LiteralPrefix(s, prefix) && DecodeInt(s, prefix) == IntOk(0, u) && u + n + m <= |s| && n > 0 && m > 0
    requires StringLength(env, s[u..]) == n && StringLength(env, s[u + n..]) == m
    ensures TakenOff(env, s) == if s[u + n] < 128 then u + n + m else if s[u] < 128 then u + n else 0
  {
    PlainlyIs(env, s, u, n, 0);
    PlainlyIs(env, s, u + n, m, Plainly(env, s, u, 0));
  }

  lemma PlainlyIs(env: Env, s: seq<Byte>, u: nat, n: nat, before: nat)
    requires 0 < n && u + n <= |s| && before <= |s| && StringLength(env, s[u..]) == n
    ensures Plainly(env, s, u, before) == if s[u] < 128 then u + n else before
  {
  }

  lemma OffTwice(s: seq<Byte>, u: nat, n: nat, m: nat, bytes: seq<Byte>, pos: nat)
    requires TwiceOff(bytes, pos, s, u, n, m)
    ensures pos <= |bytes| && bytes[pos..] == s[u + n + m..]
    ensures bytes == s[if s[u + n] < 128 then u + n + m else if s[u] < 128 then u + n else 0..]
  {
  }

  lemma NamedMade(env: Env, look: nat -> Option<Header>, s: seq<Byte>, prefix: nat, idx: nat, u: nat,
                  e: Header, v: seq<Byte>, n: nat, bytes: seq<Byte>, pos: nat)
    requires LiteralPrefix(s, prefix) && DecodeInt(s, prefix) == IntOk(idx, u) && idx > 0 && u <= |s|
    requires look(idx) == Some(e) && ParseString(env, s[u..]) == Good(v, n)
    requires Off(bytes, pos, s, u, n, s[u..][0] < 128)
    ensures LiteralDone(env, look, prefix, s, IntoEntry(env, e.name, v), bytes, pos, [])
  {
    assert TakenOff(env, s) == Plainly(env, s, u, 0);
  }

  lemma NamedFails(env: Env, look: nat -> Option<Header>, s: seq<Byte>, prefix: nat, idx: nat, u: nat, e: Header, error: DecoderError, pos: nat, buffer: seq<Byte>)
    requires DecodeInt(s, prefix) == IntOk(idx, u) && idx > 0 && u <= |s|
    requires look(idx) == Some(e) && ParseString(env, s[u..]) == Fault(error)
    requires error != InvalidHuffmanCode ==> buffer == []
    ensures LiteralDone(env, look, prefix, s, Fault(error), s, pos, buffer)
  {
  }

  /** The same in terms of what was read. */
  lemma SpelledDone(env: Env, look: nat -> Option<Header>, s: seq<Byte>, prefix: nat, u: nat,
                    parts: Parsed<(seq<Byte>, seq<Byte>)>, bytes: seq<Byte>, pos: nat)
    requires LiteralPrefix(s, prefix) && DecodeInt(s, prefix) == IntOk(0, u) && u <= |s| && parts.Good?
    requires match ParseString(env, s[u..])
             case Fault(_) => false
             case Good(n, a) =>
               match ParseString(env, s[u..][a..])
               case Fault(_) => false
               case Good(v, b) => parts == Good((n, v), a + b) && TwiceOff(bytes, pos, s, u, a, b)
    ensures LiteralDone(env, look, prefix, s, NewHeader(env, parts.value.0, parts.value.1), bytes, pos, [])
  {
    var n := ParseString(env, s[u..]).used;
    SpelledMade(env, look, s, prefix, u, n, ParseString(env, s[u..][n..]).used, bytes, pos);
  }

  lemma SpelledFails(env: Env, look: nat -> Option<Header>, s: seq<Byte>, prefix: nat, u: nat, e: DecoderError, pos: nat, buffer: seq<Byte>)
    requires DecodeInt(s, prefix) == IntOk(0, u) && u <= |s|
    requires match ParseString(env, s[u..])
             case Fault(e') => e == e'
             case Good(_, n) => ParseString(env, s[u..][n..]) == Fault(e)
    requires e != InvalidHuffmanCode ==> buffer == []
    ensures LiteralDone(env, look, prefix, s, Fault(e), s, pos, buffer)
  {
    var name := ParseString(env, s[u..]);
    if name.Good? {
      assert s[u..][name.used..] == s[u + name.used..];
      SpelledOut(env, look, s, prefix, u, name.used, s[u..], s[u + name.used..]);
    } else {
      SpelledOut(env, look, s, prefix, u, 0, s[u..], []);
    }
  }

  /** A string of n octets is behind: cut off the source with all before it if it was
      plain, passed over if it was Huffman-coded. */
  ghost predicate Off(bytes: seq<Byte>, pos: nat, bytes0: seq<Byte>, pos0: nat, n: nat, plain: bool) {
    match bytes0
    case bytes0 =>
      && pos0 + n <= |bytes0|
      && if plain then bytes == bytes0[pos0 + n..] && pos == 0 else bytes == bytes0 && pos == pos0 + n
  }

  ghost predicate TwiceOff(bytes: seq<Byte>, pos: nat, bytes0: seq<Byte>, pos0: nat, n: nat, m: nat) {
    match bytes0
    case bytes0 =>
      && n > 0 && m > 0 && pos0 + n + m <= |bytes0|
      && var first := bytes0[pos0] < 128;
         Off(bytes, pos, if first then bytes0[pos0 + n..] else bytes0, if first then 0 else pos0 + n, m, bytes0[pos0 + n] < 128)
  }

  /** src/hpack/decoder.rs:470-482 */
  method ConsumeMarker(m: StringMarker, cur: Cursor, ghost env: Env, ghost v: seq<Byte>, ghost used: nat) returns (r: seq<Byte>)
    requires cur.Valid() && Marks(env, m, cur.Left(), v, used)
    modifies cur
    ensures cur.Valid() && r == v
    ensures used <= |old(cur.Left())| && cur.Left() == old(cur.Left())[used..]
    ensures Off(cur.bytes, cur.pos, old(cur.bytes), old(cur.pos), used, old(cur.Left())[0] < 128)
  {
    SliceOfRest(cur.bytes, cur.pos, m.offset, m.len);
    DropOfRest(cur.bytes, cur.pos, used);
    cur.pos := cur.pos + m.offset;
    DropOfRest(cur.bytes, cur.pos, m.len);
    match m.decoded {
      case Some(v) =>
        cur.pos := cur.pos + m.len;
        r := v;
      case None =>
        r := cur.Take(m.len);
    }
  }

  lemma SliceOfRest(bytes: seq<Byte>, pos: nat, offset: nat, len: nat)
    requires pos + offset + len <= |bytes|
    ensures bytes[pos..][offset..offset + len] == bytes[pos + offset..pos + offset + len]
  {
  }

  lemma DropOfRest(bytes: seq<Byte>, pos: nat, n: nat)
    requires pos + n <= |bytes|
    ensures bytes[pos..][n..] == bytes[pos + n..]
  {
  }

  lemma StringParts(env: Env, s: seq<Byte>, len: nat, used: nat, raw: seq<Byte>)
    requires |s| > 0 && DecodeInt(s, 7) == IntOk(len, used) && used + len <= |s| && raw == s[used..used + len]
    ensures s[0] < 128 ==> ParseString(env, s) == Good(raw, used + len)
    ensures s[0] >= 128 ==> ParseString(env, s) == match HuffDecode(env.code, raw)
                                                  case Some(v) => Good(v, used + len)
                                                  case None => Fault(InvalidHuffmanCode)
  {
  }
}
