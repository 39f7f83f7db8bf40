/** The accumulator and the automaton of src/hpack/huffman/mod.rs, proved against the
    bit lists of HuffmanCode. */
module Huffman {
  import opened Prelude
  import opened HpackInt
  import opened HuffmanCode

  // ----- encoding: 40 bits of accumulator in a 64-bit word --------------------------

  /** The low forty bits hold the pending bits, left-aligned; above them is what has been
      written out already. */
  ghost predicate Accumulates(bits: nat, pending: seq<bool>) {
    match (bits, pending)
    case (bits, pending) =>
      && |pending| <= 40
      && bits < 0x1_0000_0000_0000_0000
      && bits % 0x100_0000_0000 == Shl(Val(pending), 40 - |pending|)
  }

  lemma {:induction false} ShlMono(v: nat, w: nat, k: nat)
    requires v <= w
    ensures Shl(v, k) <= Shl(w, k)
  {
    if k > 0 {
      ShlMono(v, w, k - 1);
    }
  }

  /** A bit list followed by n zeros, as a number. */
  lemma ShiftedBound(x: seq<bool>, n: nat)
    ensures Shl(Val(x), n) + Pow2(n) <= Pow2(|x| + n)
  {
    ValBound(x);
    ShlAdd(Val(x), 1, n);
    ShlOne(n);
    ShlOne(|x|);
    ShlMono(Val(x) + 1, Shl(1, |x|), n);
    ShlShl(1, |x|, n);
    ShlOne(|x| + n);
  }

  lemma ShiftedConcat(x: seq<bool>, y: seq<bool>, n: nat)
    ensures Shl(Val(x + y), n) == Shl(Val(x), |y| + n) + Shl(Val(y), n)
  {
    ValConcat(x, y);
    ShlAdd(Shl(Val(x), |y|), Val(y), n);
    ShlShl(Val(x), |y|, n);
  }

  lemma AddLow(bits: nat, x: nat, y: nat)
    requires bits < 0x1_0000_0000_0000_0000 && bits % 0x100_0000_0000 == x && x + y < 0x100_0000_0000
    ensures bits + y < 0x1_0000_0000_0000_0000 && (bits + y) % 0x100_0000_0000 == x + y
  {
  }

  /** `bits |= code << (bits_left - nbits)`: the bits it sets are clear, so it adds. */
  lemma AccumulatorTakes(bits: nat, pending: seq<bool>, code: seq<bool>)
    requires Accumulates(bits, pending) && |pending| + |code| <= 40
    ensures Accumulates(bits + Shl(Val(code), 40 - |pending| - |code|), pending + code)
  {
    var left := 40 - |pending| - |code|;
    AccumulatedValue(bits, pending);
    PendingTakes(pending, code, left);
    AddLow(bits, Shl(Val(pending), 40 - |pending|), Shl(Val(code), left));
    Accumulated(bits + Shl(Val(code), left), pending + code);
  }

  lemma PendingTakes(pending: seq<bool>, code: seq<bool>, left: nat)
    requires |pending| + |code| + left == 40
    ensures Shl(Val(pending), 40 - |pending|) + Shl(Val(code), left) == Shl(Val(pending + code), left) < 0x100_0000_0000
  {
    ShiftedConcat(pending, code, left);
    ShiftedBound(pending + code, left);
    LargePowersOfTwo();
  }

  lemma AccumulatedValue(bits: nat, pending: seq<bool>)
    requires Accumulates(bits, pending)
    ensures |pending| <= 40 && bits < 0x1_0000_0000_0000_0000
    ensures bits % 0x100_0000_0000 == Shl(Val(pending), 40 - |pending|)
  {
  }

  lemma Accumulated(bits: nat, pending: seq<bool>)
    requires |pending| <= 40 && bits < 0x1_0000_0000_0000_0000
    requires bits % 0x100_0000_0000 == Shl(Val(pending), 40 - |pending|)
    ensures Accumulates(bits, pending)
  {
  }

  /** The top octet of the accumulator is the first eight pending bits. */
  lemma AccumulatorGives(bits: nat, pending: seq<bool>)
    requires Accumulates(bits, pending) && |pending| >= 8
    ensures bits / 0x1_0000_0000 % 256 == Val(pending[..8]) < 256
    ensures Accumulates(bits * 256 % 0x1_0000_0000_0000_0000, pending[8..])
  {
    var left := 40 - |pending|;
    var first, later := pending[..8], pending[8..];
    assert pending == first + later;
    ShiftedConcat(first, later, left);
    ShiftedBound(later, left);
    LargePowersOfTwo();
    EightBits(first);
    ShlByTwo32(Val(first));
    ShlByEight(Val(later), left);
    ShiftOut(bits, Val(first), Shl(Val(later), left));
  }

  lemma ShlByEight(v: nat, n: nat)
    ensures Shl(v, n + 8) == 256 * Shl(v, n)
  {
    assert Shl(v, n + 2) == 4 * Shl(v, n);
    assert Shl(v, n + 4) == 4 * Shl(v, n + 2);
    assert Shl(v, n + 6) == 4 * Shl(v, n + 4);
    assert Shl(v, n + 8) == 4 * Shl(v, n + 6);
  }

  lemma ShlByTwo32(v: nat)
    ensures Shl(v, 32) == v * 0x1_0000_0000
  {
    ShlByEight(v, 0);
    ShlByEight(v, 8);
    ShlByEight(v, 16);
    ShlByEight(v, 24);
  }

  lemma ShiftOut(bits: nat, h: nat, low: nat)
    requires h < 256 && low < 0x1_0000_0000
    requires bits % 0x100_0000_0000 == h * 0x1_0000_0000 + low
    ensures bits / 0x1_0000_0000 % 256 == h
    ensures bits * 256 % 0x1_0000_0000_0000_0000 % 0x100_0000_0000 == low * 256
  {
    var q := bits / 0x100_0000_0000;
    assert bits == q * 0x100_0000_0000 + h * 0x1_0000_0000 + low;
    assert bits / 0x1_0000_0000 == q * 256 + h;
    KeepLow(q * 256 + h, low);
  }

  lemma KeepLow(n: nat, low: nat)
    requires low < 0x1_0000_0000
    ensures (n * 0x100_0000_0000 + low * 256) % 0x1_0000_0000_0000_0000 % 0x100_0000_0000 == low * 256
  {
    var top, rest := n / 0x100_0000, n % 0x100_0000;
    assert n == top * 0x100_0000 + rest;
    var word := rest * 0x100_0000_0000 + low * 256;
    assert n * 0x100_0000_0000 + low * 256 == top * 0x1_0000_0000_0000_0000 + word;
    assert word < 0x1_0000_0000_0000_0000;
  }

  lemma PackFirst(first: seq<bool>, more: seq<bool>)
    requires |first| == 8
    ensures Val(first) < 256 && Pack(first + more) == [Val(first)] + Pack(more)
  {
    EightBits(first);
    assert (first + more)[..8] == first && (first + more)[8..] == more;
  }

  /** What is still to be written after some octets: the pending bits, then the codes of
      the rest, then the padding. */
  function Rest(t: Tree, pending: seq<bool>, s: seq<Byte>): (r: seq<Byte>) {
    PackPadded(pending + CodesOf(t, s))
  }

  function PackPadded(bits: seq<bool>): (r: seq<Byte>) {
    Pack(bits + Ones(Padding(|bits|)))
  }

  lemma PackPaddedFirst(first: seq<bool>, later: seq<bool>)
    requires |first| == 8
    ensures Val(first) < 256 && PackPadded(first + later) == [Val(first)] + PackPadded(later)
  {
    var k := Padding(|later|);
    PaddingOctet(|later|);
    assert first + later + Ones(k) == first + (later + Ones(k));
    PackFirst(first, later + Ones(k));
  }

  lemma PaddingOctet(n: nat)
    ensures Padding(8 + n) == Padding(n)
  {
  }

  lemma RestWrites(t: Tree, pending: seq<bool>, s: seq<Byte>)
    requires |pending| >= 8
    ensures Val(pending[..8]) < 256
    ensures Rest(t, pending, s) == [Val(pending[..8])] + Rest(t, pending[8..], s)
  {
    PackPaddedFirst(pending[..8], pending[8..] + CodesOf(t, s));
    assert pending + CodesOf(t, s) == pending[..8] + (pending[8..] + CodesOf(t, s));
  }

  lemma RestTakes(t: Tree, pending: seq<bool>, s: seq<Byte>)
    requires |s| > 0
    ensures Rest(t, pending, s) == Rest(t, pending + CodeOf(t, s[0]), s[1..])
  {
    assert pending + CodesOf(t, s) == pending + CodeOf(t, s[0]) + CodesOf(t, s[1..]);
  }

  lemma RestEnds(t: Tree, pending: seq<bool>)
    requires |pending| < 8
    ensures |pending| == 0 ==> Rest(t, pending, []) == []
    ensures |pending| > 0 ==> Val(pending + Ones(8 - |pending|)) < 256
                              && Rest(t, pending, []) == [Val(pending + Ones(8 - |pending|))]
  {
    assert pending + CodesOf(t, []) == pending;
    if |pending| > 0 {
      PackPaddedLast(pending);
    }
  }

  lemma PackPaddedLast(bits: seq<bool>)
    requires 0 < |bits| < 8
    ensures Val(bits + Ones(8 - |bits|)) < 256
    ensures PackPadded(bits) == [Val(bits + Ones(8 - |bits|))]
  {
    PackOctet(bits + Ones(8 - |bits|));
    PaddingLast(|bits|);
  }

  lemma PaddingLast(n: nat)
    requires 0 < n < 8
    ensures Padding(n) == 8 - n
  {
  }

  lemma PackOctet(bits: seq<bool>)
    requires |bits| == 8
    ensures Val(bits) < 256 && Pack(bits) == [Val(bits)]
  {
    PackFirst(bits, []);
    assert bits + [] == bits;
  }

  /** (number of bits, bits) of an octet, as in ENCODE_TABLE. */
  function TableEntry(t: Tree, b: Byte): (r: (nat, nat)) {
    (|CodeOf(t, b)|, Val(CodeOf(t, b)))
  }

  /** One octet leaves the accumulator. */
  method PutTop(t: Tree, bits0: nat, dst0: seq<Byte>, ghost pending: seq<bool>, ghost s: seq<Byte>)
    returns (bits: nat, dst: seq<Byte>)
    requires Accumulates(bits0, pending) && |pending| >= 8
    ensures Accumulates(bits, pending[8..])
    ensures dst + Rest(t, pending[8..], s) == dst0 + Rest(t, pending, s)
  {
    AccumulatorGives(bits0, pending);
    RestWrites(t, pending, s);
    dst := dst0 + [bits0 / 0x1_0000_0000 % 256];
    bits := bits0 * 256 % 0x1_0000_0000_0000_0000;
  }

  /** src/hpack/huffman/mod.rs:53-58: whole octets leave the accumulator. */
  method Flush(t: Tree, bits0: nat, bitsLeft0: nat, dst0: seq<Byte>, ghost pending0: seq<bool>, ghost s: seq<Byte>)
    returns (bits: nat, bitsLeft: nat, dst: seq<Byte>, ghost pending: seq<bool>)
    requires Accumulates(bits0, pending0) && |pending0| + bitsLeft0 == 40
    ensures Accumulates(bits, pending) && |pending| + bitsLeft == 40 && |pending| < 8
    ensures dst + Rest(t, pending, s) == dst0 + Rest(t, pending0, s)
  {
    bits, bitsLeft, dst, pending := bits0, bitsLeft0, dst0, pending0;
    while bitsLeft <= 32
      invariant Accumulates(bits, pending) && |pending| + bitsLeft == 40
      invariant dst + Rest(t, pending, s) == dst0 + Rest(t, pending0, s)
      decreases |pending|
    {
      bits, dst := PutTop(t, bits, dst, pending, s);
      bitsLeft := bitsLeft + 8;
      pending := pending[8..];
    }
  }

  /** src/hpack/huffman/mod.rs:47-51: the code of one octet joins the accumulator. */
  method Take(t: Tree, b: Byte, bits0: nat, bitsLeft0: nat, ghost pending: seq<bool>, ghost s: seq<Byte>)
    returns (bits: nat, bitsLeft: nat)
    requires WellFormed(t) && |s| > 0 && s[0] == b
    requires Accumulates(bits0, pending) && |pending| + bitsLeft0 == 40 && |pending| < 8
    ensures Accumulates(bits, pending + CodeOf(t, b)) && |pending + CodeOf(t, b)| + bitsLeft == 40
    ensures Rest(t, pending + CodeOf(t, b), s[1..]) == Rest(t, pending, s)
  {
    var (nbits, code) := TableEntry(t, b);
    AccumulatorTakes(bits0, pending, CodeOf(t, b));
    RestTakes(t, pending, s);
    bits := bits0 + Shl(code, bitsLeft0 - nbits);
    bitsLeft := bitsLeft0 - nbits;
  }

  /** src/hpack/huffman/mod.rs:43-66 */
  method Encode(t: Tree, src: seq<Byte>, dst0: seq<Byte>) returns (dst: seq<Byte>)
    requires WellFormed(t)
    ensures dst == dst0 + HuffEncode(t, src)
  {
    var bits: nat, bitsLeft: nat := 0, 40;
    dst := dst0;
    ghost var pending: seq<bool> := [];
    NothingPending(t, src);
    var i: nat := 0;
    assert src[i..] == src;
    while i < |src|
      invariant i <= |src| && |pending| + bitsLeft == 40 && |pending| < 8
      invariant Accumulates(bits, pending)
      invariant dst + Rest(t, pending, src[i..]) == dst0 + HuffEncode(t, src)
    {
      bits, bitsLeft := Take(t, src[i], bits, bitsLeft, pending, src[i..]);
      pending := pending + CodeOf(t, src[i]);
      assert src[i..][1..] == src[i + 1..];
      i := i + 1;
      bits, bitsLeft, dst, pending := Flush(t, bits, bitsLeft, dst, pending, src[i..]);
    }
    assert src[i..] == [];
    dst := PutPadded(t, bits, bitsLeft, dst, pending);
  }

  /** src/hpack/huffman/mod.rs:61-65 */
  method PutPadded(t: Tree, bits: nat, bitsLeft: nat, dst0: seq<Byte>, ghost pending: seq<bool>) returns (dst: seq<Byte>)
    requires Accumulates(bits, pending) && |pending| + bitsLeft == 40 && |pending| < 8
    ensures dst == dst0 + Rest(t, pending, [])
  {
    RestEnds(t, pending);
    dst := dst0;
    if bitsLeft != 40 {
      PadAccumulator(bits, pending);
      dst := dst + [(bits + (Shl(1, bitsLeft) - 1)) / 0x1_0000_0000 % 256];
    }
  }

  lemma {:induction false} ShlZero(k: nat)
    ensures Shl(0, k) == 0
  {
    if k > 0 {
      ShlZero(k - 1);
    }
  }

  lemma NothingPending(t: Tree, s: seq<Byte>)
    ensures Accumulates(0, []) && Rest(t, [], s) == HuffEncode(t, s)
  {
    assert [] + CodesOf(t, s) == CodesOf(t, s);
    ShlZero(40);
  }

  lemma {:induction false} ValOnes(k: nat)
    ensures Val(Ones(k)) == Shl(1, k) - 1
  {
    if k > 0 {
      ValOnes(k - 1);
      assert Ones(k)[..k - 1] == Ones(k - 1);
    }
  }

  /** `bits |= (1 << bits_left) - 1` */
  lemma PadAccumulator(bits: nat, pending: seq<bool>)
    requires Accumulates(bits, pending) && 0 < |pending| < 8
    ensures Shl(1, 40 - |pending|) >= 1
    ensures (bits + (Shl(1, 40 - |pending|) - 1)) / 0x1_0000_0000 % 256 == Val(pending + Ones(8 - |pending|)) < 256
  {
    var left := 40 - |pending|;
    PaddingJoins(bits, pending, left);
    AccumulatorGives(bits + (Shl(1, left) - 1), pending + Ones(left));
    PaddedOctet(pending, left);
  }

  lemma PaddingJoins(bits: nat, pending: seq<bool>, left: nat)
    requires Accumulates(bits, pending) && |pending| + left == 40
    ensures Shl(1, left) >= 1 && Accumulates(bits + (Shl(1, left) - 1), pending + Ones(left))
  {
    ValOnes(left);
    assert |Ones(left)| == left && Shl(Val(Ones(left)), 0) == Val(Ones(left));
    AccumulatorTakes(bits, pending, Ones(left));
  }

  lemma PaddedOctet(pending: seq<bool>, left: nat)
    requires 0 < |pending| < 8 && left >= 8
    ensures (pending + Ones(left))[..8] == pending + Ones(8 - |pending|)
  {
  }

  // ----- decoding: four bits at a time ----------------------------------------------

  /** A row of DECODE_TABLE: next state, octet, flags. */
  datatype Row = Row(next: nat, byte: Byte, flags: Byte)

  predicate MaybeEos(flags: Byte) { flags % 2 == 1 }
  predicate Decoded(flags: Byte) { flags / 2 % 2 == 1 }
  predicate Error(flags: Byte) { flags / 4 % 2 == 1 }

  /** A decode table, and for each of its states the bits read since the last symbol. */
  datatype Automaton = Automaton(table: seq<seq<Row>>, paths: seq<seq<bool>>)

  /** One row walks the code for four bits: the premise on the 4096 generated rows. */
  ghost predicate RowWalks(t: Tree, a: Automaton, state: nat, nibble: nat)
    requires |a.table| == |a.paths| && state < |a.table| && |a.table[state]| == 16 && nibble < 16
  {
    var row := a.table[state][nibble];
    match RunBits(t, a.paths[state], BitsOf(nibble, 4))
    case Bad => Error(row.flags)
    case Run(out, path) =>
      && !Error(row.flags)
      && row.next < |a.paths| && a.paths[row.next] == path
      && out == (if Decoded(row.flags) then [row.byte] else [])
      && (MaybeEos(row.flags) <==> path != [] && IsPadding(path))
  }

  ghost predicate Walks(t: Tree, a: Automaton) {
    && 0 < |a.table| == |a.paths|
    && (forall s :: 0 <= s < |a.table| ==> |a.table[s]| == 16)
    && (forall s :: 0 <= s < |a.paths| ==> (a.paths[s] == [] <==> s == 0))
    && forall s, n :: 0 <= s < |a.table| && 0 <= n < 16 ==> RowWalks(t, a, s, n)
  }

  datatype State = State(state: nat, maybeEos: bool)

  /** src/hpack/huffman/mod.rs:77-96; None is the error. */
  method Decode4(a: Automaton, st: State, input: Byte, ghost t: Tree) returns (r: Option<(State, Option<Byte>)>)
    requires Walks(t, a) && st.state < |a.table| && input < 16
    ensures match RunBits(t, a.paths[st.state], BitsOf(input, 4))
            case Bad => r.None?
            case Run(out, path) =>
              && r.Some?
              && AtPath(a, r.value.0, path)
              && out == if r.value.1.Some? then [r.value.1.value] else []
  {
    assert RowWalks(t, a, st.state, input);
    var row := a.table[st.state][input];
    if Error(row.flags) {
      return None;
    }
    r := Some((State(row.next, MaybeEos(row.flags)), if Decoded(row.flags) then Some(row.byte) else None));
  }

  /** The automaton is where the bits read since the last symbol lead. */
  ghost predicate AtPath(a: Automaton, st: State, path: seq<bool>) {
    && st.state < |a.paths|
    && a.paths[st.state] == path
    && (st.maybeEos <==> path != [] && IsPadding(path))
  }

  predicate IsFinal(st: State) {
    st.state == 0 || st.maybeEos
  }

  /** src/hpack/huffman/mod.rs:20-41: what buf held comes out in front of the string, and
      an error leaves in it what was decoded so far. */
  method Decode(a: Automaton, src: seq<Byte>, buf0: seq<Byte>, ghost t: Tree) returns (r: Option<seq<Byte>>, buf: seq<Byte>)
    requires Walks(t, a)
    ensures r == match HuffDecode(t, src)
                 case Some(s) => Some(buf0 + s)
                 case None => None
    ensures r.Some? ==> buf == []
  {
    buf := buf0;
    var st := State(0, false);
    ghost var out: seq<Byte> := [];
    var i: nat := 0;
    assert AtPath(a, st, []);
    while i < |src|
      invariant i <= |src| && buf == buf0 + out && st.state < |a.paths|
      invariant AtPath(a, st, a.paths[st.state])
      invariant RunBits(t, [], Unpack(src[..i])) == Run(out, a.paths[st.state])
    {
      var high, low := src[i] / 16, src[i] % 16;
      NextOctet(t, src, i);
      RunAppend(t, [], Unpack(src[..i]) + BitsOf(high, 4), BitsOf(low, 4));
      RunAppend(t, [], Unpack(src[..i]), BitsOf(high, 4));

      var step := Decode4(a, st, high, t);
      if step.None? {
        BadPrefix(t, src, i + 1);
        return None, buf;
      }
      st := step.value.0;
      if step.value.1.Some? {
        buf := buf + [step.value.1.value];
        out := out + [step.value.1.value];
      }
      step := Decode4(a, st, low, t);
      if step.None? {
        BadPrefix(t, src, i + 1);
        return None, buf;
      }
      st := step.value.0;
      if step.value.1.Some? {
        buf := buf + [step.value.1.value];
        out := out + [step.value.1.value];
      }
      i := i + 1;
    }
    assert src[..i] == src;
    if !IsFinal(st) {
      return None, buf;
    }
    r, buf := Some(buf), [];
  }

  lemma NextOctet(t: Tree, src: seq<Byte>, i: nat)
    requires i < |src|
    ensures Unpack(src[..i + 1]) == Unpack(src[..i]) + BitsOf(src[i] / 16, 4) + BitsOf(src[i] % 16, 4)
  {
    assert src[..i + 1] == src[..i] + [src[i]];
    UnpackConcat(src[..i], [src[i]]);
    assert Unpack([src[i]]) == BitsOf(src[i], 8) + Unpack([]);
    Nibbles(src[i]);
  }

  lemma Nibbles(b: Byte)
    ensures BitsOf(b, 8) == BitsOf(b / 16, 4) + BitsOf(b % 16, 4)
  {
    PowersOfTwo();
    var h, l := BitsOf(b / 16, 4), BitsOf(b % 16, 4);
    ValOfBits(b / 16, 4);
    ValOfBits(b % 16, 4);
    ValConcat(h, l);
    ShlByFour(Val(h));
    BitsOfVal(h + l);
  }

  lemma ShlByFour(v: nat)
    ensures Shl(v, 4) == 16 * v
  {
    assert Shl(v, 1) == 2 * v;
    assert Shl(v, 2) == 4 * v;
    assert Shl(v, 3) == 8 * v;
  }

  lemma BadPrefix(t: Tree, src: seq<Byte>, i: nat)
    requires i <= |src| && RunBits(t, [], Unpack(src[..i])).Bad?
    ensures HuffDecode(t, src).None?
  {
    assert src == src[..i] + src[i..];
    UnpackConcat(src[..i], src[i..]);
    RunAppend(t, [], Unpack(src[..i]), Unpack(src[i..]));
  }
}
