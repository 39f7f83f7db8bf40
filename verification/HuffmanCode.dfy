/** Huffman coding of section 5.2 of RFC 7541 on lists of bits: what the encoder's
    accumulator and the decoder's automaton have to agree with. */
module HuffmanCode {
  import opened Prelude
  import opened HpackInt

  /** A prefix code: the code of a symbol is the path to its leaf. */
  datatype Tree = Leaf(sym: nat) | Node(zero: Tree, one: Tree)

  const EOS: nat := 256

  function Code(t: Tree, sym: nat): (r: Option<seq<bool>>) {
    match t
    case Leaf(s) => if s == sym then Some([]) else None
    case Node(zero, one) =>
      var z := Code(zero, sym);
      if z.Some? then Some([false] + z.value)
      else
        var o := Code(one, sym);
        if o.Some? then Some([true] + o.value) else None
  }

  function Walk(t: Tree, path: seq<bool>): (r: Option<Tree>) {
    if |path| == 0 then Some(t)
    else if t.Leaf? then None
    else Walk(if path[0] then t.one else t.zero, path[1..])
  }

  function Ones(k: nat): (r: seq<bool>)
    ensures |r| == k && forall i :: 0 <= i < k ==> r[i]
  {
    if k == 0 then [] else [true] + Ones(k - 1)
  }

  ghost predicate Distinct(t: Tree) {
    match t
    case Leaf(_) => true
    case Node(zero, one) =>
      && Distinct(zero) && Distinct(one)
      && forall s: nat :: Code(zero, s).Some? ==> Code(one, s).None?
  }

  /** What the decoder and the encoder rely on: every octet has one code of 5 to 30 bits,
      there are no other symbols but EOS, and its code is thirty ones. */
  ghost predicate WellFormed(t: Tree) {
    && t.Node?
    && Distinct(t)
    && (forall b :: 0 <= b < 256 ==> Code(t, b).Some? && 5 <= |Code(t, b).value| <= 30)
    && (forall s: nat :: Code(t, s).Some? ==> s <= EOS)
    && Code(t, EOS) == Some(Ones(30))
  }

  function CodeOf(t: Tree, b: nat): (r: seq<bool>) {
    var c := Code(t, b);
    if c.Some? then c.value else []
  }

  function CodesOf(t: Tree, s: seq<Byte>): (r: seq<bool>) {
    if |s| == 0 then [] else CodeOf(t, s[0]) + CodesOf(t, s[1..])
  }

  // ----- bits and octets ----------------------------------------------------------

  /** Most significant bit first. */
  function Val(bits: seq<bool>): (n: nat) {
    if |bits| == 0 then 0
    else 2 * Val(bits[..|bits| - 1]) + if bits[|bits| - 1] then 1 else 0
  }

  lemma {:induction false} ValBound(bits: seq<bool>)
    ensures Val(bits) < Pow2(|bits|)
  {
    if |bits| > 0 {
      ValBound(bits[..|bits| - 1]);
    }
  }

  function BitsOf(b: nat, n: nat): (r: seq<bool>)
    ensures |r| == n
  {
    if n == 0 then [] else BitsOf(b / 2, n - 1) + [b % 2 == 1]
  }

  lemma {:induction false} BitsOfVal(bits: seq<bool>)
    ensures BitsOf(Val(bits), |bits|) == bits
  {
    if |bits| > 0 {
      var front := bits[..|bits| - 1];
      BitsOfVal(front);
      assert Val(bits) / 2 == Val(front);
    }
  }

  lemma {:induction false} ValOfBits(b: nat, n: nat)
    requires b < Pow2(n)
    ensures Val(BitsOf(b, n)) == b
  {
    if n > 0 {
      ValOfBits(b / 2, n - 1);
      assert BitsOf(b, n)[..n - 1] == BitsOf(b / 2, n - 1);
    }
  }

  /** v << k */
  function Shl(v: nat, k: nat): (n: nat) {
    if k == 0 then v else 2 * Shl(v, k - 1)
  }

  lemma {:induction false} ShlAdd(v: nat, w: nat, k: nat)
    ensures Shl(v + w, k) == Shl(v, k) + Shl(w, k)
  {
    if k > 0 {
      ShlAdd(v, w, k - 1);
    }
  }

  lemma {:induction false} ShlShl(v: nat, a: nat, b: nat)
    ensures Shl(Shl(v, a), b) == Shl(v, a + b)
  {
    if b > 0 {
      ShlShl(v, a, b - 1);
    }
  }

  lemma {:induction false} ShlOne(k: nat)
    ensures Shl(1, k) == Pow2(k)
  {
    if k > 0 {
      ShlOne(k - 1);
    }
  }

  lemma {:induction false} ValConcat(x: seq<bool>, y: seq<bool>)
    ensures Val(x + y) == Shl(Val(x), |y|) + Val(y)
  {
    if |y| == 0 {
      assert x + y == x;
    } else {
      var front := y[..|y| - 1];
      ValConcat(x, front);
      assert (x + y)[..|x + y| - 1] == x + front;
    }
  }

  lemma EightBits(bits: seq<bool>)
    requires |bits| == 8
    ensures Val(bits) < 256
  {
    ValBound(bits);
    PowersOfTwo();
  }

  lemma PowersOfTwo()
    ensures Pow2(4) == 16 && Pow2(8) == 256
  {
    assert Pow2(2) == 4;
    assert Pow2(6) == 64;
  }

  lemma LargePowersOfTwo()
    ensures Pow2(32) == 0x1_0000_0000 && Pow2(40) == 0x100_0000_0000
  {
    PowersOfTwo();
    assert Pow2(12) == 16 * 256;
    assert Pow2(16) == 256 * 256;
    assert Pow2(20) == 16 * Pow2(16);
    assert Pow2(24) == 16 * Pow2(20);
    assert Pow2(28) == 16 * Pow2(24);
    assert Pow2(32) == 16 * Pow2(28);
    assert Pow2(36) == 16 * Pow2(32);
    assert Pow2(40) == 16 * Pow2(36);
  }

  /** Whole octets of a bit list. */
  function Pack(bits: seq<bool>): (r: seq<Byte>)
    ensures |r| == |bits| / 8
  {
    if |bits| < 8 then []
    else
      EightBits(bits[..8]);
      [Val(bits[..8])] + Pack(bits[8..])
  }

  function Unpack(x: seq<Byte>): (r: seq<bool>)
    ensures |r| == 8 * |x|
  {
    if |x| == 0 then [] else BitsOf(x[0], 8) + Unpack(x[1..])
  }

  lemma {:induction false} UnpackPack(bits: seq<bool>)
    requires |bits| % 8 == 0
    ensures Unpack(Pack(bits)) == bits
  {
    if |bits| >= 8 {
      UnpackPack(bits[8..]);
      BitsOfVal(bits[..8]);
      assert Pack(bits)[1..] == Pack(bits[8..]);
    }
  }

  lemma {:induction false} PackUnpack(x: seq<Byte>)
    ensures Pack(Unpack(x)) == x
  {
    if |x| > 0 {
      PackUnpack(x[1..]);
      PowersOfTwo();
      ValOfBits(x[0], 8);
      assert Unpack(x)[..8] == BitsOf(x[0], 8) && Unpack(x)[8..] == Unpack(x[1..]);
    }
  }

  lemma {:induction false} UnpackConcat(x: seq<Byte>, y: seq<Byte>)
    ensures Unpack(x + y) == Unpack(x) + Unpack(y)
  {
    if |x| == 0 {
      assert x + y == y;
    } else {
      UnpackConcat(x[1..], y);
      assert (x + y)[0] == x[0] && (x + y)[1..] == x[1..] + y;
      assert Unpack(x + y) == BitsOf(x[0], 8) + (Unpack(x[1..]) + Unpack(y));
    }
  }

  // ----- encoding and decoding ----------------------------------------------------

  function Padding(n: nat): (k: nat)
    ensures k < 8 && (n + k) % 8 == 0
  {
    (8 - n % 8) % 8
  }

  /** Codes one after the other, padded with the start of EOS. */
  function HuffEncode(t: Tree, s: seq<Byte>): (r: seq<Byte>) {
    var bits := CodesOf(t, s);
    Pack(bits + Ones(Padding(|bits|)))
  }

  /** Octets decoded, and the bits read since the last of them. */
  datatype Run = Run(out: seq<Byte>, path: seq<bool>) | Bad

  function RunBits(t: Tree, path: seq<bool>, bits: seq<bool>): (r: Run)
    decreases |bits|
  {
    if |bits| == 0 then Run([], path)
    else
      var path' := path + [bits[0]];
      match Walk(t, path')
      case None => Bad
      case Some(Node(_, _)) => RunBits(t, path', bits[1..])
      case Some(Leaf(sym)) =>
        if sym >= 256 then Bad
        else
          match RunBits(t, [], bits[1..])
          case Bad => Bad
          case Run(out, p) => Run([sym] + out, p)
  }

  /** Padding: fewer than eight bits, all of them ones. */
  predicate IsPadding(path: seq<bool>) {
    |path| < 8 && forall i :: 0 <= i < |path| ==> path[i]
  }

  function HuffDecode(t: Tree, x: seq<Byte>): (r: Option<seq<Byte>>) {
    match RunBits(t, [], Unpack(x))
    case Run(out, path) => if IsPadding(path) then Some(out) else None
    case Bad => None
  }

  lemma {:induction false} WalkAppend(t: Tree, p: seq<bool>, q: seq<bool>)
    ensures Walk(t, p + q) == if Walk(t, p).Some? then Walk(Walk(t, p).value, q) else None
  {
    if |p| == 0 {
      assert p + q == q;
    } else if t.Node? {
      assert (p + q)[1..] == p[1..] + q;
      WalkAppend(if p[0] then t.one else t.zero, p[1..], q);
    }
  }

  lemma {:induction false} WalkCode(t: Tree, sym: nat)
    requires Code(t, sym).Some?
    ensures Walk(t, Code(t, sym).value) == Some(Leaf(sym))
  {
    if t.Node? {
      var c := Code(t, sym).value;
      if Code(t.zero, sym).Some? {
        WalkCode(t.zero, sym);
        assert c[1..] == Code(t.zero, sym).value;
      } else {
        WalkCode(t.one, sym);
        assert c[1..] == Code(t.one, sym).value;
      }
    }
  }

  lemma {:induction false} CodeIsUnique(t: Tree, path: seq<bool>, sym: nat)
    requires Distinct(t) && Walk(t, path) == Some(Leaf(sym))
    ensures Code(t, sym) == Some(path)
  {
    if |path| > 0 {
      var child := if path[0] then t.one else t.zero;
      CodeIsUnique(child, path[1..], sym);
      assert path == [path[0]] + path[1..];
      if path[0] {
        assert Code(t.zero, sym).None?;
      }
    }
  }

  /** Reading in two parts. */
  lemma {:induction false} RunAppend(t: Tree, path: seq<bool>, a: seq<bool>, b: seq<bool>)
    ensures RunBits(t, path, a + b) ==
              match RunBits(t, path, a)
              case Bad => Bad
              case Run(out, p) =>
                match RunBits(t, p, b)
                case Bad => Bad
                case Run(out', p') => Run(out + out', p')
    decreases |a|
  {
    if |a| == 0 {
      assert a + b == b;
      match RunBits(t, path, b)
      case Bad =>
      case Run(out', _) => assert [] + out' == out';
    } else {
      assert (a + b)[1..] == a[1..] + b;
      var path' := path + [a[0]];
      match Walk(t, path')
      case None =>
      case Some(Node(_, _)) => RunAppend(t, path', a[1..], b);
      case Some(Leaf(sym)) =>
        RunAppend(t, [], a[1..], b);
        match RunBits(t, [], a[1..])
        case Bad =>
        case Run(out, p) =>
          match RunBits(t, p, b)
          case Bad =>
          case Run(out', _) => assert [sym] + (out + out') == ([sym] + out) + out';
    }
  }

  /** What a run decodes is what was there, in front of an incomplete code. */
  lemma {:induction false} RunSound(t: Tree, path: seq<bool>, bits: seq<bool>)
    requires Distinct(t) && RunBits(t, path, bits).Run?
    ensures var r := RunBits(t, path, bits); path + bits == CodesOf(t, r.out) + r.path
    decreases |bits|
  {
    if |bits| == 0 {
      assert path + bits == [] + path;
    } else {
      var path' := path + [bits[0]];
      assert path + bits == path' + bits[1..];
      match Walk(t, path')
      case Some(Node(_, _)) => RunSound(t, path', bits[1..]);
      case Some(Leaf(sym)) =>
        RunSound(t, [], bits[1..]);
        RunSoundLeaf(t, path', bits[1..], sym);
    }
  }

  lemma RunSoundLeaf(t: Tree, path: seq<bool>, bits: seq<bool>, sym: Byte)
    requires Distinct(t) && Walk(t, path) == Some(Leaf(sym)) && RunBits(t, [], bits).Run?
    requires var r := RunBits(t, [], bits); [] + bits == CodesOf(t, r.out) + r.path
    ensures var r := RunBits(t, [], bits); path + bits == CodesOf(t, [sym] + r.out) + r.path
  {
    var r := RunBits(t, [], bits);
    CodeIsUnique(t, path, sym);
    CodesPush(t, sym, r.out);
    RegroupBits(path, bits, CodesOf(t, r.out), r.path);
  }

  lemma RegroupBits(a: seq<bool>, bits: seq<bool>, b: seq<bool>, c: seq<bool>)
    requires [] + bits == b + c
    ensures a + bits == a + b + c
  {
    assert [] + bits == bits;
  }

  lemma CodesPush(t: Tree, b: Byte, s: seq<Byte>)
    ensures CodesOf(t, [b] + s) == CodeOf(t, b) + CodesOf(t, s)
  {
    assert ([b] + s)[1..] == s;
  }

  /** A run over the rest of a code emits its symbol. */
  lemma {:induction false} RunCode(t: Tree, path: seq<bool>, rest: seq<bool>, sym: Byte, more: seq<bool>)
    requires |rest| > 0 && Walk(t, path + rest) == Some(Leaf(sym))
    ensures RunBits(t, path, rest + more) ==
              match RunBits(t, [], more)
              case Bad => Bad
              case Run(out, p) => Run([sym] + out, p)
    decreases |rest|
  {
    var path' := path + [rest[0]];
    var bits := rest + more;
    assert path + rest == path' + rest[1..];
    assert bits[1..] == rest[1..] + more;
    WalkAppend(t, path', rest[1..]);
    if |rest| > 1 {
      RunCode(t, path', rest[1..], sym, more);
    } else {
      assert path' + rest[1..] == path' && rest[1..] + more == more;
    }
  }

  lemma {:induction false} RunOnes(t: Tree, j: nat, k: nat)
    requires WellFormed(t) && j + k < 8
    ensures RunBits(t, Ones(j), Ones(k)) == Run([], Ones(j + k))
    decreases k
  {
    if k > 0 {
      assert Ones(j) + [true] == Ones(j + 1);
      assert Ones(k)[1..] == Ones(k - 1);
      WalkCode(t, EOS);
      assert Ones(30) == Ones(j + 1) + Ones(29 - j);
      WalkAppend(t, Ones(j + 1), Ones(29 - j));
      RunOnes(t, j + 1, k - 1);
    }
  }

  lemma {:induction false} RunComplete(t: Tree, s: seq<Byte>, k: nat)
    requires WellFormed(t) && k < 8
    ensures RunBits(t, [], CodesOf(t, s) + Ones(k)) == Run(s, Ones(k))
  {
    if |s| == 0 {
      assert CodesOf(t, s) + Ones(k) == Ones(k);
      assert Ones(0) == [];
      RunOnes(t, 0, k);
    } else {
      var c := CodeOf(t, s[0]);
      RunComplete(t, s[1..], k);
      WalkCode(t, s[0]);
      assert [] + c == c;
      RunCode(t, [], c, s[0], CodesOf(t, s[1..]) + Ones(k));
      assert CodesOf(t, s) + Ones(k) == c + (CodesOf(t, s[1..]) + Ones(k));
      assert [s[0]] + s[1..] == s;
    }
  }

  /** Exactness: decoding gives s back from the encoding of s, and from nothing else. */
  lemma HuffmanExact(t: Tree, x: seq<Byte>, s: seq<Byte>)
    requires WellFormed(t)
    ensures HuffDecode(t, x) == Some(s) <==> x == HuffEncode(t, s)
  {
    if x == HuffEncode(t, s) {
      EncodedDecodes(t, s);
    }
    if HuffDecode(t, x) == Some(s) {
      DecodedEncodes(t, x, s);
    }
  }

  lemma EncodedDecodes(t: Tree, s: seq<Byte>)
    requires WellFormed(t)
    ensures HuffDecode(t, HuffEncode(t, s)) == Some(s)
  {
    var bits := CodesOf(t, s);
    var k := Padding(|bits|);
    UnpackPack(bits + Ones(k));
    RunComplete(t, s, k);
  }

  lemma DecodedEncodes(t: Tree, x: seq<Byte>, s: seq<Byte>)
    requires WellFormed(t) && HuffDecode(t, x) == Some(s)
    ensures x == HuffEncode(t, s)
  {
    var path := RunBits(t, [], Unpack(x)).path;
    RunSound(t, [], Unpack(x));
    PaddedWith(x, CodesOf(t, s), path);
  }

  lemma PaddedWith(x: seq<Byte>, bits: seq<bool>, path: seq<bool>)
    requires [] + Unpack(x) == bits + path && IsPadding(path)
    ensures x == Pack(bits + Ones(Padding(|bits|)))
  {
    assert [] + Unpack(x) == Unpack(x);
    PaddingIs(|bits|, |path|, |x|);
    assert path == Ones(Padding(|bits|));
    PackUnpack(x);
  }

  lemma PaddingIs(n: nat, k: nat, octets: nat)
    requires n + k == 8 * octets && k < 8
    ensures Padding(n) == k
  {
  }
}
