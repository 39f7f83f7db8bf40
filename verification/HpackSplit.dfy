/** Split invariance of the decoder: a block may arrive in two parts, cut anywhere. */
module HpackSplit {
  import opened Prelude
  import opened HpackHeader
  import opened HpackFifo
  import opened HpackInt
  import opened HpackString
  import opened HpackWire

  lemma SliceOfPrefix(s: seq<Byte>, lo: nat, hi: nat, k: nat)
    requires lo <= hi <= k <= |s|
    ensures s[..k][lo..hi] == s[lo..hi]
  {
  }

  lemma DropOfPrefix(s: seq<Byte>, u: nat, k: nat)
    requires u <= k <= |s|
    ensures s[..k][u..] == s[u..][..k - u]
  {
  }

  /** A prefix of a good string is the same string, or asks for more. */
  lemma StringLocal(env: Env, s: seq<Byte>, k: nat)
    requires ParseString(env, s).Good? && k <= |s|
    ensures var used := ParseString(env, s).used;
            if used <= k then ParseString(env, s[..k]) == ParseString(env, s)
            else ParseString(env, s[..k]).Fault? && NeedMore(ParseString(env, s[..k]).error)
  {
    if k > 0 {
      assert s[..k][0] == s[0];
      var i := DecodeInt(s, 7);
      if k < i.used {
        IntShort(s, k, 7);
      } else {
        IntKeeps(s, k, 7);
        if ParseString(env, s).used <= k {
          SliceOfPrefix(s, i.used, i.used + i.value, k);
        }
      }
    }
  }

  /** The same for a literal: its index is read, its strings are from offset u on. */
  lemma LiteralLocal(env: Env, look: nat -> Option<Header>, s: seq<Byte>, prefix: nat, k: nat)
    requires ParseLiteral(env, look, s, prefix).Literal? && k <= |s|
    ensures LiteralSplits(env, look, s, prefix, k)
  {
    var i := DecodeInt(s, prefix);
    if k < i.used {
      IntShort(s, k, prefix);
    } else {
      IntKeeps(s, k, prefix);
      DropOfPrefix(s, i.used, k);
      if i.value == 0 {
        SpelledLocal(env, look, s, prefix, k);
      } else {
        NamedLocal(env, look, s, prefix, k);
      }
    }
  }

  lemma NamedLocal(env: Env, look: nat -> Option<Header>, s: seq<Byte>, prefix: nat, k: nat)
    requires ParseLiteral(env, look, s, prefix).Literal? && k <= |s|
    requires var i := DecodeInt(s, prefix);
             && i.value > 0 && i.used <= k && DecodeInt(s[..k], prefix) == i
             && s[..k][i.used..] == s[i.used..][..k - i.used]
    ensures LiteralSplits(env, look, s, prefix, k)
  {
    StringLocal(env, s[DecodeInt(s, prefix).used..], k - DecodeInt(s, prefix).used);
  }

  ghost predicate LiteralSplits(env: Env, look: nat -> Option<Header>, s: seq<Byte>, prefix: nat, k: nat)
    requires k <= |s|
  {
    match (ParseLiteral(env, look, s, prefix), ParseLiteral(env, look, s[..k], prefix))
    case (Literal(h, used), l) => if used <= k then l == Literal(h, used) else l.NoLiteral? && NeedMore(l.error)
    case _ => false
  }

  lemma SpelledLocal(env: Env, look: nat -> Option<Header>, s: seq<Byte>, prefix: nat, k: nat)
    requires ParseLiteral(env, look, s, prefix).Literal? && k <= |s|
    requires var i := DecodeInt(s, prefix);
             && i.value == 0 && i.used <= k && DecodeInt(s[..k], prefix) == i
             && s[..k][i.used..] == s[i.used..][..k - i.used]
    ensures LiteralSplits(env, look, s, prefix, k)
  {
    var u := DecodeInt(s, prefix).used;
    var name := ParseString(env, s[u..]);
    SpelledOut(env, look, s, prefix, u, name.used, s[u..], s[u + name.used..]);
    var name', value' := SpelledCut(env, look, s, prefix, k, u, name.used);
    SpelledSplits(env, name, ParseString(env, s[u + name.used..]), name', value', u, k);
  }

  /** The two strings as they are read from the prefix. */
  lemma SpelledCut(env: Env, look: nat -> Option<Header>, s: seq<Byte>, prefix: nat, k: nat, u: nat, n: nat)
    returns (name': Parsed<seq<Byte>>, value': Parsed<seq<Byte>>)
    requires u <= k <= |s| && DecodeInt(s[..k], prefix) == IntOk(0, u) && s[..k][u..] == s[u..][..k - u]
    requires ParseString(env, s[u..]).Good? && ParseString(env, s[u..]).used == n
    requires u + n <= |s| && ParseString(env, s[u + n..]).Good?
    ensures ParseLiteral(env, look, s[..k], prefix) == Spelled(env, name', value', u)
    ensures Cut(name', ParseString(env, s[u..]), k - u)
    ensures u + n <= k ==> Cut(value', ParseString(env, s[u + n..]), k - u - n)
  {
    name' := CutString(env, s, k, u);
    value' := ParseString(env, []);
    if u + n <= k {
      value' := CutString(env, s, k, u + n);
      SpelledOut(env, look, s[..k], prefix, u, n, s[..k][u..], s[..k][u + n..]);
    } else {
      SpelledOut(env, look, s[..k], prefix, u, 0, s[..k][u..], []);
    }
  }

  lemma CutString(env: Env, s: seq<Byte>, k: nat, u: nat) returns (part: Parsed<seq<Byte>>)
    requires u <= k <= |s| && ParseString(env, s[u..]).Good?
    ensures part == ParseString(env, s[..k][u..]) && Cut(part, ParseString(env, s[u..]), k - u)
  {
    DropOfPrefix(s, u, k);
    StringLocal(env, s[u..], k - u);
    part := ParseString(env, s[..k][u..]);
  }

  ghost predicate Cut(part: Parsed<seq<Byte>>, whole: Parsed<seq<Byte>>, k: nat)
    requires whole.Good?
  {
    if whole.used <= k then part == whole else part.Fault? && NeedMore(part.error)
  }

  lemma SpelledSplits(env: Env, name: Parsed<seq<Byte>>, value: Parsed<seq<Byte>>,
                      name': Parsed<seq<Byte>>, value': Parsed<seq<Byte>>, u: nat, k: nat)
    requires name.Good? && value.Good? && u <= k && Cut(name', name, k - u)
    requires u + name.used <= k ==> Cut(value', value, k - u - name.used)
    ensures var l, l' := Spelled(env, name, value, u), Spelled(env, name', value', u);
            l.Literal? && if l.used <= k then l' == l else l'.NoLiteral? && NeedMore(l'.error)
  {
  }

  lemma SpelledOut(env: Env, look: nat -> Option<Header>, s: seq<Byte>, prefix: nat, u: nat, n: nat, a: seq<Byte>, b: seq<Byte>)
    requires DecodeInt(s, prefix) == IntOk(0, u) && u <= |s| && a == s[u..]
    requires ParseString(env, a).Good? ==> ParseString(env, a).used == n && u + n <= |s| && b == s[u + n..]
    ensures ParseLiteral(env, look, s, prefix) == Spelled(env, ParseString(env, a), ParseString(env, b), u)
  {
  }

  function Spelled(env: Env, name: Parsed<seq<Byte>>, value: Parsed<seq<Byte>>, u: nat): (r: Literal) {
    match (name, value)
    case (Fault(e), _) => NoLiteral(e)
    case (_, Fault(e)) => NoLiteral(e)
    case (Good(n, a), Good(v, b)) => Literal(NewHeader(env, n, v), u + a + b)
  }

  predicate Goes(step: Step) {
    step.Emit? || step.NewLimit?
  }

  function UsedBy(step: Step): (u: nat)
    requires Goes(step)
  {
    match step
    case Emit(_, _, u) => u
    case NewLimit(_, u) => u
  }

  /** And for a representation: all of it, or a request for more with nothing consumed. */
  lemma StepLocal(env: Env, look: nat -> Option<Header>, limit: nat, can: bool, s: seq<Byte>, k: nat)
    requires 0 < k <= |s| && Goes(ParseStep(env, look, limit, can, s))
    ensures var step := ParseStep(env, look, limit, can, s);
            var step' := ParseStep(env, look, limit, can, s[..k]);
            if UsedBy(step) <= k then step' == step else step'.Stuck? && NeedMore(step'.error)
  {
    assert s[..k][0] == s[0];
    match LoadRepresentation(s[0])
    case IndexedField =>
      if k < DecodeInt(s, 7).used { IntShort(s, k, 7); } else { IntKeeps(s, k, 7); }
    case LiteralIndexed => LiteralLocal(env, look, s, 6, k);
    case LiteralPlain => LiteralLocal(env, look, s, 4, k);
    case LiteralNever => LiteralLocal(env, look, s, 4, k);
    case SizeUpdateField =>
      if k < DecodeInt(s, 5).used { IntShort(s, k, 5); } else { IntKeeps(s, k, 5); }
  }

  /** What decodes without size updates decodes the same where they are allowed. */
  lemma {:induction false} AllowingUpdates(env: Env, t: DynTable, limit: nat, can: bool, s: seq<Byte>)
    requires DecodeBlock(env, t, limit, can, s).error.None?
    ensures DecodeBlock(env, t, limit, true, s) == DecodeBlock(env, t, limit, can, s)
    decreases |s|
  {
    if |s| > 0 && !can {
      assert LoadRepresentation(s[0]) != SizeUpdateField;
      assert ParseStep(env, Lookup(t), limit, true, s) == ParseStep(env, Lookup(t), limit, can, s);
    }
  }

  // ----- a reader that goes on by one representation at a time --------------------------

  type Reader = (DynTable, bool, seq<Byte>) -> Decoded

  /** The first representation: its octets, the headers it yields, the state after it. */
  datatype First = First(used: nat, front: seq<Header>, table: DynTable, can: bool)

  function Put(front: seq<Header>, d: Decoded): (r: Decoded) {
    d.(headers := front + d.headers)
  }

  /** On input that reads without error: cut within the first representation nothing is
      read; cut behind it, it is read in both the whole and the prefix. */
  ghost predicate OneStep(read: Reader, first: First, t: DynTable, can: bool, s: seq<Byte>, k: nat)
    requires k <= |s|
  {
    match first
    case First(u, front, t', can') =>
      && read(t, true, s) == read(t, can, s)
      && if k == 0 || k < u then Unread(read(t, can, s[..k]), t, s[..k])
         else
           && 0 < u
           && read(t, can, s) == Put(front, read(t', can', s[u..]))
           && read(t, can, s[..k]) == Put(front, read(t', can', s[..k][u..]))
  }

  ghost predicate Unread(d: Decoded, t: DynTable, s: seq<Byte>) {
    d.headers == [] && d.table == t && d.rest == s && (d.error.None? || NeedMore(d.error.value))
  }

  ghost predicate Stepwise(read: Reader, first: (DynTable, bool, seq<Byte>) -> First) {
    forall t, can, s: seq<Byte>, k: nat :: k <= |s| && read(t, can, s).error.None? ==>
      OneStep(read, first(t, can, s), t, can, s, k)
  }

  /** Cut after k octets: the first part reads without error or asks for more, what it
      leaves is a suffix of it, and reading that together with the remaining octets ends
      as reading the whole does. */
  ghost predicate Splits(read: Reader, t: DynTable, can: bool, s: seq<Byte>, k: nat)
    requires k <= |s|
  {
    match read(t, can, s[..k])
    case Decoded(headers, t', rest, error) =>
      && (error.None? || NeedMore(error.value))
      && |rest| <= k && rest == s[k - |rest|..k]
      && Put(headers, read(t', true, rest + s[k..])) == read(t, can, s)
  }

  lemma {:induction false} StepwiseSplits(read: Reader, first: (DynTable, bool, seq<Byte>) -> First,
                                          t: DynTable, can: bool, s: seq<Byte>, k: nat)
    requires Stepwise(read, first) && read(t, can, s).error.None? && k <= |s|
    ensures Splits(read, t, can, s, k)
    decreases |s|
  {
    var f := first(t, can, s);
    assert OneStep(read, f, t, can, s, k);
    if k == 0 || k < f.used {
      assert s[..k] + s[k..] == s && s[0..k] == s[..k];
      AddsNothing(read(t, can, s));
    } else {
      StepwiseSplits(read, first, f.table, f.can, s[f.used..], k - f.used);
      SplitsBehind(read, f, t, can, s, k);
    }
  }

  lemma AddsNothing(d: Decoded)
    ensures Put([], d) == d
  {
  }

  lemma SplitsBehind(read: Reader, f: First, t: DynTable, can: bool, s: seq<Byte>, k: nat)
    requires 0 < f.used <= k <= |s| && OneStep(read, f, t, can, s, k)
    requires Splits(read, f.table, f.can, s[f.used..], k - f.used)
    ensures Splits(read, t, can, s, k)
  {
    var u := f.used;
    DropOfPrefix(s, u, k);
    var later := read(f.table, f.can, s[u..][..k - u]);
    assert s[u..][k - u..] == s[k..];
    assert s[u..][k - u - |later.rest|..k - u] == s[k - |later.rest|..k];
    var end := read(later.table, true, later.rest + s[k..]);
    assert f.front + later.headers + end.headers == f.front + (later.headers + end.headers);
  }

  // ----- the decoder is one ----------------------------------------------------------------

  function AfterStep(t: DynTable, step: Step): (r: DynTable)
    requires Goes(step)
  {
    match step
    case Emit(h, insert, _) => if insert then Insert(t, h) else t
    case NewLimit(size, _) => Resize(t, size)
  }

  function FirstOf(env: Env, limit: nat, t: DynTable, can: bool, s: seq<Byte>): (r: First) {
    if |s| == 0 then First(0, [], t, can)
    else
      var step := ParseStep(env, Lookup(t), limit, can, s);
      if Goes(step) then
        First(UsedBy(step), if step.Emit? then [step.header] else [], AfterStep(t, step), step.NewLimit? && can)
      else First(0, [], t, can)
  }

  function Read(env: Env, limit: nat): (read: Reader) {
    (t, can, s) => DecodeBlock(env, t, limit, can, s)
  }

  lemma FirstThenRest(env: Env, t: DynTable, limit: nat, can: bool, s: seq<Byte>)
    requires |s| > 0 && Goes(ParseStep(env, Lookup(t), limit, can, s))
    ensures var f := FirstOf(env, limit, t, can, s);
            DecodeBlock(env, t, limit, can, s) == Put(f.front, DecodeBlock(env, f.table, limit, f.can, s[f.used..]))
  {
    AddsNothing(DecodeBlock(env, t, limit, can, s));
  }

  lemma ReadOneStep(env: Env, limit: nat, t: DynTable, can: bool, s: seq<Byte>, k: nat)
    requires DecodeBlock(env, t, limit, can, s).error.None? && k <= |s|
    ensures OneStep(Read(env, limit), FirstOf(env, limit, t, can, s), t, can, s, k)
  {
    AllowingUpdates(env, t, limit, can, s);
    if k > 0 {
      StepLocal(env, Lookup(t), limit, can, s, k);
      var u := UsedBy(ParseStep(env, Lookup(t), limit, can, s));
      if u <= k {
        FirstThenRest(env, t, limit, can, s);
        FirstThenRest(env, t, limit, can, s[..k]);
      }
    }
  }

  /** src/hpack/decoder.rs:484-495 */
  lemma SplitInvariance(env: Env, t: DynTable, limit: nat, can: bool, s: seq<Byte>, k: nat)
    requires DecodeBlock(env, t, limit, can, s).error.None? && k <= |s|
    ensures Splits(Read(env, limit), t, can, s, k)
  {
    var first := (t, can, s) => FirstOf(env, limit, t, can, s);
    forall t, can, s: seq<Byte>, k: nat | k <= |s| && Read(env, limit)(t, can, s).error.None?
      ensures OneStep(Read(env, limit), first(t, can, s), t, can, s, k)
    {
      ReadOneStep(env, limit, t, can, s, k);
    }
    StepwiseSplits(Read(env, limit), first, t, can, s, k);
  }
}
