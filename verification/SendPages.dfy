/** Sending payload: contiguous or paged data, cut into DATA frames by whatever the windows
    and the peer's frame size allow at the time (src/stream.rs:899-983 and 1302-1345). */
module SendPages {
  import opened Prelude

  datatype Data = Contiguous(bytes: seq<Byte>) | Paged(pages: seq<seq<Byte>>)

  /** A DATA frame: the length its head announces, the octets, and END_STREAM. */
  datatype Frame = Frame(length: nat, payload: seq<Byte>, endStream: bool)

  function Join(pages: seq<seq<Byte>>): (s: seq<Byte>) {
    if |pages| == 0 then [] else pages[0] + Join(pages[1..])
  }

  /** The octets of the data. */
  function Octets(d: Data): (s: seq<Byte>) {
    match d
    case Contiguous(bytes) => bytes
    case Paged(pages) => Join(pages)
  }

  function PayloadOf(frames: seq<Frame>): (s: seq<Byte>) {
    if |frames| == 0 then [] else frames[0].payload + PayloadOf(frames[1..])
  }

  // ----- one frame ---------------------------------------------------------------------------

  /** src/stream.rs:1326-1340: pages are moved whole while they fit, the last one is cut. */
  method TakePages(pages0: seq<seq<Byte>>, size0: nat) returns (taken: seq<Byte>, pages: seq<seq<Byte>>)
    requires size0 <= |Join(pages0)|
    ensures taken == Join(pages0)[..size0] && Join(pages) == Join(pages0)[size0..]
  {
    taken, pages := [], pages0;
    var size: nat := size0;
    while |pages| > 0
      invariant |taken| + size == size0 && size <= |Join(pages)|
      invariant taken + Join(pages) == Join(pages0)
      decreases |pages|
    {
      var page := pages[0];
      pages := pages[1..];
      var len: nat := if size <= |page| then size else |page|;
      size := size - len;
      if |page| == len {
        taken := taken + page;
      } else {
        taken := taken + page[..len];
        assert page == page[..len] + page[len..];
        JoinFirst(page[len..], pages);
        pages := [page[len..]] + pages;
        break;
      }
    }
    CutAt(taken, Join(pages), Join(pages0));
  }

  lemma CutAt(a: seq<Byte>, b: seq<Byte>, s: seq<Byte>)
    requires a + b == s
    ensures a == s[..|a|] && b == s[|a|..]
  {
  }

  lemma JoinFirst(page: seq<Byte>, pages: seq<seq<Byte>>)
    ensures Join([page] + pages) == page + Join(pages)
  {
    assert ([page] + pages)[1..] == pages;
  }

  /** src/stream.rs:1302-1345 */
  method EncodeFrame(d: Data, size: nat, eof: bool) returns (f: Frame, rest: Data, empty: bool)
    requires size <= |Octets(d)|
    ensures f == Frame(size, Octets(d)[..size], eof && size == |Octets(d)|)
    ensures Octets(rest) == Octets(d)[size..] && (empty <==> size == |Octets(d)|)
  {
    if size >= |Octets(d)| {
      f := Frame(size, Octets(d), eof);
      rest := match d
              case Contiguous(_) => Contiguous([])
              case Paged(_) => Paged([]);
      empty := true;
    } else {
      match d {
        case Contiguous(b) =>
          f, rest := Frame(size, b[..size], false), Contiguous(b[size..]);
        case Paged(pages) =>
          var taken, left := TakePages(pages, size);
          f, rest := Frame(size, taken, false), Paged(left);
      }
      empty := false;
    }
  }

  // ----- the whole payload -----------------------------------------------------------------------

  /** What the sender finds each time it looks: capacity and frame size, or an error. */
  datatype Turn = Open(window: nat, frameSize: nat) | Broken

  /** All sent; an error; or the future is still waiting, or dropped, when the turns end. */
  datatype Outcome = Sent | Failed | Waiting

  /** Frames for data that is not empty, and for each the turn it was written in. */
  function Written(s: seq<Byte>, eof: bool, turns: seq<Turn>, k: nat): (r: (seq<(Frame, nat)>, Outcome))
    requires k <= |turns|
    decreases |turns| - k
  {
    if k == |turns| then ([], Waiting)
    else
      match turns[k]
      case Broken => ([], Failed)
      case Open(window, frameSize) =>
        var size := Min3(window, |s|, frameSize);
        if window == 0 then Written(s, eof, turns, k + 1)
        else if size == |s| then ([(Frame(size, s, eof), k)], Sent)
        else
          var more := Written(s[size..], eof, turns, k + 1);
          ([(Frame(size, s[..size], false), k)] + more.0, more.1)
  }

  function FramesOf(ws: seq<(Frame, nat)>): (fs: seq<Frame>)
    ensures |fs| == |ws| && forall i :: 0 <= i < |ws| ==> fs[i] == ws[i].0
  {
    if |ws| == 0 then [] else [ws[0].0] + FramesOf(ws[1..])
  }

  /** A frame is as long as it says, and fits the windows and the frame size it was written
      under. */
  ghost predicate FitsTurn(w: (Frame, nat), turns: seq<Turn>) {
    && w.1 < |turns| && turns[w.1].Open?
    && w.0.length == |w.0.payload|
    && w.0.length <= turns[w.1].window && w.0.length <= turns[w.1].frameSize
  }

  /** The promise to the caller, for any schedule of windows, frame sizes and errors. */
  ghost predicate Delivers(s: seq<Byte>, eof: bool, turns: seq<Turn>, r: (seq<(Frame, nat)>, Outcome)) {
    var (ws, outcome) := r;
    && (forall i :: 0 <= i < |ws| ==> FitsTurn(ws[i], turns))
    && (forall i :: 0 <= i < |ws| ==> (ws[i].0.endStream <==> eof && outcome == Sent && i == |ws| - 1))
    && PayloadOf(FramesOf(ws)) <= s
    && (outcome == Sent ==> |ws| > 0 && PayloadOf(FramesOf(ws)) == s)
    && (outcome != Sent ==> |PayloadOf(FramesOf(ws))| < |s|)
  }

  lemma {:induction false} PayloadIsPreserved(s: seq<Byte>, eof: bool, turns: seq<Turn>, k: nat)
    requires k <= |turns| && |s| > 0
    requires forall i :: 0 <= i < |turns| && turns[i].Open? ==> turns[i].frameSize > 0
    ensures Delivers(s, eof, turns, Written(s, eof, turns, k))
    decreases |turns| - k
  {
    if k < |turns| && turns[k].Open? {
      var size := Min3(turns[k].window, |s|, turns[k].frameSize);
      if turns[k].window == 0 {
        PayloadIsPreserved(s, eof, turns, k + 1);
      } else if size == |s| {
        OneFrame(Frame(size, s, eof), k);
      } else {
        PayloadIsPreserved(s[size..], eof, turns, k + 1);
        FrameInFront(s, eof, turns, k, size, Written(s[size..], eof, turns, k + 1));
      }
    }
  }

  lemma OneFrame(f: Frame, k: nat)
    ensures PayloadOf(FramesOf([(f, k)])) == f.payload
  {
    assert FramesOf([(f, k)]) == [f] && [f][1..] == [];
    assert f.payload + [] == f.payload;
  }

  lemma FrameInFront(s: seq<Byte>, eof: bool, turns: seq<Turn>, k: nat, size: nat, more: (seq<(Frame, nat)>, Outcome))
    requires k < |turns| && turns[k].Open? && 0 < size < |s| && size <= turns[k].window && size <= turns[k].frameSize
    requires Delivers(s[size..], eof, turns, more)
    ensures Delivers(s, eof, turns, ([(Frame(size, s[..size], false), k)] + more.0, more.1))
  {
    var w := (Frame(size, s[..size], false), k);
    var ws := [w] + more.0;
    assert ws[1..] == more.0;
    assert FramesOf(ws) == [w.0] + FramesOf(more.0);
    assert FramesOf(ws)[1..] == FramesOf(more.0);
    assert PayloadOf(FramesOf(ws)) == s[..size] + PayloadOf(FramesOf(more.0));
    assert s == s[..size] + s[size..];
  }

  /** Turns before the first error from k on. */
  predicate Before(turns: seq<Turn>, k: nat, j: nat) {
    k <= j < |turns| && forall i :: k <= i <= j ==> turns[i].Open?
  }

  /** Every turn with an open window writes a frame until all is sent or an error is found,
      and the frame is as long as the window, the frame size or the data allow. */
  ghost predicate Prompt(turns: seq<Turn>, k: nat, r: (seq<(Frame, nat)>, Outcome)) {
    var (ws, outcome) := r;
    && (forall i :: 0 <= i < |ws| ==> Before(turns, k, ws[i].1) && turns[ws[i].1].window > 0)
    && (forall i :: 0 <= i < |ws| ==>
          || ws[i].0.length == turns[ws[i].1].window || ws[i].0.length == turns[ws[i].1].frameSize
          || (i == |ws| - 1 && outcome == Sent))
    && (forall j: nat :: Before(turns, k, j) && turns[j].window > 0 && (outcome == Sent ==> |ws| > 0 && j < ws[|ws| - 1].1) ==>
          exists i :: 0 <= i < |ws| && ws[i].1 == j)
    && (outcome == Sent ==> |ws| > 0)
    && (outcome == Failed ==> exists j :: k <= j < |turns| && turns[j].Broken?)
    && (outcome == Waiting ==> forall j :: k <= j < |turns| ==> turns[j].Open?)
  }

  lemma {:induction false} NothingIsWasted(s: seq<Byte>, eof: bool, turns: seq<Turn>, k: nat)
    requires k <= |turns| && |s| > 0
    requires forall i :: 0 <= i < |turns| && turns[i].Open? ==> turns[i].frameSize > 0
    ensures Prompt(turns, k, Written(s, eof, turns, k))
    decreases |turns| - k
  {
    if k < |turns| && turns[k].Open? {
      var size := Min3(turns[k].window, |s|, turns[k].frameSize);
      if turns[k].window == 0 {
        NothingIsWasted(s, eof, turns, k + 1);
        LaterTurns(turns, k, Written(s, eof, turns, k + 1));
      } else if size == |s| {
      } else {
        NothingIsWasted(s[size..], eof, turns, k + 1);
        PromptInFront(turns, k, Frame(size, s[..size], false), Written(s[size..], eof, turns, k + 1));
      }
    }
  }

  lemma LaterTurns(turns: seq<Turn>, k: nat, r: (seq<(Frame, nat)>, Outcome))
    requires k < |turns| && turns[k].Open? && turns[k].window == 0 && Prompt(turns, k + 1, r)
    ensures Prompt(turns, k, r)
  {
    forall j: nat | Before(turns, k, j) && turns[j].window > 0
      ensures Before(turns, k + 1, j)
    {
    }
  }

  lemma PromptInFront(turns: seq<Turn>, k: nat, f: Frame, more: (seq<(Frame, nat)>, Outcome))
    requires k < |turns| && turns[k].Open? && turns[k].window > 0 && Prompt(turns, k + 1, more)
    requires f.length == turns[k].window || f.length == turns[k].frameSize
    ensures Prompt(turns, k, ([(f, k)] + more.0, more.1))
  {
    var ws := [(f, k)] + more.0;
    assert ws[0].1 == k;
    forall j: nat | Before(turns, k, j) && turns[j].window > 0 && (more.1 == Sent ==> j < ws[|ws| - 1].1)
      ensures exists i :: 0 <= i < |ws| && ws[i].1 == j
    {
      if j > k {
        assert Before(turns, k + 1, j);
        var i :| 0 <= i < |more.0| && more.0[i].1 == j;
        assert ws[i + 1].1 == j;
      }
    }
  }

  /** With s still to send at turn k, the frames so far and those to come are the frames. */
  ghost predicate Going(all: seq<Byte>, eof: bool, turns: seq<Turn>, frames: seq<(Frame, nat)>, s: seq<Byte>, k: nat)
    requires k <= |turns|
  {
    match Written(s, eof, turns, k)
    case (more, outcome) => Written(all, eof, turns, 0) == (frames + more, outcome)
  }

  lemma Starts(s: seq<Byte>, eof: bool, turns: seq<Turn>)
    ensures Going(s, eof, turns, [], s, 0)
  {
    assert [] + Written(s, eof, turns, 0).0 == Written(s, eof, turns, 0).0;
  }

  lemma GoesOn(all: seq<Byte>, eof: bool, turns: seq<Turn>, frames: seq<(Frame, nat)>, s: seq<Byte>, k: nat)
    requires k < |turns| && turns[k].Open? && Going(all, eof, turns, frames, s, k)
    ensures turns[k].window == 0 ==> Going(all, eof, turns, frames, s, k + 1)
    ensures var size := Min3(turns[k].window, |s|, turns[k].frameSize);
            turns[k].window > 0 ==>
              var f := (Frame(size, s[..size], eof && size == |s|), k);
              if size == |s| then Written(all, eof, turns, 0) == (frames + [f], Sent)
              else Going(all, eof, turns, frames + [f], s[size..], k + 1)
  {
    var size := Min3(turns[k].window, |s|, turns[k].frameSize);
    assert s[..|s|] == s;
    var f := (Frame(size, s[..size], false), k);
    var more := Written(s[size..], eof, turns, k + 1).0;
    assert frames + ([f] + more) == frames + [f] + more;
  }

  lemma Stops(all: seq<Byte>, eof: bool, turns: seq<Turn>, frames: seq<(Frame, nat)>, s: seq<Byte>, k: nat)
    requires k <= |turns| && Going(all, eof, turns, frames, s, k) && (k < |turns| ==> turns[k].Broken?)
    ensures Written(all, eof, turns, 0) == (frames, if k < |turns| then Failed else Waiting)
  {
    assert frames + [] == frames;
  }

  /** src/stream.rs:899-983, from the payload state. */
  method Send(d0: Data, eof: bool, turns: seq<Turn>) returns (frames: seq<(Frame, nat)>, outcome: Outcome)
    requires forall i :: 0 <= i < |turns| && turns[i].Open? ==> turns[i].frameSize > 0
    ensures |Octets(d0)| > 0 ==> (frames, outcome) == Written(Octets(d0), eof, turns, 0)
    ensures |Octets(d0)| == 0 ==> outcome == Sent && frames == if eof then [(Frame(0, [], true), 0)] else []
  {
    var d := d0;
    if |Octets(d)| == 0 {
      frames := if eof then [(Frame(0, [], true), 0)] else [];
      outcome := Sent;
      return;
    }
    frames := [];
    var k := 0;
    Starts(Octets(d), eof, turns);
    while k < |turns|
      invariant 0 <= k <= |turns| && |Octets(d)| > 0
      invariant Going(Octets(d0), eof, turns, frames, Octets(d), k)
    {
      if turns[k].Broken? {
        Stops(Octets(d0), eof, turns, frames, Octets(d), k);
        outcome := Failed;
        return;
      }
      GoesOn(Octets(d0), eof, turns, frames, Octets(d), k);
      var win := turns[k].window;
      if win > 0 {
        var size := Min3(win, |Octets(d)|, turns[k].frameSize);
        var f, rest, empty := EncodeFrame(d, size, eof);
        frames := frames + [(f, k)];
        d := rest;
        if empty {
          outcome := Sent;
          return;
        }
      }
      k := k + 1;
    }
    Stops(Octets(d0), eof, turns, frames, Octets(d), k);
    outcome := Waiting;
  }
}
