/** Flow control of what is sent, over whole runs: every window is its initial size, and the
    increments that the peer has sent, less the octets of the frames that have left. */
module ConnectionLedger {
  import opened Prelude
  import Window
  import opened Messages
  import opened Connection
  import opened ConnectionLife
  import opened ConnectionSend
  import opened ConnectionReceive
  import opened ConnectionRuns
  import opened ConnectionFrame
  import opened ConnectionEffects
  import opened ConnectionMessage
  import SendPages

  // ----- one event ---------------------------------------------------------------------------

  /** What a WINDOW_UPDATE grants stream id, or the connection if that is 0: its increment,
      unless it is zero or takes the window beyond 31 bits. */
  ghost function Granted(c: Conn, e: Event, id: nat): (n: nat)
    requires Wf(c)
  {
    match e
    case UpdateReceived(j, inc, _) =>
      if j != id then 0
      else if id == 0 then (if c.sending.window + inc <= Window.MAX then inc else 0)
      else if id in c.mapped && c.streams[id].out.window + inc <= Window.MAX then inc
      else 0
    case _ => 0
  }

  /** The octets in the DATA frame that a sender with len octets writes. */
  function Written(c: Conn, id: nat, len: nat, frame: nat): (n: nat)
    requires id in c.streams
  {
    if CanSend(c, id, len) then Min(Min(c.streams[id].out.window, c.sending.window), Min(len, frame)) else 0
  }

  /** What an event costs stream id, or the connection if that is 0. */
  ghost function Charged(c: Conn, e: Event, id: nat): (n: nat)
    requires Wf(c) && Enabled(c, e)
  {
    match e
    case ChunkSent(j, len, frame, _) => if j == id || id == 0 then Written(c, j, len, frame) else 0
    case _ => 0
  }

  ghost function CreditOf(c: Conn, id: nat): (n: nat) {
    if id == 0 then c.sending.credit else if id in c.streams then c.streams[id].out.credit else 0
  }

  ghost function SentOf(c: Conn, id: nat): (n: nat) {
    if id == 0 then c.sending.sent else if id in c.streams then c.streams[id].out.sent else 0
  }

  /** From c to c' the ledger of id has moved by this much. */
  ghost predicate Booked(c: Conn, c': Conn, id: nat, granted: nat, charged: nat) {
    match (c, c')
    case (c, c') => CreditOf(c', id) == CreditOf(c, id) + granted && SentOf(c', id) == SentOf(c, id) + charged
  }

  lemma RestingBooks(c: Conn, c': Conn, id: nat)
    requires LedgersRest(c, c')
    ensures Booked(c, c', id, 0, 0)
  {
  }

  // ----- events that leave the ledgers alone ---------------------------------------------------

  lemma HeardRests(c: Conn, c': Conn, id: nat, m': Message)
    requires HeardOn(c, c', id, m')
    ensures LedgersRest(c, c')
  {
  }

  lemma DeliveredRests(c: Conn, c': Conn, id: nat, m': Message, flow: nat, len: nat)
    requires DeliveredOn(c, c', id, m', flow, len)
    ensures LedgersRest(c, c')
  {
  }

  lemma BegunRests(c: Conn, c': Conn, id: nat, m: Message)
    requires Begun(c, c', id, m)
    ensures LedgersRest(c, c')
  {
  }

  lemma HeadersRest(c: Conn, id: nat, h: Headers, pending: bool)
    requires Invariant(c)
    ensures LedgersRest(c, Step(c, HeadersReceived(id, h, pending)))
  {
    var r := Step(c, HeadersReceived(id, h, pending));
    if id in c.mapped {
      var m := MessageAt(c.streams[id], c.cfg.server);
      HeadersAreHeard(c, id, h, pending, m);
      HeardRests(c, r, id, Receive(m, HeadersIn(h)));
    } else if Welcome(c, id, h) {
      RequestIsHeard(c, id, h, pending);
      BegunRests(c, r, id, Receive(NewMessage(true, false), HeadersIn(h)));
    } else {
      HeadersAreIgnored(c, id, h, pending);
    }
  }

  lemma DataRests(c: Conn, id: nat, flow: nat, len: nat, eof: bool, pending: bool)
    requires Invariant(c) && len <= flow
    ensures LedgersRest(c, Step(c, DataReceived(id, flow, len, eof, pending)))
  {
    if id in c.mapped {
      if flow <= c.receiving.window && flow <= c.streams[id].into.window {
        var m := MessageAt(c.streams[id], c.cfg.server);
        DataIsHeard(c, id, flow, len, eof, pending, m);
        DeliveredRests(c, Step(c, DataReceived(id, flow, len, eof, pending)), id, Receive(m, DataIn(len, eof)), flow, len);
      } else {
        DataOverruns(c, id, flow, len, eof, pending);
      }
    } else {
      DataIsIgnored(c, id, flow, len, eof, pending);
    }
  }

  lemma AskedRests(c: Conn, r: Conn, eof: bool, fits: bool, head: bool)
    requires Asked(c, r, eof, fits, head)
    ensures LedgersRest(c, r)
  {
  }

  lemma WaiterRests(c: Conn, w: nat, eof: bool, fits: bool, head: bool)
    requires Invariant(c) && Enabled(c, WaiterRuns(w, eof, fits, head))
    ensures LedgersRest(c, Step(c, WaiterRuns(w, eof, fits, head)))
  {
    WaiterAsks(c, w, eof, fits, head);
    AskedRests(c.(slots := c.slots.(notified := c.slots.notified - {w})), Step(c, WaiterRuns(w, eof, fits, head)), eof, fits, head);
  }

  lemma OpeningRests(c: Conn, e: Event)
    requires Invariant(c) && Enabled(c, e) && Opens(e)
    ensures LedgersRest(c, Step(c, e))
  {
    match e
    case RequestSent(eof, fits, head) =>
      RequestAsks(c, eof, fits, head);
      AskedRests(c, Step(c, e), eof, fits, head);
    case WaiterRuns(w, eof, fits, head) => WaiterRests(c, w, eof, fits, head);
    case ReservedSent(eof, fits, head) => ReservationRests(c, eof, fits, head);
  }

  lemma ReservationRests(c: Conn, eof: bool, fits: bool, head: bool)
    requires Invariant(c) && Enabled(c, ReservedSent(eof, fits, head))
    ensures LedgersRest(c, Step(c, ReservedSent(eof, fits, head)))
  {
    ReservationOpens(c, eof, fits, head);
  }

  // ----- events that move them -----------------------------------------------------------------

  lemma ConnectionUpdateBooks(c: Conn, inc: nat, pending: bool, id: nat)
    requires Invariant(c)
    ensures var e := UpdateReceived(0, inc, pending); Booked(c, Step(c, e), id, Granted(c, e, id), 0)
  {
    if inc > 0 && c.sending.window + inc <= Window.MAX {
      ConnectionIsCredited(c, inc, pending);
    } else {
      ConnectionCreditRefused(c, inc, pending);
    }
  }

  lemma AcceptedBooks(c: Conn, j: nat, inc: nat, pending: bool, id: nat)
    requires Invariant(c) && j in c.mapped && j != 0 && inc > 0 && c.streams[j].out.window + inc <= Window.MAX
    ensures Booked(c, Step(c, UpdateReceived(j, inc, pending)), id, if j == id then inc else 0, 0)
  {
    StreamIsCredited(c, j, inc, pending);
  }

  lemma RefusedBooks(c: Conn, j: nat, inc: nat, pending: bool, id: nat)
    requires Wf(c) && ValidConfig(c.cfg) && Lifecycle(c) && j != 0
    requires j in c.mapped ==> inc == 0 || c.streams[j].out.window + inc > Window.MAX
    ensures Booked(c, Step(c, UpdateReceived(j, inc, pending)), id, 0, 0)
  {
    if j in c.mapped {
      StreamCreditRefused(c, j, inc, pending);
    } else {
      UpdateOfUnknown(c, j, inc, pending);
    }
  }

  lemma UpdateBooks(c: Conn, j: nat, inc: nat, pending: bool, id: nat)
    requires Invariant(c) && j != 0
    ensures var e := UpdateReceived(j, inc, pending); Booked(c, Step(c, e), id, Granted(c, e, id), 0)
  {
    if j in c.mapped && inc > 0 && c.streams[j].out.window + inc <= Window.MAX {
      AcceptedBooks(c, j, inc, pending, id);
    } else {
      RefusedBooks(c, j, inc, pending, id);
    }
  }

  lemma PaidBooks(c: Conn, r: Conn, j: nat, size: nat, id: nat)
    requires Paid(c, r, j, size) && j != 0
    ensures Booked(c, r, id, 0, if j == id || id == 0 then size else 0)
  {
  }

  lemma ChunkBooks(c: Conn, e: Event, id: nat)
    requires Invariant(c) && Enabled(c, e) && e.ChunkSent?
    ensures Booked(c, Step(c, e), id, 0, Charged(c, e, id))
  {
    var size := ChunkIsSent(c, e.id, e.len, e.frame, e.eof);
    assert e.id % 2 == 1;
    if CanSend(c, e.id, e.len) {
      PaidBooks(c, Step(c, e), e.id, size, id);
    }
  }

  /** Every event moves every ledger by what it grants and what it costs. */
  lemma StepBooks(c: Conn, e: Event, id: nat)
    requires Invariant(c) && Enabled(c, e)
    ensures Booked(c, Step(c, e), id, Granted(c, e, id), Charged(c, e, id))
  {
    if e.UpdateReceived? {
      if e.id == 0 {
        ConnectionUpdateBooks(c, e.size, e.pending, id);
      } else {
        UpdateBooks(c, e.id, e.size, e.pending, id);
      }
    } else if e.ChunkSent? {
      ChunkBooks(c, e, id);
    } else {
      if e.HeadersReceived? {
        HeadersRest(c, e.id, e.headers, e.pending);
      } else if e.DataReceived? {
        DataRests(c, e.id, e.flow, e.len, e.eof, e.pending);
      } else if Opens(e) {
        OpeningRests(c, e);
      } else {
        TheRestIsQuiet(c, e);
      }
      RestingBooks(c, Step(c, e), id);
    }
  }

  // ----- runs ----------------------------------------------------------------------------------------

  ghost function AllGranted(c: Conn, es: seq<Event>, id: nat): (n: nat)
    requires Wf(c) && ValidConfig(c.cfg) && Possible(c, es)
    decreases |es|
  {
    if |es| == 0 then 0 else Granted(c, es[0], id) + AllGranted(Step(c, es[0]), es[1..], id)
  }

  ghost function AllCharged(c: Conn, es: seq<Event>, id: nat): (n: nat)
    requires Wf(c) && ValidConfig(c.cfg) && Possible(c, es)
    decreases |es|
  {
    if |es| == 0 then 0 else Charged(c, es[0], id) + AllCharged(Step(c, es[0]), es[1..], id)
  }

  lemma {:induction false} RunBooks(c: Conn, es: seq<Event>, id: nat)
    requires Invariant(c) && Possible(c, es)
    ensures Booked(c, Run(c, es), id, AllGranted(c, es, id), AllCharged(c, es, id))
    decreases |es|
  {
    if |es| > 0 {
      StepKeepsInvariant(c, es[0]);
      StepBooks(c, es[0], id);
      RunBooks(Step(c, es[0]), es[1..], id);
    }
  }

  lemma Balances(c: Conn, id: nat)
    requires Invariant(c)
    ensures c.sending.window == Window.DEFAULT + CreditOf(c, 0) - SentOf(c, 0)
    ensures id in c.mapped ==> c.streams[id].out.window == c.sending.initial + CreditOf(c, id) - SentOf(c, id)
  {
    if id in c.mapped {
      assert id % 2 == 1;
      assert LedgerOk(c.streams[id].out, c.sending.initial);
    }
  }

  /** Section 6.9 of RFC 9113: after every run the connection's window is the default, with
      all that WINDOW_UPDATE frames granted it and without the octets of all DATA frames, and
      the window of a stream the initial size with its own. */
  lemma WindowsOfRuns(cfg: Config, es: seq<Event>, id: nat)
    requires ValidConfig(cfg) && Possible(Init(cfg), es)
    ensures var c, r := Init(cfg), Run(Init(cfg), es);
            && r.sending.window == Window.DEFAULT + AllGranted(c, es, 0) - AllCharged(c, es, 0)
            && (id in r.mapped ==>
                  r.streams[id].out.window == r.sending.initial + AllGranted(c, es, id) - AllCharged(c, es, id))
  {
    var c, r := Init(cfg), Run(Init(cfg), es);
    InitiallyFine(cfg);
    RunKeepsInvariant(c, es);
    RunBooks(c, es, 0);
    RunBooks(c, es, id);
    Balances(r, id);
  }

  // ----- the frame and its octets ---------------------------------------------------------------

  /** What a step of the connection charges is the frame that the sender writes in such a
      turn, and the half closes with END_STREAM. */
  lemma ChunkIsTheFrame(c: Conn, id: nat, s: seq<Byte>, frame: nat, eof: bool)
    requires Invariant(c) && Enabled(c, ChunkSent(id, |s|, frame, eof)) && CanSend(c, id, |s|)
    ensures var r := Step(c, ChunkSent(id, |s|, frame, eof));
            var turn := SendPages.Open(Min(c.streams[id].out.window, c.sending.window), frame);
            var (ws, outcome) := SendPages.Written(s, eof, [turn], 0);
            && |ws| == 1
            && c.sending.window - r.sending.window == |ws[0].0.payload| == ws[0].0.length
            && c.streams[id].out.window - r.streams[id].out.window == |ws[0].0.payload|
            && (r.streams[id].life.send == Closed <==> ws[0].0.endStream)
            && (outcome == SendPages.Sent <==> |ws[0].0.payload| == |s|)
  {
    var size := ChunkIsSent(c, id, |s|, frame, eof);
  }
}
