/** Streams opened before the peer has acknowledged the settings: received data is released
    against the configured window all the same (src/stream.rs:336-343), so that the bound
    of a later stream may fail for them.  When it does, and that it never fails later. */
module ConnectionEarly {
  import opened Prelude
  import Window
  import opened Messages
  import opened Connection
  import opened ConnectionLife
  import opened ConnectionSend
  import opened ConnectionReceive
  import opened ConnectionRuns

  /** What the peer may have outstanding and what is not consumed, together. */
  function Credit(s: Stream): (n: int) {
    s.into.window + s.into.size
  }

  lemma {:induction false} FailEachElsewhere(c: Conn, ids: seq<nat>, id: nat)
    requires Wf(c) && id in c.streams && id !in ids && forall i :: 0 <= i < |ids| ==> ids[i] in c.streams
    ensures FailEach(c, ids).streams[id] == c.streams[id]
    decreases |ids|
  {
    if |ids| > 0 {
      var c' := Shut(c, ids[0], true, true, true);
      assert c'.streams[id] == c.streams[id];
      FailEachElsewhere(c', ids[1..], id);
    }
  }

  lemma AckedCredit(s: Stream, cfg: Config)
    requires ValidConfig(cfg) && s.life.recv != Closed && !AckStream(s, cfg.window - Window.DEFAULT, cfg).1
    ensures Credit(AckStream(s, cfg.window - Window.DEFAULT, cfg).0) <= cfg.window <==> Credit(s) <= Window.DEFAULT
  {
  }

  /** After the acknowledgment an open stream is within the configured window exactly if no
      update had taken it beyond the default before. */
  lemma WithinAfterAck(c: Conn, order: seq<nat>, id: nat)
    requires Reachable(c) && Wf(c) && ValidConfig(c.cfg) && !c.receiving.acked && Enabled(c, AckReceived(order))
    requires id in c.mapped && c.streams[id].life.recv != Closed && id !in AckFailures(c)
    ensures var s := Step(c, AckReceived(order)).streams[id];
            s.life.recv != Closed && (Credit(s) <= c.cfg.window <==> Credit(c.streams[id]) <= Window.DEFAULT)
  {
    var c' := AckAll(c);
    FailEachElsewhere(c', order, id);
    AckedCredit(c.streams[id], c.cfg);
  }

  /** With a configured window up to the default that is always so. */
  lemma SmallWindowsAreKept(c: Conn, id: nat)
    requires Reachable(c) && id in c.streams && id in c.mapped && c.streams[id].life.recv != Closed
    requires !c.receiving.acked && c.cfg.window <= Window.DEFAULT
    ensures Credit(c.streams[id]) <= Window.DEFAULT
  {
    ReachableIsFine(c);
    assert Bounded(c.streams[id].into, c.cfg, c.receiving.acked);
  }

  /** Once within the configured window after the acknowledgment, a stream stays within it
      for as long as its receiving half is open, whatever happens. */
  lemma {:induction false} StaysWithin(c: Conn, es: seq<Event>, id: nat)
    requires Wf(c) && ValidConfig(c.cfg) && Possible(c, es) && c.receiving.acked && id in c.streams
    requires c.streams[id].life.recv != Closed ==> Credit(c.streams[id]) <= c.cfg.window
    ensures var r := Run(c, es);
            id in r.streams && (r.streams[id].life.recv != Closed ==> Credit(r.streams[id]) <= c.cfg.window)
    decreases |es|
  {
    if |es| > 0 {
      var c' := Step(c, es[0]);
      assert Capped(c.cfg, c.streams[id], c'.streams[id]);
      StaysWithin(c', es[1..], id);
    }
  }

  /** Both together, over runs: an early stream that the acknowledgment finds at most at the
      default keeps to the configured window for the rest of the connection. */
  lemma EarlyStreamKeepsBound(c: Conn, order: seq<nat>, es: seq<Event>, id: nat)
    requires Reachable(c) && Wf(c) && ValidConfig(c.cfg) && !c.receiving.acked && Enabled(c, AckReceived(order))
    requires id in c.mapped && c.streams[id].life.recv != Closed && id !in AckFailures(c)
    requires Credit(c.streams[id]) <= Window.DEFAULT && Possible(Step(c, AckReceived(order)), es)
    ensures var r := Run(Step(c, AckReceived(order)), es);
            id in r.streams && (r.streams[id].life.recv != Closed ==> Credit(r.streams[id]) <= c.cfg.window)
  {
    WithinAfterAck(c, order, id);
    StaysWithin(Step(c, AckReceived(order)), es, id);
  }

  // ----- a connection on which the bound fails -------------------------------------------------

  const CFG := Config(true, true, None, false, 100_000, 33_333, 65535, 16_383)

  function Request(): (h: Headers) {
    Headers(Pseudo(Some(OtherMethod), Some([104]), None, Some([47]), None, None), None, false)
  }

  ghost predicate OpenStream1(c: Conn, window: int, size: int, held: seq<Token>, acked: bool) {
    && Reachable(c) && Wf(c) && c.cfg == CFG && c.receiving.tokens == held && c.receiving.acked == acked
    && c.mapped == {1} && 1 in c.streams && c.streams.Keys == {1}
    && c.streams[1].life.recv == Payload && c.streams[1].into == In(window, size, Omitted, true)
    && c.receiving.window + c.receiving.size == 65535 && c.receiving.size == size
  }

  lemma FirstRequest(c: Conn) returns (r: Conn)
    requires Wf(c) && c.cfg == CFG && c.streams == map[] && c.mapped == {} && c.ids == Ids(1, 0)
    requires c.shut == Shutdown(false, None, false, false, false) && !c.receiving.acked
    ensures r == RecvHeaders(c, 1, Request(), false) && r.cfg == CFG && r.receiving == c.receiving
    ensures r.mapped == {1} && 1 in r.streams && r.streams.Keys == {1}
    ensures r.streams[1].life.recv == Payload && r.streams[1].into == In(65535, 0, Omitted, true)
  {
    r := RecvHeaders(c, 1, Request(), false);
  }

  lemma RequestArrives() returns (c: Conn)
    ensures OpenStream1(c, 65535, 0, [], false)
  {
    var c0 := Init(CFG);
    InitIsReachable(CFG);
    ReachableStep(c0, HeadersReceived(1, Request(), false));
    c := FirstRequest(c0);
  }

  lemma DataArrives(c: Conn) returns (c': Conn)
    requires OpenStream1(c, 65535, 0, [], false)
    ensures OpenStream1(c', 0, 65535, [Token(1, 65535)], false)
  {
    ReachableStep(c, DataReceived(1, 65535, 65535, false, false));
    c' := Step(c, DataReceived(1, 65535, 65535, false, false));
  }

  lemma DataIsConsumed(c: Conn) returns (c': Conn)
    requires OpenStream1(c, 0, 65535, [Token(1, 65535)], false)
    ensures OpenStream1(c', 100_000, 0, [Token(1, 0)], false)
  {
    ReachableStep(c, CapacityConsumed(0, 65535));
    c' := Step(c, CapacityConsumed(0, 65535));
  }

  /** A request, 65535 octets of data, their consumption, the acknowledgment: the peer may
      now send 134465 octets to a receiver configured for 100000. */
  lemma EarlyStreamExceeds() returns (c: Conn)
    ensures Reachable(c) && c.receiving.acked && c.cfg.window == 100_000
    ensures 1 in c.mapped && 1 in c.streams && c.streams[1].life.recv == Payload && c.streams[1].into.window == 134_465
  {
    var c1 := RequestArrives();
    var c2 := DataArrives(c1);
    var c3 := DataIsConsumed(c2);
    assert AckFailures(c3) == {};
    ReachableStep(c3, AckReceived([]));
    c := Step(c3, AckReceived([]));
  }
}
