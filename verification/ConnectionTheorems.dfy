/** What a reader can rely on in every reachable state of a connection. */
module ConnectionTheorems {
  import opened Prelude
  import Window
  import opened Messages
  import opened Connection
  import opened ConnectionLife
  import opened ConnectionSend
  import opened ConnectionReceive
  import opened ConnectionRuns

  /** No lost wake-up for send capacity: polling a sleeping sender again would change
      nothing at all, so it sleeps for a reason; and its timer runs if there is one. */
  lemma SleepingSenderWouldWait(c: Conn, id: nat)
    requires Reachable(c) && id in c.streams && c.streams[id].out.parked
    ensures MustWait(c, id) && PollCapacity(c, id) == c
    ensures c.cfg.timed ==> c.streams[id].out.timer
  {
    ReachableIsFine(c);
    SleepersMustWait(c, id);
    var s := c.streams[id];
    assert s.(out := s.out.(waits := true, timer := s.out.timer || c.cfg.timed, waker := true, parked := true)) == s;
    assert c.streams[id := s] == c.streams;
  }

  /** Capacity timers belong to streams of the map. */
  lemma TimersAreOfMappedStreams(c: Conn, id: nat)
    requires Reachable(c) && id in c.streams && c.streams[id].out.timer
    ensures id in c.mapped
  {
    ReachableIsFine(c);
  }

  /** No lost wake-up for stream slots. */
  lemma SleepingWaiterIsCoveredFor(c: Conn)
    requires Reachable(c) && c.slots.parked != {}
    ensures |c.slots.notified| >= Free(c.slots)
    ensures forall w :: w in c.slots.parked ==> w in c.slots.queue
    ensures !Refuses(c)
  {
    ReachableIsFine(c);
  }

  /** The send windows are what was granted less what was sent. */
  lemma SendWindowsAccount(c: Conn)
    requires Reachable(c)
    ensures c.sending.window == Window.DEFAULT + c.sending.credit - c.sending.sent
    ensures 0 <= c.sending.window <= Window.MAX
    ensures forall id :: id in c.mapped ==>
              c.streams[id].out.window == c.sending.initial + c.streams[id].out.credit - c.streams[id].out.sent
    ensures forall id :: id in c.mapped ==> -Window.MAX <= c.streams[id].out.window <= Window.MAX
  {
    ReachableIsFine(c);
    forall id | id in c.mapped
      ensures LedgerOk(c.streams[id].out, c.sending.initial)
    {
    }
  }

  /** Received data: what a stream and the connection hold unconsumed is what the tokens
      say, and the connection's credit is bounded on both sides. */
  lemma ReceivedDataIsHeld(c: Conn)
    requires Reachable(c)
    ensures c.receiving.size == SumAll(c.receiving.tokens)
    ensures forall id :: id in c.streams ==> c.streams[id].into.size == SumFor(c.receiving.tokens, id)
    ensures c.receiving.window == Window.DEFAULT + c.receiving.granted - c.receiving.accepted && c.receiving.window >= 0
    ensures c.cfg.conWindow - c.cfg.conThreshold < c.receiving.window + c.receiving.size <= Max(c.cfg.conWindow, Window.DEFAULT)
  {
    ReachableIsFine(c);
  }

  /** The tight bound for a stream opened after the acknowledgment, while the peer may
      still send on it. */
  lemma StreamCreditIsBounded(c: Conn, id: nat)
    requires Reachable(c) && c.receiving.acked
    requires id in c.mapped && c.streams[id].life.recv != Closed && !c.streams[id].into.early
    ensures var s := c.streams[id].into;
            s.window >= 0 && c.cfg.window - c.cfg.threshold < s.window + s.size <= c.cfg.window
  {
    ReachableIsFine(c);
    assert Bounded(c.streams[id].into, c.cfg, c.receiving.acked);
  }

  /** Counters count: remote streams those of the map, local ones those and the
      reservations; the map holds what is not closed on both halves; the limit holds. */
  lemma CountersCount(c: Conn)
    requires Reachable(c)
    ensures forall id :: id in c.streams ==> (id in c.mapped <==> !BothClosed(c.streams[id].life))
    ensures c.slots.remote == if c.cfg.server then |c.mapped| else 0
    ensures c.slots.local == if c.cfg.server then 0 else |c.mapped| + c.slots.reserved
    ensures c.cfg.server && c.cfg.maxRemote.Some? ==> |c.mapped| <= c.cfg.maxRemote.value
  {
    ReachableIsFine(c);
  }

  /** Graceful shutdown: while nothing fails, the connection is closed exactly when it was
      asked to shut down and no stream or reservation is left. */
  lemma ShutdownIsExact(c: Conn)
    requires Reachable(c) && !c.shut.error && !c.shut.forced
    ensures c.shut.closed <==> c.shut.disconnecting && c.mapped == {} && c.slots.reserved == 0
  {
    ReachableIsFine(c);
  }

  /** After GOAWAY no local stream above the last processed one is left, and whatever
      happens later, none is opened. */
  lemma {:induction false} NothingOpensAfterGoAway(c: Conn, es: seq<Event>)
    requires Invariant(c) && !c.cfg.server && c.shut.goAway.Some? && Possible(c, es)
    ensures var r := Run(c, es);
            && r.shut.goAway.Some? && r.shut.disconnecting
            && r.streams.Keys == c.streams.Keys
            && forall id :: id in r.mapped ==> id <= r.shut.goAway.value
    decreases |es|
  {
    if |es| > 0 {
      StepKeepsInvariant(c, es[0]);
      NothingOpensAfterGoAway(Step(c, es[0]), es[1..]);
    }
  }
}
