/** Lifecycle: which streams are in the map, what the counters count, who waits for a slot,
    and when a connection that shuts down gracefully is closed. */
module ConnectionLife {
  import opened Prelude
  import Window
  import opened Messages
  import opened Connection

  // ----- slots -----------------------------------------------------------------------------

  /** No lost wake-up: if anybody still sleeps for a slot, at least as many waiters as there
      are free slots have been woken and will look again. */
  ghost predicate SlotsServed(s: Slots) {
    && (forall w :: w in s.parked ==> w in s.queue && w < s.next)
    && (forall w :: w in s.notified ==> w < s.next)
    && s.parked !! s.notified
    && (s.parked != {} ==> s.max.Some? && |s.notified| >= Free(s))
  }

  /** Like SlotsServed, but with no claim on the number of the woken. */
  ghost predicate SlotsOrdered(s: Slots) {
    && (forall w :: w in s.parked ==> w in s.queue && w < s.next)
    && (forall w :: w in s.notified ==> w < s.next)
    && s.parked !! s.notified
    && (s.parked != {} ==> s.max.Some?)
  }

  /** Waking touches nothing but the waiters, and wakes as many as it is told to if so many
      sleep. */
  lemma {:induction false} WakingWaiters(s: Slots, count: nat)
    requires SlotsOrdered(s)
    ensures var r := WakeWaiters(s, count);
            && SlotsOrdered(r)
            && r == s.(queue := r.queue, parked := r.parked, notified := r.notified)
            && r.parked <= s.parked && s.notified <= r.notified
            && (r.parked != {} ==> |r.notified| == |s.notified| + count)
    decreases |s.queue|
  {
    if count > 0 && |s.queue| > 0 {
      var w, s' := s.queue[0], s.(queue := s.queue[1..]);
      if w in s.parked {
        var s'' := s'.(parked := s.parked - {w}, notified := s.notified + {w});
        WakingWaiters(s'', count - 1);
      } else {
        WakingWaiters(s', count);
      }
    }
  }

  /** Waiters are woken first come, first served: those among the first k of the queue, which
      is as far as it takes to find count of them that still sleep. */
  lemma {:induction false} WakingIsInOrder(s: Slots, count: nat) returns (k: nat)
    ensures var r := WakeWaiters(s, count);
            && k <= |s.queue| && r.queue == s.queue[k..]
            && (forall w :: w in r.parked <==> w in s.parked && w !in s.queue[..k])
            && (forall w :: w in r.notified <==> w in s.notified || (w in s.parked && w in s.queue[..k]))
            && |r.parked| >= |s.parked| - count
            && (k < |s.queue| ==> |r.parked| == |s.parked| - count)
    decreases |s.queue|
  {
    k := 0;
    if count > 0 && |s.queue| > 0 {
      var w, s' := s.queue[0], s.(queue := s.queue[1..]);
      var j;
      if w in s.parked {
        j := WakingIsInOrder(s'.(parked := s.parked - {w}, notified := s.notified + {w}), count - 1);
      } else {
        j := WakingIsInOrder(s', count);
      }
      k := j + 1;
      assert s.queue[..k] == [w] + s.queue[1..][..j];
    }
  }

  lemma ReleasingLocal(s: Slots)
    requires SlotsOrdered(s) && s.local > 0
    ensures var r := ReleaseLocal(s);
            && SlotsServed(r)
            && r == s.(local := s.local - 1, queue := r.queue, parked := r.parked, notified := r.notified)
            && r.parked <= s.parked
  {
    var s' := s.(local := s.local - 1);
    if s'.max.Some? {
      WakingWaiters(s', Free(s'));
    }
  }

  lemma DroppingWaiter(s: Slots, w: nat)
    requires SlotsServed(s)
    ensures var r := DropWaiter(s, w);
            && SlotsServed(r) && r == s.(queue := r.queue, parked := r.parked, notified := r.notified)
            && r.parked <= s.parked
  {
    if w in s.notified && w !in s.parked {
      WakingWaiters(s.(notified := s.notified - {w}), 1);
    }
  }

  // ----- the lifecycle invariant ---------------------------------------------------------------

  /** In the map as long as one half is open; failed streams are closed. */
  ghost predicate Lives(life: Life, mapped: bool) {
    (mapped <==> !BothClosed(life)) && (life.error ==> BothClosed(life))
  }

  /** Streams, counters and limits; extra is what local is off while a stream is opened. */
  ghost predicate Counted(c: Conn, extra: int) {
    && (c.cfg.server ==> c.slots.remote == |c.mapped| && c.slots.local == 0 && c.slots.reserved == 0)
    && (!c.cfg.server ==> c.slots.remote == 0 && c.slots.local == |c.mapped| + c.slots.reserved + extra)
    && (c.cfg.server && c.cfg.maxRemote.Some? ==> |c.mapped| <= c.cfg.maxRemote.value)
  }

  ghost predicate Streams(c: Conn) {
    && Wf(c)
    && (forall id :: id in c.streams ==> Lives(c.streams[id].life, id in c.mapped))
    && (forall id :: id in c.streams ==> id % 2 == 1)
    && 1 <= c.ids.next && c.ids.next % 2 == 1
  }

  /** Nobody waits on a connection that refuses; what the peer will not process is gone;
      and unless something failed the connection is closed exactly when it was asked to
      and nothing is left. */
  ghost predicate ShutsDown(c: Conn, goAway: Option<nat>) {
    && (goAway.Some? ==> c.shut.disconnecting)
    && (c.shut.error || c.shut.disconnecting ==> c.slots.parked == {})
    && (goAway.Some? && !c.cfg.server ==> forall id :: id in c.mapped ==> id <= goAway.value)
    && (!c.shut.error && !c.shut.forced ==>
          (c.shut.closed <==> c.shut.disconnecting && c.mapped == {} && c.slots.reserved == 0))
  }

  /** Everything but the claim on the woken, while local is off by extra and for the last
      GOAWAY dealt with. */
  ghost predicate Core(c: Conn, extra: int, goAway: Option<nat>) {
    match c
    case c => Streams(c) && Counted(c, extra) && ShutsDown(c, goAway) && SlotsOrdered(c.slots)
  }

  ghost predicate LivesOn(c: Conn, goAway: Option<nat>) {
    match c
    case c => Core(c, 0, goAway) && SlotsServed(c.slots)
  }

  ghost predicate Lifecycle(c: Conn) {
    match c
    case c => LivesOn(c, c.shut.goAway)
  }

  // ----- primitives ------------------------------------------------------------------------

  /** Only what the lifecycle does not look at differs. */
  ghost predicate SameLife(c: Conn, c': Conn) {
    match (c, c')
    case (c, c') =>
      && Wf(c') && c'.cfg == c.cfg && c'.mapped == c.mapped && c'.ids == c.ids && c'.slots == c.slots && c'.shut == c.shut
      && c'.streams.Keys == c.streams.Keys
      && forall id :: id in c.streams ==> c'.streams[id].life == c.streams[id].life
  }

  lemma SameLifeKeeps(c: Conn, c': Conn)
    requires Lifecycle(c) && SameLife(c, c')
    ensures Lifecycle(c')
  {
  }

  lemma SameLifeTwice(c: Conn, c': Conn, c'': Conn)
    requires SameLife(c, c') && SameLife(c', c'')
    ensures SameLife(c, c'')
  {
  }

  lemma SettingSameLife(c: Conn, id: nat, s: Stream)
    requires Wf(c) && id in c.streams && s.life == c.streams[id].life
    ensures SameLife(c, SetStream(c, id, s))
  {
  }

  /** Taking a closed stream out of the map keeps every counter exact. */
  lemma Removing(c: Conn, id: nat, s: Stream, goAway: Option<nat>) returns (r: Conn)
    requires LivesOn(c, goAway) && id in c.mapped && BothClosed(s.life)
    ensures r == Remove(SetStream(c, id, s), id)
    ensures Streams(r) && Counted(r, 0) && SlotsServed(r.slots)
    ensures r.slots.parked <= c.slots.parked && r.slots.reserved == c.slots.reserved
    ensures r.shut == c.shut && r.cfg == c.cfg && r.mapped <= c.mapped
  {
    r := Remove(SetStream(c, id, s), id);
    assert |c.mapped - {id}| == |c.mapped| - 1;
    if !c.cfg.server {
      ReleasingLocal(c.slots);
    }
  }

  lemma Closing(c: Conn, c': Conn, goAway: Option<nat>)
    requires ShutsDown(c, goAway) && Wf(c') && c'.shut == c.shut && c'.cfg == c.cfg && c'.mapped <= c.mapped
    requires c'.slots.parked <= c.slots.parked
    requires !(c.mapped == {} && c.slots.reserved == 0)
    ensures ShutsDown(CloseIfDone(c'), goAway)
  {
  }

  lemma Finished(c: Conn, goAway: Option<nat>)
    requires Streams(c) && Counted(c, 0) && SlotsServed(c.slots) && ShutsDown(CloseIfDone(c), goAway)
    ensures LivesOn(CloseIfDone(c), goAway)
  {
  }

  /** A stream that is closed on both halves leaves the map and frees its slot. */
  lemma Dropping(c: Conn, id: nat, s: Stream, goAway: Option<nat>)
    requires LivesOn(c, goAway) && id in c.mapped && BothClosed(s.life)
    ensures LivesOn(DropStream(SetStream(c, id, s), id), goAway)
  {
    var c' := Removing(c, id, s, goAway);
    NotEmpty(c, id, goAway);
    Closing(c, c', goAway);
    Finished(c', goAway);
  }

  lemma NotEmpty(c: Conn, id: nat, goAway: Option<nat>)
    requires LivesOn(c, goAway) && id in c.mapped
    ensures ShutsDown(c, goAway) && c.mapped != {}
  {
  }

  /** A half that was open stays open, or one of two open halves closes. */
  lemma Advancing(c: Conn, id: nat, s: Stream, extra: int, goAway: Option<nat>)
    requires Core(c, extra, goAway) && id in c.streams
    requires BothClosed(s.life) <==> BothClosed(c.streams[id].life)
    requires s.life.error ==> BothClosed(s.life)
    ensures Core(SetStream(c, id, s), extra, goAway)
  {
  }

  lemma Shutting(c: Conn, id: nat, recv: bool, send: bool, error: bool, goAway: Option<nat>)
    requires LivesOn(c, goAway) && id in c.streams && (error ==> recv && send)
    ensures LivesOn(Shut(c, id, recv, send, error), goAway)
    ensures Shut(c, id, recv, send, error).shut.goAway == c.shut.goAway
  {
    var s := c.streams[id];
    var life := Life(if recv then Closed else s.life.recv, if send then Closed else s.life.send, s.life.error || error);
    var s' := s.(life := life, out := if send || BothClosed(life) then Wake(s.out) else s.out);
    if id in c.mapped && BothClosed(life) {
      Dropping(c, id, s', goAway);
    } else {
      HalfShut(c, id, s', goAway);
    }
  }

  /** One half is still open, or both were closed before. */
  lemma HalfShut(c: Conn, id: nat, s: Stream, goAway: Option<nat>)
    requires LivesOn(c, goAway) && id in c.streams && (id in c.mapped ==> !BothClosed(s.life))
    requires BothClosed(c.streams[id].life) ==> BothClosed(s.life)
    requires s.life.error ==> c.streams[id].life.error || BothClosed(s.life)
    ensures LivesOn(SetStream(c, id, s), goAway) && (id !in c.mapped ==> DropStream(SetStream(c, id, s), id) == SetStream(c, id, s))
    ensures BothClosed(s.life) ==> id !in c.mapped
  {
    Advancing(c, id, s, 0, goAway);
  }

  lemma Resetting(c: Conn, id: nat)
    requires Lifecycle(c) && id in c.streams
    ensures Lifecycle(ResetSilent(c, id))
  {
    Shutting(c, id, true, true, true, c.shut.goAway);
  }

  lemma SendingHeaders(c: Conn, id: nat, eof: bool)
    requires Lifecycle(c) && id in c.streams && c.streams[id].life.send != Closed
    ensures Lifecycle(SendHeaders(c, id, eof))
  {
    if eof {
      Shutting(c, id, false, true, false, c.shut.goAway);
    } else {
      var s := c.streams[id];
      Advancing(c, id, s.(life := s.life.(send := Payload)), 0, c.shut.goAway);
    }
  }

  lemma {:induction false} FailingEach(c: Conn, ids: seq<nat>, goAway: Option<nat>)
    requires LivesOn(c, goAway) && forall i :: 0 <= i < |ids| ==> ids[i] in c.streams
    ensures LivesOn(FailEach(c, ids), goAway)
    ensures FailEach(c, ids).shut.goAway == c.shut.goAway
    decreases |ids|
  {
    if |ids| > 0 {
      Shutting(c, ids[0], true, true, true, goAway);
      FailingEach(Shut(c, ids[0], true, true, true), ids[1..], goAway);
    }
  }

  lemma FailingAll(c: Conn)
    requires Lifecycle(c)
    ensures Lifecycle(FailAll(c))
  {
  }

  // ----- opening -----------------------------------------------------------------------------

  lemma InsertingStream(c: Conn, r: Conn, id: nat, s: Stream)
    requires Streams(c) && Wf(r) && id !in c.streams && Issued(c, id) && id % 2 == 1 && s.life == Life(Idle, Idle, false)
    requires r.streams == c.streams[id := s] && r.mapped == c.mapped + {id} && r.ids == c.ids && r.cfg == c.cfg
    ensures Streams(r)
  {
  }

  /** A new id enters the map. */
  lemma Inserting(c: Conn, id: nat, head: bool, extra: int) returns (r: Conn)
    requires Core(c, extra, c.shut.goAway)
    requires id !in c.streams && Issued(c, id) && id % 2 == 1 && (!c.shut.error && !c.shut.forced ==> !c.shut.closed)
    requires c.shut.goAway.Some? ==> c.cfg.server
    requires c.cfg.server ==> !c.shut.disconnecting && (c.cfg.maxRemote.Some? ==> |c.mapped| < c.cfg.maxRemote.value)
    ensures r == Insert(c, id, head) && Core(r, extra - 1, c.shut.goAway)
    ensures r.shut == c.shut && (!c.cfg.server ==> r.slots == c.slots)
    ensures id in r.mapped && id in r.streams && r.streams[id].life == Life(Idle, Idle, false)
  {
    r := Insert(c, id, head);
    assert |c.mapped + {id}| == |c.mapped| + 1;
    InsertingStream(c, r, id, NewStream(c, head));
  }

  lemma NextNumber(c: Conn, extra: int, goAway: Option<nat>) returns (c': Conn)
    requires Core(c, extra, goAway) && !c.cfg.server
    ensures c' == c.(ids := c.ids.(next := c.ids.next + 2)) && Issued(c', c.ids.next) && c.ids.next % 2 == 1 && c.ids.next !in c.streams
    ensures Core(c', extra, goAway)
  {
    c' := c.(ids := c.ids.(next := c.ids.next + 2));
  }

  lemma FirstHeaders(c: Conn, id: nat, eof: bool, extra: int, goAway: Option<nat>) returns (r: Conn)
    requires Core(c, extra, goAway) && id in c.mapped && id in c.streams && c.streams[id].life == Life(Idle, Idle, false)
    ensures r == SendHeaders(c, id, eof) && Core(r, extra, goAway)
    ensures r.slots == c.slots && r.shut == c.shut && r.mapped == c.mapped
  {
    var s := c.streams[id];
    Advancing(c, id, s.(life := Life(Idle, Payload, false)), extra, goAway);
    Advancing(c, id, s.(life := Life(Idle, Closed, false), out := Wake(s.out)), extra, goAway);
    r := SendHeaders(c, id, eof);
  }

  lemma OpeningNext(c: Conn, eof: bool, head: bool, extra: int) returns (r: Conn)
    requires Core(c, extra, None) && c.shut.goAway.None?
    requires !c.cfg.server && (!c.shut.error && !c.shut.forced ==> !c.shut.closed)
    ensures r == OpenNext(c, eof, head) && Core(r, extra - 1, None)
    ensures r.slots == c.slots && r.shut == c.shut && r.mapped != {}
  {
    var id := c.ids.next;
    var c' := NextNumber(c, extra, None);
    var c'' := Inserting(c', id, head, extra);
    r := FirstHeaders(c'', id, eof, extra - 1, None);
  }

  /** extra is 1 if the new stream was counted beforehand, 0 if it uses up a reservation. */
  lemma Opening(c: Conn, eof: bool, fits: bool, head: bool, extra: int)
    requires Core(c, extra, None) && c.shut.goAway.None?
    requires !c.cfg.server && (!c.shut.error && !c.shut.forced ==> !c.shut.closed)
    ensures var r := OpenStream(c, eof, fits, head);
            r.Some? ==> Core(r.value, extra - 1, None) && r.value.slots == c.slots && r.value.shut == c.shut
                        && r.value.mapped != {}
  {
    var r := OpeningNext(c, eof, head, extra);
  }

  lemma OpeningCounted(c: Conn, eof: bool, fits: bool, head: bool) returns (r: Conn)
    requires Wf(c) && CountedOnce(c) && !c.cfg.server && c.shut.goAway.None?
    ensures r == OpenCounted(c, eof, fits, head) && Lifecycle(r)
  {
    r := OpenCounted(c, eof, fits, head);
    Opening(c, eof, fits, head, 1);
    ReleasingLocal(c.slots);
  }

  lemma CountingOne(c: Conn)
    requires Core(c, 0, c.shut.goAway) && !c.cfg.server && !Refuses(c) && CanCreate(c.slots)
    requires c.slots.parked != {} ==> |c.slots.notified| + 1 >= Free(c.slots)
    ensures CountedOnce(CountOne(c))
  {
  }

  /** Ready for a stream that is counted already. */
  ghost predicate CountedOnce(c: Conn) {
    match c
    case c =>
      && Core(c, 1, None) && SlotsServed(c.slots) && c.slots.local > 0 && !c.cfg.server
      && c.shut.goAway.None? && (!c.shut.error && !c.shut.forced ==> !c.shut.closed)
  }

  /** One waiter may be about to run. */
  lemma Requesting(c: Conn, eof: bool, fits: bool, head: bool) returns (r: Conn)
    requires Core(c, 0, c.shut.goAway) && !c.cfg.server
    requires c.slots.parked != {} ==> |c.slots.notified| + 1 >= Free(c.slots)
    ensures r == SendRequest(c, eof, fits, head) && Lifecycle(r)
  {
    if Refuses(c) {
      r := Refusing(c, eof, fits, head);
    } else if CanCreate(c.slots) {
      r := Counting(c, eof, fits, head);
    } else {
      r := Parking(c, eof, fits, head);
    }
  }

  lemma Counting(c: Conn, eof: bool, fits: bool, head: bool) returns (r: Conn)
    requires Core(c, 0, c.shut.goAway) && !c.cfg.server && !Refuses(c) && CanCreate(c.slots)
    requires c.slots.parked != {} ==> |c.slots.notified| + 1 >= Free(c.slots)
    ensures r == SendRequest(c, eof, fits, head) && Lifecycle(r)
  {
    CountingOne(c);
    r := OpeningCounted(CountOne(c), eof, fits, head);
  }

  /** Nobody sleeps on a connection that refuses. */
  lemma Refusing(c: Conn, eof: bool, fits: bool, head: bool) returns (r: Conn)
    requires Core(c, 0, c.shut.goAway) && !c.cfg.server && Refuses(c)
    ensures r == SendRequest(c, eof, fits, head) && Lifecycle(r)
  {
    r := c;
  }

  lemma Parking(c: Conn, eof: bool, fits: bool, head: bool) returns (r: Conn)
    requires Core(c, 0, c.shut.goAway) && !c.cfg.server && !Refuses(c) && !CanCreate(c.slots)
    ensures r == SendRequest(c, eof, fits, head) && Lifecycle(r)
  {
    r := c.(slots := Park(c.slots));
  }

  lemma RunningWaiter(c: Conn, w: nat, eof: bool, fits: bool, head: bool)
    requires Lifecycle(c) && !c.cfg.server && w in c.slots.notified
    ensures Lifecycle(RunWaiter(c, w, eof, fits, head))
  {
    assert |c.slots.notified - {w}| == |c.slots.notified| - 1;
    var r := Requesting(c.(slots := c.slots.(notified := c.slots.notified - {w})), eof, fits, head);
  }

  lemma Reserving(c: Conn)
    requires Lifecycle(c) && !c.cfg.server
    ensures Lifecycle(Reserve(c))
  {
  }

  lemma ReleasingReserved(c: Conn)
    requires Lifecycle(c) && !c.cfg.server && c.slots.reserved > 0
    ensures Lifecycle(ReleaseReserved(c))
  {
    var s := c.slots.(reserved := c.slots.reserved - 1);
    ReleasingLocal(s);
    var c' := c.(slots := ReleaseLocal(s));
    Closing(c, c', c.shut.goAway);
    Finished(c', c.shut.goAway);
  }

  lemma SendingReserved(c: Conn, eof: bool, fits: bool, head: bool)
    requires Lifecycle(c) && !c.cfg.server && c.slots.reserved > 0
    ensures Lifecycle(SendReserved(c, eof, fits, head))
  {
    if !c.shut.error && !c.shut.closed && c.shut.goAway.None? {
      Opening(c, eof, fits, head, 0);
    }
  }

  lemma Disconnecting(c: Conn)
    requires Streams(c) && Counted(c, 0) && SlotsServed(c.slots)
    requires c.shut.goAway.Some? && !c.cfg.server ==> forall id :: id in c.mapped ==> id <= c.shut.goAway.value
    requires c.shut.error || c.shut.forced || (c.shut.closed ==> c.mapped == {} && c.slots.reserved == 0)
    ensures Lifecycle(DisconnectWhenReady(c))
  {
    var c' := c.(slots := ClearWaiters(c.slots), shut := c.shut.(disconnecting := true));
    Finished(c', c.shut.goAway);
  }

  // ----- frames from the peer --------------------------------------------------------------------

  lemma HearingHeaders(c: Conn, id: nat, h: Headers)
    requires Lifecycle(c) && id in c.mapped
    ensures Lifecycle(StreamHeaders(c, id, h))
  {
    var s := c.streams[id];
    match HearHeaders(c.cfg.server, s.life.recv, s.into.content, h)
    case Interim =>
    case Opened(content, eof) =>
      var c' := SetContent(c, id, content);
      SettingSameLife(c, id, s.(into := s.into.(content := content)));
      SameLifeKeeps(c, c');
      if eof {
        Shutting(c', id, true, false, false, c.shut.goAway);
      } else {
        Advancing(c', id, c'.streams[id].(life := c'.streams[id].life.(recv := Payload)), 0, c.shut.goAway);
      }
    case Ended => Shutting(c, id, true, false, false, c.shut.goAway);
    case Malformed => Resetting(c, id);
  }

  lemma Numbering(c: Conn, id: nat)
    requires Lifecycle(c) && c.cfg.server && id > c.ids.last && id % 2 == 1
    ensures Lifecycle(c.(ids := c.ids.(last := id))) && id !in c.streams
  {
  }

  lemma AcceptingStream(c: Conn, id: nat)
    requires Lifecycle(c) && c.cfg.server && id % 2 == 1 && id <= c.ids.last && id !in c.streams
    requires !c.shut.disconnecting && (c.cfg.maxRemote.Some? ==> c.slots.remote < c.cfg.maxRemote.value)
    ensures Lifecycle(Insert(c, id, false))
  {
    var c' := Inserting(c, id, false, 0);
  }

  lemma ReceivingHeaders(c: Conn, id: nat, h: Headers, pending: bool)
    requires Lifecycle(c)
    ensures Lifecycle(RecvHeaders(c, id, h, pending))
  {
    FailingAll(c);
    if id in c.mapped {
      HearingHeaders(c, id, h);
    } else if id % 2 == 1 && c.cfg.server && id > c.ids.last {
      Numbering(c, id);
      var c' := c.(ids := c.ids.(last := id));
      if !c.shut.disconnecting && (c.cfg.maxRemote.Some? ==> c.slots.remote < c.cfg.maxRemote.value) {
        AcceptingStream(c', id);
        HearingHeaders(Insert(c', id, false), id, h);
      }
    }
  }

  lemma ReceivedSameLife(c: Conn, n: nat)
    requires Wf(c) && c.cfg.conThreshold >= 0
    ensures SameLife(c, Received(c, n)) && SameLife(c, Consumed(c, n))
  {
  }

  lemma TokensSameLife(c: Conn, id: nat, n: nat)
    requires Wf(c) && id in c.streams
    ensures SameLife(c, NewToken(c, id, n))
  {
  }

  lemma ConsumingSameLife(c: Conn, t: nat, n: nat)
    requires Wf(c) && c.cfg.conThreshold >= 0 && c.cfg.threshold >= 0
    requires t < |c.receiving.tokens| && n <= c.receiving.tokens[t].size
    ensures SameLife(c, ConsumeToken(c, t, n))
  {
  }

  /** Data moves tokens and windows; the lifecycle sees at most a half closed. */
  lemma ReceivingData(c: Conn, id: nat, flow: nat, len: nat, eof: bool, pending: bool)
    requires Lifecycle(c) && c.cfg.conThreshold >= 0 && c.cfg.threshold >= 0 && len <= flow
    ensures Lifecycle(RecvData(c, id, flow, len, eof, pending))
  {
    FailingAll(c);
    if id in c.mapped {
      StreamingData(c, id, flow, len, eof);
    } else {
      Refunding(c, flow);
    }
  }

  lemma Refunding(c: Conn, flow: nat)
    requires Lifecycle(c) && c.cfg.conThreshold >= 0
    ensures Lifecycle(Consumed(Received(c, flow), flow))
  {
    ReceivedSameLife(c, flow);
    SameLifeKeeps(c, Received(c, flow));
    ReceivedSameLife(Received(c, flow), flow);
    SameLifeKeeps(Received(c, flow), Consumed(Received(c, flow), flow));
  }

  lemma Accepting(c: Conn, id: nat, flow: nat, len: nat)
    requires Lifecycle(c) && c.cfg.conThreshold >= 0 && c.cfg.threshold >= 0 && len <= flow && id in c.streams
    ensures Lifecycle(Accept(c, id, flow, len))
  {
    var c' := NewToken(c, id, flow);
    TokensSameLife(c, id, flow);
    SameLifeKeeps(c, c');
    if flow > len {
      ConsumingSameLife(c', |c.receiving.tokens|, flow - len);
      SameLifeKeeps(c', Accept(c, id, flow, len));
    }
  }

  lemma StreamingData(c: Conn, id: nat, flow: nat, len: nat, eof: bool)
    requires Lifecycle(c) && c.cfg.conThreshold >= 0 && c.cfg.threshold >= 0 && len <= flow && id in c.mapped
    ensures Lifecycle(StreamData(c, id, flow, len, eof))
  {
    if flow > c.streams[id].into.window {
      Refunding(c, flow);
      Resetting(Consumed(Received(c, flow), flow), id);
    } else {
      Accepting(c, id, flow, len);
      Delivering(Accept(c, id, flow, len), id, |c.receiving.tokens|, len, eof);
    }
  }

  lemma Delivering(c: Conn, id: nat, t: nat, len: nat, eof: bool)
    requires Lifecycle(c) && c.cfg.conThreshold >= 0 && c.cfg.threshold >= 0 && id in c.streams && t < |c.receiving.tokens|
    ensures Lifecycle(Deliver(c, id, t, len, eof))
  {
    var s := c.streams[id];
    var taken := TakePayload(s.life.recv, s.into.content, len, eof);
    var c' := SetContent(c, id, taken.content);
    SettingSameLife(c, id, s.(into := s.into.(content := taken.content)));
    SameLifeKeeps(c, c');
    if taken.Took? {
      Shutting(c', id, true, false, false, c.shut.goAway);
    } else {
      DroppingToken(c', t);
      Resetting(DropToken(c', t), id);
    }
  }

  lemma DroppingToken(c: Conn, t: nat)
    requires Lifecycle(c) && c.cfg.conThreshold >= 0 && c.cfg.threshold >= 0 && t < |c.receiving.tokens|
    ensures Lifecycle(DropToken(c, t))
  {
    if c.receiving.tokens[t].size > 0 {
      ConsumingSameLife(c, t, c.receiving.tokens[t].size);
      SameLifeKeeps(c, ConsumeToken(c, t, c.receiving.tokens[t].size));
    }
  }

  lemma {:induction false} AdjustingAll(c: Conn, order: seq<nat>, upd: int)
    requires Wf(c) && forall i :: 0 <= i < |order| ==> order[i] in c.streams
    ensures SameLife(c, AdjustAll(c, order, upd).0)
    decreases |order|
  {
    if |order| > 0 && Window.Fits(c.streams[order[0]].out.window + upd) {
      var s := c.streams[order[0]];
      SettingSameLife(c, order[0], Woken(s.(out := s.out.(window := s.out.window + upd)), c.sending.window));
      AdjustingAll(Adjust(c, order[0], upd), order[1..], upd);
      SameLifeTwice(c, Adjust(c, order[0], upd), AdjustAll(c, order, upd).0);
    }
  }

  lemma LimitingStreams(c: Conn, max: Option<nat>)
    requires Lifecycle(c)
    ensures Lifecycle(LimitStreams(c, max))
  {
  }

  lemma ReceivingSettings(c: Conn, maxStreams: Option<nat>, initial: Option<nat>, order: seq<nat>)
    requires Lifecycle(c) && forall i :: 0 <= i < |order| ==> order[i] in c.streams
    ensures Lifecycle(RecvSettings(c, maxStreams, initial, order))
  {
    LimitingStreams(c, maxStreams);
    if initial.Some? {
      var r := ChangingInitial(LimitStreams(c, maxStreams), initial.value, order);
      FailingAll(r.0);
    }
  }

  lemma ChangingInitial(c: Conn, val: nat, order: seq<nat>) returns (r: (Conn, bool))
    requires Lifecycle(c) && forall i :: 0 <= i < |order| ==> order[i] in c.streams
    ensures r == ChangeInitial(c, val, order) && Lifecycle(r.0)
  {
    SettingInitial(c, val);
    if val == c.sending.initial {
      r := (SetInitial(c, val), true);
    } else {
      r := AdjustedAll(SetInitial(c, val), order, val - c.sending.initial);
    }
  }

  lemma AdjustedAll(c: Conn, order: seq<nat>, upd: int) returns (r: (Conn, bool))
    requires Lifecycle(c) && forall i :: 0 <= i < |order| ==> order[i] in c.streams
    ensures r == AdjustAll(c, order, upd) && Lifecycle(r.0)
  {
    r := AdjustAll(c, order, upd);
    AdjustingAll(c, order, upd);
    SameLifeKeeps(c, r.0);
  }

  lemma SettingInitial(c: Conn, val: nat)
    requires Lifecycle(c)
    ensures Lifecycle(SetInitial(c, val))
  {
    SameLifeKeeps(c, SetInitial(c, val));
  }

  lemma Crediting(c: Conn, inc: nat)
    requires Lifecycle(c)
    ensures Lifecycle(CreditConnection(c, inc))
  {
    SameLifeKeeps(c, CreditConnection(c, inc));
  }

  lemma Broadcasting(c: Conn) returns (r: Conn)
    requires Lifecycle(c)
    ensures r == Broadcast(c) && Lifecycle(r)
  {
    r := Broadcast(c);
    SameLifeKeeps(c, r);
  }

  lemma UpdatingConnection(c: Conn, inc: nat) returns (r: Option<Conn>)
    requires Lifecycle(c)
    ensures r == ConnectionUpdate(c, inc) && (r.Some? ==> Lifecycle(r.value))
  {
    if inc == 0 || c.sending.window + inc > Window.MAX {
      r := None;
    } else {
      Crediting(c, inc);
      if Window.Size(c.sending.window) == 0 {
        var c' := Broadcasting(CreditConnection(c, inc));
        r := Some(c');
      } else {
        r := Some(CreditConnection(c, inc));
      }
    }
  }

  lemma UpdatingStream(c: Conn, id: nat, inc: nat)
    requires Lifecycle(c) && id in c.streams
    ensures Lifecycle(StreamUpdate(c, id, inc))
  {
    Resetting(c, id);
    var s := c.streams[id];
    if inc > 0 && s.out.window + inc <= Window.MAX {
      SettingSameLife(c, id, Woken(s.(out := Credited(s.out, inc)), c.sending.window));
      SameLifeKeeps(c, StreamUpdate(c, id, inc));
    }
  }

  lemma ReceivingUpdate(c: Conn, id: nat, inc: nat, pending: bool)
    requires Lifecycle(c)
    ensures Lifecycle(RecvUpdate(c, id, inc, pending))
  {
    FailingAll(c);
    var r := UpdatingConnection(c, inc);
    if id in c.mapped {
      UpdatingStream(c, id, inc);
    }
  }

  lemma AckingSameLife(c: Conn)
    requires Wf(c) && !c.receiving.acked && c.cfg.threshold >= 0
    ensures SameLife(c, AckAll(c))
  {
  }

  lemma ReceivingAck(c: Conn, order: seq<nat>)
    requires Lifecycle(c) && c.cfg.threshold >= 0 && forall i :: 0 <= i < |order| ==> order[i] in c.streams
    ensures Lifecycle(RecvAck(c, order))
  {
    FailingAll(c);
    if !c.receiving.acked {
      AckingSameLife(c);
      SameLifeKeeps(c, AckAll(c));
      FailingEach(AckAll(c), order, c.shut.goAway);
    }
  }

  /** The streams failed by GOAWAY are the local ones above the last processed id. */
  lemma ReceivingGoAway(c: Conn, last: nat, order: seq<nat>)
    requires Lifecycle(c)
    requires forall i :: 0 <= i < |order| ==> order[i] in c.mapped
    requires forall id :: id in Unprocessed(c, last) ==> id in order
    ensures Lifecycle(RecvGoAway(c, last, order))
  {
    var c1 := c.(shut := c.shut.(goAway := Some(last)));
    assert LivesOn(c1, c.shut.goAway);
    FailingEach(c1, order, c.shut.goAway);
    FailedAreGone(c1, order);
    var c2 := FailEach(c1, order);
    forall id | id in c2.mapped && !c.cfg.server
      ensures id <= last
    {
      assert id > last ==> id in Unprocessed(c, last);
    }
    Disconnecting(c2);
  }

  lemma {:induction false} FailedAreGone(c: Conn, ids: seq<nat>)
    requires Wf(c) && forall i :: 0 <= i < |ids| ==> ids[i] in c.streams
    ensures FailEach(c, ids).mapped <= c.mapped
    ensures forall i :: 0 <= i < |ids| ==> ids[i] !in FailEach(c, ids).mapped
    decreases |ids|
  {
    if |ids| > 0 {
      FailedAreGone(Shut(c, ids[0], true, true, true), ids[1..]);
    }
  }
}
