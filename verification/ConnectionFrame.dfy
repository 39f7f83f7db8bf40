/** What a step leaves alone: the streams it is not about, and the ledgers and messages that
    only some events move. */
module ConnectionFrame {
  import opened Prelude
  import Window
  import opened Messages
  import opened Connection
  import opened ConnectionLife
  import opened ConnectionSend
  import opened ConnectionReceive
  import opened ConnectionRuns

  /** c' differs from c in the stream id at most, as far as streams go. */
  ghost predicate Elsewhere(c: Conn, c': Conn, id: nat) {
    match (c, c')
    case (c, c') =>
      && Wf(c') && c'.cfg == c.cfg && c'.ids == c.ids && c'.streams.Keys == c.streams.Keys
      && (forall j :: j in c.streams && j != id ==> c'.streams[j] == c.streams[j])
      && (forall j :: j != id ==> (j in c'.mapped <==> j in c.mapped))
  }

  predicate SameLedger(o: Out, o': Out) {
    o'.credit == o.credit && o'.sent == o.sent
  }

  /** A stream that has not failed hears no more and no less. */
  predicate SameHearing(s: Stream, s': Stream) {
    s'.life.error || (!s.life.error && s'.life.recv == s.life.recv && s'.into.content == s.into.content)
  }

  /** Nothing is credited and nothing sent; new streams start at zero. */
  ghost predicate LedgersRest(c: Conn, c': Conn) {
    match (c, c')
    case (c, c') =>
      && c'.sending.credit == c.sending.credit && c'.sending.sent == c.sending.sent && c.streams.Keys <= c'.streams.Keys
      && (forall id :: id in c.streams ==> SameLedger(c.streams[id].out, c'.streams[id].out))
      && (forall id :: id in c'.streams && id !in c.streams ==> c'.streams[id].out.credit == 0 && c'.streams[id].out.sent == 0)
  }

  ghost predicate HearingRests(c: Conn, c': Conn) {
    match (c, c')
    case (c, c') =>
      && c'.cfg == c.cfg && c.streams.Keys <= c'.streams.Keys
      && forall id :: id in c.streams ==> SameHearing(c.streams[id], c'.streams[id])
  }

  ghost predicate Quiet(c: Conn, c': Conn) {
    match (c, c')
    case (c, c') => LedgersRest(c, c') && HearingRests(c, c') && c'.streams.Keys == c.streams.Keys
  }

  lemma QuietTwice(c: Conn, c': Conn, c'': Conn)
    requires Quiet(c, c') && Quiet(c', c'')
    ensures Quiet(c, c'')
  {
  }

  lemma Unmoved(c: Conn, c': Conn)
    requires c'.streams == c.streams && c'.cfg == c.cfg && c'.sending.credit == c.sending.credit && c'.sending.sent == c.sending.sent
    ensures Quiet(c, c')
  {
  }

  lemma OnlyOne(c: Conn, c': Conn, id: nat)
    requires Elsewhere(c, c', id) && id in c.streams && SameLedger(c.streams[id].out, c'.streams[id].out)
    requires c'.sending == c.sending
    ensures LedgersRest(c, c') && (SameHearing(c.streams[id], c'.streams[id]) ==> Quiet(c, c'))
  {
  }

  // ----- closing streams -------------------------------------------------------------------

  lemma Drops(c: Conn, id: nat) returns (r: Conn)
    requires Wf(c) && id in c.streams
    ensures r == DropStream(c, id) && Elsewhere(c, r, id)
    ensures r.sending == c.sending && r.receiving == c.receiving && r.remoteSettings == c.remoteSettings
    ensures r.streams[id].into == c.streams[id].into && r.streams[id].life == c.streams[id].life
    ensures r.streams[id].out == c.streams[id].out.(timer := r.streams[id].out.timer)
    ensures r.mapped == c.mapped - {id} && r.shut == c.shut.(closed := r.shut.closed)
  {
    r := DropStream(c, id);
  }

  /** The stream that Shut leaves, but for its timer. */
  function Closing(s: Stream, recv: bool, send: bool, error: bool): (r: Stream) {
    var life := Life(if recv then Closed else s.life.recv, if send then Closed else s.life.send, s.life.error || error);
    s.(life := life, out := if send || BothClosed(life) then Wake(s.out) else s.out)
  }

  /** Closing halves of a stream touches no other stream, and of this one only the life, the
      sleeping task and its timer; it leaves the map if it is closed on both halves. */
  lemma Shuts(c: Conn, id: nat, recv: bool, send: bool, error: bool) returns (r: Conn)
    requires Wf(c) && id in c.streams
    ensures r == Shut(c, id, recv, send, error) && Elsewhere(c, r, id)
    ensures r.sending == c.sending && r.receiving == c.receiving && r.streams[id].into == c.streams[id].into
    ensures r.streams[id].life.recv == if recv then Closed else c.streams[id].life.recv
    ensures r.streams[id].life.send == if send then Closed else c.streams[id].life.send
    ensures r.streams[id].life.error == (c.streams[id].life.error || error)
    ensures SameLedger(c.streams[id].out, r.streams[id].out) && r.streams[id].out.window == c.streams[id].out.window
    ensures r.mapped == if BothClosed(r.streams[id].life) then c.mapped - {id} else c.mapped
    ensures r.shut == c.shut.(closed := r.shut.closed) && r.remoteSettings == c.remoteSettings
    ensures send && (c.streams[id].out.parked ==> c.streams[id].out.waker) ==> !r.streams[id].out.parked
    ensures !BothClosed(r.streams[id].life) ==> r.slots == c.slots && r.shut == c.shut
  {
    var s := Closing(c.streams[id], recv, send, error);
    var c' := SetStream(c, id, s);
    if BothClosed(s.life) {
      r := Drops(c', id);
    } else {
      r := c';
    }
  }

  /** A stream that is reset, if it was not closed already, fails. */
  lemma Resets(c: Conn, id: nat) returns (r: Conn)
    requires Lifecycle(c) && id in c.streams
    ensures r == ResetSilent(c, id) && Elsewhere(c, r, id) && id !in r.mapped
    ensures r.sending == c.sending && r.receiving == c.receiving && r.streams[id].into == c.streams[id].into
    ensures BothClosed(r.streams[id].life) && (id in c.mapped ==> r.streams[id].life.error)
    ensures id !in c.mapped ==> r == c
    ensures SameLedger(c.streams[id].out, r.streams[id].out)
  {
    if BothClosed(c.streams[id].life) {
      r := c;
    } else {
      r := Shuts(c, id, true, true, true);
    }
  }

  // ----- failing many ----------------------------------------------------------------------

  predicate HasFailed(s: Stream, s': Stream) {
    && s'.life == Life(Closed, Closed, true) && s'.into == s.into
    && SameLedger(s.out, s'.out) && s'.out.window == s.out.window
  }

  /** The streams ids fail and leave the map, the others are what they were. */
  ghost predicate Fails(c: Conn, c': Conn, ids: set<nat>) {
    match (c, c')
    case (c, c') =>
      && Wf(c') && c'.cfg == c.cfg && c'.ids == c.ids && c'.streams.Keys == c.streams.Keys
      && c'.sending == c.sending && c'.receiving == c.receiving && c'.remoteSettings == c.remoteSettings
      && c'.mapped == c.mapped - ids
      && (forall id :: id in c.streams && id in ids ==> HasFailed(c.streams[id], c'.streams[id]))
      && (forall id :: id in c.streams && id !in ids ==> c'.streams[id] == c.streams[id])
  }

  lemma FailingIsQuiet(c: Conn, c': Conn, ids: set<nat>)
    requires Fails(c, c', ids)
    ensures Quiet(c, c')
  {
  }

  function Among(ids: seq<nat>): (r: set<nat>) {
    set id | id in ids
  }

  lemma AmongFirst(ids: seq<nat>)
    requires |ids| > 0
    ensures Among(ids) == {ids[0]} + Among(ids[1..])
  {
    assert ids == [ids[0]] + ids[1..];
  }

  lemma {:induction false} FailsEach(c: Conn, ids: seq<nat>) returns (r: Conn)
    requires Wf(c) && forall i :: 0 <= i < |ids| ==> ids[i] in c.streams
    ensures r == FailEach(c, ids) && Fails(c, r, Among(ids))
    ensures r.shut == c.shut.(closed := r.shut.closed)
    decreases |ids|
  {
    if |ids| == 0 {
      r := c;
    } else {
      var c' := FailsOne(c, ids[0]);
      r := FailsEach(c', ids[1..]);
      AmongFirst(ids);
      FailsFirst(c, c', r, ids[0], Among(ids[1..]));
    }
  }

  lemma FailsOne(c: Conn, id: nat) returns (r: Conn)
    requires Wf(c) && id in c.streams
    ensures r == Shut(c, id, true, true, true) && Fails(c, r, {id})
    ensures r.shut == c.shut.(closed := r.shut.closed)
  {
    r := Shuts(c, id, true, true, true);
  }

  lemma FailsFirst(c: Conn, c': Conn, r: Conn, id: nat, ids: set<nat>)
    requires Wf(c) && id in c.streams && Fails(c, c', {id}) && Fails(c', r, ids)
    ensures Fails(c, r, {id} + ids)
  {
  }

  lemma FailsAll(c: Conn) returns (r: Conn)
    requires Wf(c)
    ensures r == FailAll(c) && Fails(c, r, c.mapped) && r.mapped == {}
    ensures r.shut == c.shut.(error := true)
  {
    r := FailAll(c);
  }

  // ----- quiet events ------------------------------------------------------------------------

  lemma SendingHeadersIsQuiet(c: Conn, id: nat, eof: bool) returns (r: Conn)
    requires Wf(c) && id in c.streams
    ensures r == SendHeaders(c, id, eof) && Quiet(c, r)
  {
    if eof {
      r := Shuts(c, id, false, true, false);
    } else {
      r := SendHeaders(c, id, eof);
    }
    OnlyOne(c, r, id);
  }

  lemma ResettingIsQuiet(c: Conn, id: nat)
    requires Lifecycle(c) && id in c.streams
    ensures Quiet(c, ResetSilent(c, id))
  {
    var r := Resets(c, id);
    OnlyOne(c, r, id);
  }

  lemma ShuttingIsQuiet(c: Conn, id: nat, recv: bool, error: bool)
    requires Wf(c) && id in c.streams && (recv ==> error)
    ensures Quiet(c, Shut(c, id, recv, true, error))
  {
    var r := Shuts(c, id, recv, true, error);
    OnlyOne(c, r, id);
  }

  lemma PollingIsQuiet(c: Conn, id: nat)
    requires Lifecycle(c) && id in c.streams
    ensures Quiet(c, PollCapacity(c, id)) && Quiet(c, CancelCapacity(c, id))
  {
    OnlyOne(c, PollCapacity(c, id), id);
    OnlyOne(c, CancelCapacity(c, id), id);
  }

  lemma TimingOutIsQuiet(c: Conn, id: nat)
    requires Lifecycle(c) && id in c.streams
    ensures Quiet(c, CapacityTimeout(c, id))
  {
    var s := c.streams[id];
    var s' := s.(out := s.out.(timer := false));
    var c' := SetStream(c, id, s');
    OnlyOne(c, c', id);
    SettingSameLife(c, id, s');
    SameLifeKeeps(c, c');
    ResettingIsQuiet(c', id);
    QuietTwice(c, c', ResetSilent(c', id));
  }

  lemma StreamIsQuiet(c: Conn, e: Event)
    requires Lifecycle(c) && ValidConfig(c.cfg) && Enabled(c, e) && OnStream(e) && !e.ChunkSent?
    ensures Quiet(c, StepStream(c, e))
  {
    match e
    case ResponseSent(id, eof, fits) =>
      var r := SendingHeadersIsQuiet(c, id, eof);
      Unmoved(c, c);
    case TrailersSent(id, _) =>
      ShuttingIsQuiet(c, id, false, false);
      Unmoved(c, c);
    case EmptySent(id) =>
      ShuttingIsQuiet(c, id, false, false);
      Unmoved(c, c);
    case CapacityPolled(id) => PollingIsQuiet(c, id);
    case CapacityCancelled(id) => PollingIsQuiet(c, id);
    case CapacityTimedOut(id) => TimingOutIsQuiet(c, id);
    case StreamReset(id) => ResettingIsQuiet(c, id);
  }

  /** Events that open streams, and the flag of a request that asks with HEAD. */
  predicate Opens(e: Event) {
    e.RequestSent? || e.WaiterRuns? || e.ReservedSent?
  }

  lemma ConnectionIsQuiet(c: Conn, e: Event)
    requires Wf(c) && ValidConfig(c.cfg) && Enabled(c, e) && OnConnection(e) && !Opens(e)
    ensures Quiet(c, StepConnection(c, e))
  {
    Unmoved(c, StepConnection(c, e));
  }

  lemma ConsumingIsQuiet(c: Conn, t: nat, n: nat) returns (r: Conn)
    requires Wf(c) && ValidConfig(c.cfg) && t < |c.receiving.tokens| && n <= c.receiving.tokens[t].size
    ensures r == ConsumeToken(c, t, n) && Quiet(c, r)
  {
    r := ConsumeToken(c, t, n);
    OnlyOne(c, r, c.receiving.tokens[t].stream);
  }

  lemma CapacityIsQuiet(c: Conn, e: Event)
    requires Wf(c) && ValidConfig(c.cfg) && Enabled(c, e) && OnCapacity(e)
    ensures Quiet(c, StepCapacity(c, e))
  {
    match e
    case CapacityConsumed(t, n) => var r := ConsumingIsQuiet(c, t, n);
    case CapacityDropped(t) =>
      var r := ConsumingIsQuiet(c, t, c.receiving.tokens[t].size);
      Unmoved(c, c);
    case CapacityMerged(a, b) => Unmoved(c, MergeTokens(c, a, b));
  }

  lemma FailureIsQuiet(c: Conn, e: Event)
    requires Wf(c) && (e.ProtocolError? || e.Aborted? || e.CloseForced?)
    ensures Quiet(c, StepFailure(c, e))
  {
    if e.CloseForced? {
      Unmoved(c, ForceClose(c));
    } else {
      var c' := FailsAll(c);
      FailingIsQuiet(c, c', c.mapped);
      Unmoved(c', StepFailure(c, e));
      QuietTwice(c, c', StepFailure(c, e));
    }
  }

  // ----- quiet frames --------------------------------------------------------------------------

  lemma AcknowledgingIsQuiet(c: Conn, order: seq<nat>)
    requires Wf(c) && ValidConfig(c.cfg) && forall i :: 0 <= i < |order| ==> order[i] in c.streams
    ensures Quiet(c, RecvAck(c, order))
  {
    if c.receiving.acked {
      var r := FailsAll(c);
      FailingIsQuiet(c, r, c.mapped);
    } else {
      var c' := AckAll(c);
      assert Quiet(c, c');
      var r := FailsEach(c', order);
      FailingIsQuiet(c', r, Among(order));
      QuietTwice(c, c', r);
    }
  }

  lemma AdjustingOneIsQuiet(c: Conn, id: nat, upd: int) returns (r: Conn)
    requires Wf(c) && id in c.streams
    ensures r == Adjust(c, id, upd) && Quiet(c, r)
  {
    r := Adjust(c, id, upd);
    OnlyOne(c, r, id);
  }

  lemma {:induction false} AdjustingIsQuiet(c: Conn, order: seq<nat>, upd: int)
    requires Wf(c) && forall i :: 0 <= i < |order| ==> order[i] in c.streams
    ensures Quiet(c, AdjustAll(c, order, upd).0)
    decreases |order|
  {
    Unmoved(c, c);
    if |order| > 0 && Window.Fits(c.streams[order[0]].out.window + upd) {
      var c' := AdjustingOneIsQuiet(c, order[0], upd);
      AdjustingIsQuiet(c', order[1..], upd);
      QuietTwice(c, c', AdjustAll(c', order[1..], upd).0);
    }
  }

  lemma ChangingInitialIsQuiet(c: Conn, val: nat, order: seq<nat>)
    requires Wf(c) && forall i :: 0 <= i < |order| ==> order[i] in c.streams
    ensures Quiet(c, ChangeInitial(c, val, order).0)
  {
    var c' := SetInitial(c, val);
    Unmoved(c, c');
    AdjustingIsQuiet(c', order, val - c.sending.initial);
    QuietTwice(c, c', AdjustAll(c', order, val - c.sending.initial).0);
  }

  lemma SettingsAreQuiet(c: Conn, max: Option<nat>, initial: Option<nat>, order: seq<nat>)
    requires Wf(c) && forall i :: 0 <= i < |order| ==> order[i] in c.streams
    ensures Quiet(c, RecvSettings(c, max, initial, order))
  {
    var c' := LimitStreams(c, max);
    Unmoved(c, c');
    if initial.Some? {
      var c'' := ChangeInitial(c', initial.value, order).0;
      ChangingInitialIsQuiet(c', initial.value, order);
      QuietTwice(c, c', c'');
      var r := FailsAll(c'');
      FailingIsQuiet(c'', r, c''.mapped);
      QuietTwice(c, c'', r);
    }
  }

  lemma InvalidIsQuiet(c: Conn, id: nat, headers: bool)
    requires Lifecycle(c)
    ensures Quiet(c, RecvInvalid(c, id, headers))
  {
    if id in c.mapped {
      ResettingIsQuiet(c, id);
    } else {
      var r := FailsAll(c);
      FailingIsQuiet(c, r, c.mapped);
      Unmoved(c, c.(ids := c.ids.(last := id)));
      Unmoved(c, c);
    }
  }

  lemma GoingAwayIsQuiet(c: Conn, last: nat, order: seq<nat>)
    requires Wf(c) && forall i :: 0 <= i < |order| ==> order[i] in c.streams
    ensures Quiet(c, RecvGoAway(c, last, order))
  {
    var c' := c.(shut := c.shut.(goAway := Some(last)));
    Unmoved(c, c');
    var r := FailsEach(c', order);
    FailingIsQuiet(c', r, Among(order));
    QuietTwice(c, c', r);
    Unmoved(r, DisconnectWhenReady(r));
    QuietTwice(c, r, DisconnectWhenReady(r));
  }

  lemma ResetIsQuiet(c: Conn, id: nat)
    requires Lifecycle(c)
    ensures Quiet(c, RecvReset(c, id))
  {
    if id in c.mapped {
      ShuttingIsQuiet(c, id, true, true);
    }
    var r := FailsAll(c);
    FailingIsQuiet(c, r, c.mapped);
    Unmoved(c, c);
  }

  lemma FrameIsQuiet(c: Conn, e: Event)
    requires Lifecycle(c) && ValidConfig(c.cfg) && Enabled(c, e) && IsFrame(e)
    requires !e.HeadersReceived? && !e.DataReceived? && !e.UpdateReceived?
    ensures Quiet(c, StepFrame(c, e))
  {
    match e
    case AckReceived(order) => AcknowledgingIsQuiet(c, order);
    case SettingsReceived(max, initial, order) => SettingsAreQuiet(c, max, initial, order);
    case ResetReceived(id) => ResetIsQuiet(c, id);
    case InvalidReceived(id, headers) => InvalidIsQuiet(c, id, headers);
    case GoAwayReceived(last, order) => GoingAwayIsQuiet(c, last, order);
  }

  /** The events that credit, send, open or deliver. */
  predicate Moves(e: Event) {
    e.ChunkSent? || e.UpdateReceived? || e.HeadersReceived? || e.DataReceived? || Opens(e)
  }

  lemma TheRestIsQuiet(c: Conn, e: Event)
    requires Lifecycle(c) && ValidConfig(c.cfg) && Enabled(c, e) && !Moves(e)
    ensures Quiet(c, Step(c, e))
  {
    if OnConnection(e) {
      ConnectionIsQuiet(c, e);
    } else if OnStream(e) {
      StreamIsQuiet(c, e);
    } else if OnCapacity(e) {
      CapacityIsQuiet(c, e);
    } else if IsFrame(e) {
      FrameIsQuiet(c, e);
    } else {
      FailureIsQuiet(c, e);
    }
  }
}
