/** The connection as it runs: its cells, and the methods that update them, each proved to
    take the step that the specification takes. */
module ConnectionState {
  import opened Prelude
  import Window
  import opened Messages
  import C = Connection
  import opened ConnectionSend
  import opened ConnectionRuns

  /** What a task that asks for send capacity is told. */
  datatype Answer = Pending | Capacity(octets: nat) | SendClosed | Error

  lemma Listed(s: set<nat>) returns (order: seq<nat>)
    ensures Lists(order, s)
  {
    if s == {} {
      order := [];
    } else {
      var x :| x in s;
      var more := Listed(s - {x});
      order := [x] + more;
    }
  }

  lemma {:induction false} AdjustOneMore(c: C.Conn, order: seq<nat>, id: nat, upd: int)
    requires C.Wf(c) && id in c.streams && forall i :: 0 <= i < |order| ==> order[i] in c.streams
    ensures var (c', fine) := C.AdjustAll(c, order, upd);
            C.AdjustAll(c, order + [id], upd) ==
              if !fine || !Window.Fits(c'.streams[id].out.window + upd) then (c', false) else (C.Adjust(c', id, upd), true)
    decreases |order|
  {
    if |order| == 0 {
      assert order + [id] == [id];
      assert [id][1..] == [];
    } else if Window.Fits(c.streams[order[0]].out.window + upd) {
      assert (order + [id])[1..] == order[1..] + [id];
      AdjustOneMore(C.Adjust(c, order[0], upd), order[1..], id, upd);
    }
  }

  lemma {:induction false} AdjustStops(c: C.Conn, order: seq<nat>, more: seq<nat>, upd: int)
    requires C.Wf(c) && (forall i :: 0 <= i < |order| ==> order[i] in c.streams) && (forall i :: 0 <= i < |more| ==> more[i] in c.streams)
    requires !C.AdjustAll(c, order, upd).1
    ensures C.AdjustAll(c, order + more, upd) == C.AdjustAll(c, order, upd)
    decreases |order|
  {
    assert (order + more)[1..] == order[1..] + more;
    if Window.Fits(c.streams[order[0]].out.window + upd) {
      AdjustStops(C.Adjust(c, order[0], upd), order[1..], more, upd);
    }
  }

  lemma ListsOneMore(order: seq<nat>, ids: set<nat>, todo: set<nat>, id: nat)
    requires Lists(order, ids - todo) && id in todo && todo <= ids
    ensures Lists(order + [id], ids - (todo - {id}))
  {
  }

  lemma ListsIf(order: seq<nat>, ids: set<nat>, todo: set<nat>, id: nat)
    requires Lists(order, ids - todo) && id in todo
    ensures Lists(if id in ids then order + [id] else order, ids - (todo - {id}))
  {
  }

  lemma ListsRest(order: seq<nat>, ids: set<nat>, todo: set<nat>, rest: seq<nat>)
    requires Lists(order, ids - todo) && Lists(rest, todo) && todo <= ids
    ensures Lists(order + rest, ids)
  {
  }

  /** Where the adjustment stops, the rest of the map does not matter. */
  lemma AdjustFails(c: C.Conn, order: seq<nat>, ids: set<nat>, todo: set<nat>, id: nat, upd: int) returns (all: seq<nat>)
    requires C.Wf(c) && (forall i :: 0 <= i < |order| ==> order[i] in c.streams) && ids <= c.streams.Keys
    requires Lists(order, ids - todo) && id in todo && todo <= ids
    requires !C.AdjustAll(c, order + [id], upd).1
    ensures Lists(all, ids) && C.AdjustAll(c, all, upd) == C.AdjustAll(c, order + [id], upd)
  {
    var rest := Listed(todo - {id});
    AdjustStops(c, order + [id], rest, upd);
    ListsOneMore(order, ids, todo, id);
    ListsRest(order + [id], ids, todo - {id}, rest);
    all := order + [id] + rest;
  }

  /** All of ids but todo has been adjusted, in some order. */
  ghost predicate Adjusted(c: C.Conn, ids: set<nat>, todo: set<nat>, order: seq<nat>, upd: int, now: C.Conn) {
    match order
    case order =>
      && C.Wf(c) && (forall i :: 0 <= i < |order| ==> order[i] in c.streams)
      && ids <= c.streams.Keys && now.streams.Keys == c.streams.Keys
      && Lists(order, ids - todo) && C.AdjustAll(c, order, upd) == (now, true)
  }

  /** One more, or the end. */
  lemma AdjustGoesOn(c: C.Conn, ids: set<nat>, todo: set<nat>, order: seq<nat>, upd: int, was: C.Conn, id: nat) returns (order': seq<nat>)
    requires Adjusted(c, ids, todo, order, upd, was) && C.Wf(was) && id in todo && todo <= ids && id in was.streams
    ensures Window.Fits(was.streams[id].out.window + upd) ==> Adjusted(c, ids, todo - {id}, order', upd, C.Adjust(was, id, upd))
    ensures !Window.Fits(was.streams[id].out.window + upd) ==>
              Lists(order', ids) && (forall i :: 0 <= i < |order'| ==> order'[i] in c.streams) && C.AdjustAll(c, order', upd) == (was, false)
  {
    AdjustOneMore(c, order, id, upd);
    if Window.Fits(was.streams[id].out.window + upd) {
      ListsOneMore(order, ids, todo, id);
      order' := order + [id];
    } else {
      order' := AdjustFails(c, order, ids, todo, id, upd);
    }
  }

  lemma {:induction false} FailOneMore(c: C.Conn, order: seq<nat>, id: nat)
    requires C.Wf(c) && id in c.streams && forall i :: 0 <= i < |order| ==> order[i] in c.streams
    ensures C.FailEach(c, order + [id]) == C.Shut(C.FailEach(c, order), id, true, true, true)
    decreases |order|
  {
    if |order| == 0 {
      assert order + [id] == [id];
      assert [id][1..] == [];
    } else {
      assert (order + [id])[1..] == order[1..] + [id];
      FailOneMore(C.Shut(c, order[0], true, true, true), order[1..], id);
    }
  }

  lemma ShutNext(c: C.Conn, failed: seq<nat>, i: nat)
    requires C.Wf(c) && i < |failed| && forall j :: 0 <= j < |failed| ==> failed[j] in c.streams
    ensures C.FailEach(c, failed[..i + 1]) == C.Shut(C.FailEach(c, failed[..i]), failed[i], true, true, true)
  {
    assert failed[..i + 1] == failed[..i] + [failed[i]];
    FailOneMore(c, failed[..i], failed[i]);
  }

  class ConnectionState {
    const cfg: C.Config
    var streams: map<nat, C.Stream>
    var mapped: set<nat>
    var ids: C.Ids
    var slots: C.Slots
    var shut: C.Shutdown
    var sending: C.Sending
    var receiving: C.Receiving
    var remoteSettings: bool

    function State(): (c: C.Conn)
      reads this
    {
      C.Conn(cfg, streams, mapped, ids, slots, shut, sending, receiving, remoteSettings)
    }

    /** What the single steps need. */
    ghost predicate Shaped()
      reads this
    {
      C.Wf(State()) && cfg.threshold >= 0 && cfg.conThreshold >= 0
    }

    /** Between events the connection is in a state that a run reaches, so every theorem
        about those holds of it. */
    ghost predicate Valid()
      reads this
    {
      Shaped() && C.ValidConfig(cfg) && Reachable(State())
    }

    /** src/connection.rs:88-185 */
    constructor (cfg: C.Config)
      requires C.ValidConfig(cfg)
      ensures Valid() && State() == C.Init(cfg)
    {
      var (window, granted) := Window.Update(Window.DEFAULT, 0, cfg.conWindow, cfg.conThreshold);
      this.cfg := cfg;
      streams, mapped, ids := map[], {}, C.Ids(1, 0);
      slots := C.Slots(0, 0, 0, Some(C.REMOTE_MAX), [], {}, {}, 0);
      shut := C.Shutdown(false, None, false, false, false);
      sending := C.Sending(Window.DEFAULT, Window.DEFAULT, 0, 0);
      receiving := C.Receiving(window, 0, [], if granted.Some? then granted.value else 0, 0, false);
      remoteSettings := false;
      InitIsReachable(cfg);
    }

    // ----- events ----------------------------------------------------------------------------

    /** Whatever happens, the object takes the step that the specification takes, in the order
        its maps happen to have, and is in a reachable state again. */
    method Handle(e: Event) returns (ghost order: seq<nat>)
      requires Valid() && CanHappen(State(), e)
      modifies this
      ensures Valid() && Enabled(old(State()), WithOrder(e, order))
      ensures State() == Step(old(State()), WithOrder(e, order))
    {
      ghost var c := State();
      order := Dispatch(e);
      ReachableStep(c, WithOrder(e, order));
    }

    method Dispatch(e: Event) returns (ghost order: seq<nat>)
      requires Shaped() && C.ValidConfig(cfg) && CanHappen(State(), e)
      modifies this
      ensures Enabled(old(State()), WithOrder(e, order)) && State() == Step(old(State()), WithOrder(e, order))
    {
      order := [];
      if IsFrame(e) {
        order := HandleFrame(e);
        assert IsFrame(WithOrder(e, order));
      } else {
        assert WithOrder(e, order) == e;
        if OnConnection(e) {
          HandleConnection(e);
        } else if OnStream(e) {
          HandleStream(e);
        } else if OnCapacity(e) {
          HandleCapacity(e);
        } else {
          HandleFailure(e);
        }
      }
    }

    method HandleConnection(e: Event)
      requires Shaped() && C.ValidConfig(cfg) && Enabled(State(), e) && OnConnection(e)
      modifies this
      ensures State() == StepConnection(old(State()), e)
    {
      match e {
        case RequestSent(eof, fits, head) => SendRequest(eof, fits, head);
        case WaiterRuns(w, eof, fits, head) => RunWaiter(w, eof, fits, head);
        case WaiterDropped(w) => DropWaiter(w);
        case StreamReserved => var reserved := Reserve();
        case ReservationReleased => ReleaseReserved();
        case ReservedSent(eof, fits, head) => SendReserved(eof, fits, head);
        case ShutdownStarted => DisconnectWhenReady();
      }
    }

    method HandleStream(e: Event)
      requires Shaped() && C.ValidConfig(cfg) && Enabled(State(), e) && OnStream(e)
      modifies this
      ensures State() == StepStream(old(State()), e)
    {
      match e {
        case ResponseSent(id, eof, fits) => SendResponse(id, eof, fits);
        case TrailersSent(id, fits) => SendTrailers(id, fits);
        case EmptySent(id) => SendEmpty(id);
        case ChunkSent(id, len, frame, eof) => var size := SendChunk(id, len, frame, eof);
        case CapacityPolled(id) => var answer := PollCapacity(id);
        case CapacityCancelled(id) => CancelCapacity(id);
        case CapacityTimedOut(id) => CapacityTimeout(id);
        case StreamReset(id) => ResetSilent(id);
      }
    }

    method HandleCapacity(e: Event)
      requires Shaped() && C.ValidConfig(cfg) && Enabled(State(), e) && OnCapacity(e)
      modifies this
      ensures State() == StepCapacity(old(State()), e)
    {
      match e {
        case CapacityConsumed(t, n) => ConsumeToken(t, n);
        case CapacityDropped(t) => DropToken(t);
        case CapacityMerged(a, b) => MergeTokens(a, b);
      }
    }

    method HandleFrame(e: Event) returns (ghost order: seq<nat>)
      requires Shaped() && C.ValidConfig(cfg) && CanHappen(State(), e) && IsFrame(e)
      modifies this
      ensures Enabled(old(State()), WithOrder(e, order)) && State() == StepFrame(old(State()), WithOrder(e, order))
    {
      order := [];
      match e {
        case HeadersReceived(id, h, pending) => RecvHeaders(id, h, pending);
        case DataReceived(id, flow, len, eof, pending) => RecvData(id, flow, len, eof, pending);
        case AckReceived(_) => order := RecvAck();
        case SettingsReceived(max, initial, _) => order := RecvSettings(max, initial);
        case UpdateReceived(id, size, pending) => RecvUpdate(id, size, pending);
        case ResetReceived(id) => RecvReset(id);
        case InvalidReceived(id, headers) => RecvInvalid(id, headers);
        case GoAwayReceived(last, _) => order := RecvGoAway(last);
      }
    }

    method HandleFailure(e: Event)
      requires Shaped() && (e.ProtocolError? || e.Aborted? || e.CloseForced?)
      modifies this
      ensures State() == StepFailure(old(State()), e)
    {
      match e {
        case ProtocolError => FailAll();
        case Aborted(close) => Abort(close);
        case CloseForced => ForceClose(true);
      }
    }

    /** src/connection.rs:1270-1326 */
    method Abort(close: bool)
      requires Shaped()
      modifies this
      ensures Shaped() && State() == C.Abort(old(State()), close)
    {
      FailAll();
      ForceClose(close);
    }

    method ForceClose(close: bool)
      requires Shaped()
      modifies this`shut
      ensures Shaped() && shut == old(shut).(forced := true, closed := old(shut).closed || close)
    {
      shut := shut.(forced := true, closed := shut.closed || close);
    }

    // ----- slots -----------------------------------------------------------------------------

    /** src/connection.rs:651-660 */
    method WakeWaiters(count: nat)
      modifies this`slots
      ensures slots == C.WakeWaiters(old(slots), count)
    {
      var left := count;
      while left > 0 && |slots.queue| > 0
        invariant C.WakeWaiters(slots, left) == C.WakeWaiters(old(slots), count)
        decreases |slots.queue|
      {
        var w := slots.queue[0];
        slots := slots.(queue := slots.queue[1..]);
        if w in slots.parked {
          slots := slots.(parked := slots.parked - {w}, notified := slots.notified + {w});
          left := left - 1;
        }
      }
    }

    /** src/connection.rs:641-649 */
    method ReleaseLocal()
      modifies this`slots
      ensures slots == C.ReleaseLocal(old(slots))
    {
      slots := slots.(local := if slots.local > 0 then slots.local - 1 else 0);
      if slots.max.Some? {
        WakeWaiters(if slots.max.value > slots.local then slots.max.value - slots.local else 0);
      }
    }

    /** src/connection.rs:1407-1420 */
    method DropWaiter(w: nat)
      modifies this`slots
      ensures slots == C.DropWaiter(old(slots), w)
    {
      if w in slots.parked {
        slots := slots.(parked := slots.parked - {w});
      } else if w in slots.notified {
        slots := slots.(notified := slots.notified - {w});
        WakeWaiters(1);
      }
    }

    // ----- closing ---------------------------------------------------------------------------

    method CloseIfDone()
      requires Shaped()
      modifies this`shut
      ensures Shaped() && State() == C.CloseIfDone(old(State()))
    {
      if mapped == {} && slots.reserved == 0 && shut.disconnecting {
        shut := shut.(closed := true);
      }
    }

    /** src/connection.rs:662-707 */
    method DropStream(id: nat)
      requires Shaped() && id in streams
      modifies this
      ensures Shaped() && State() == C.DropStream(old(State()), id)
    {
      if id in mapped {
        mapped := mapped - {id};
        streams := streams[id := streams[id].(out := streams[id].out.(timer := false))];
        if cfg.server {
          slots := slots.(remote := slots.remote - 1);
        } else {
          ReleaseLocal();
        }
        CloseIfDone();
      }
    }

    /** src/stream.rs:197-301 */
    method Shut(id: nat, recv: bool, send: bool, error: bool)
      requires Shaped() && id in streams
      modifies this
      ensures Shaped() && State() == C.Shut(old(State()), id, recv, send, error)
    {
      var s := streams[id];
      var life := C.Life(if recv then Closed else s.life.recv, if send then Closed else s.life.send, s.life.error || error);
      var closed := life.recv == Closed && life.send == Closed;
      streams := streams[id := s.(life := life, out := if send || closed then C.Wake(s.out) else s.out)];
      if closed {
        DropStream(id);
      }
    }

    /** src/stream.rs:482-490 */
    method ResetSilent(id: nat)
      requires Shaped() && id in streams
      modifies this
      ensures Shaped() && State() == C.ResetSilent(old(State()), id)
    {
      if streams[id].life.recv != Closed || streams[id].life.send != Closed {
        Shut(id, true, true, true);
      }
    }

    /** The map is taken, then every stream of it fails (src/connection.rs:1260-1297). */
    method FailAll()
      requires Shaped()
      modifies this
      ensures Shaped() && State() == C.FailAll(old(State()))
    {
      shut := shut.(error := true);
      slots := slots.(queue := [], parked := {});
      var taken := mapped;
      mapped := {};
      slots := slots.(remote := 0, local := slots.reserved);
      var todo := taken;
      while todo != {}
        invariant todo <= taken && streams.Keys == old(streams).Keys
        invariant forall id :: id in streams ==>
                    streams[id] == if id in taken && id !in todo then C.Failed(old(streams)[id]) else old(streams)[id]
        modifies this`streams
        decreases |todo|
      {
        var id :| id in todo;
        var s := streams[id];
        streams := streams[id := s.(life := C.Life(Closed, Closed, true), out := C.Wake(s.out).(timer := false))];
        todo := todo - {id};
      }
      assert streams == C.FailAll(old(State())).streams;
    }

    method FailEach(failed: seq<nat>)
      requires Shaped() && forall i :: 0 <= i < |failed| ==> failed[i] in streams
      modifies this
      ensures Shaped() && State() == C.FailEach(old(State()), failed)
    {
      ghost var c := State();
      var i := 0;
      while i < |failed|
        invariant 0 <= i <= |failed| && Shaped() && c.streams.Keys <= streams.Keys
        invariant State() == C.FailEach(c, failed[..i])
      {
        ShutNext(c, failed, i);
        Shut(failed[i], true, true, true);
        i := i + 1;
      }
      assert failed[..i] == failed;
    }

    /** src/connection.rs:404-429 */
    method DisconnectWhenReady()
      requires Shaped()
      modifies this
      ensures Shaped() && State() == C.DisconnectWhenReady(old(State()))
    {
      slots := slots.(queue := [], parked := {});
      shut := shut.(disconnecting := true);
      CloseIfDone();
    }

    // ----- opening ---------------------------------------------------------------------------

    /** src/connection.rs:515-552; false if the request cannot be sent. */
    method OpenStream(eof: bool, fits: bool, head: bool) returns (sent: bool)
      requires Shaped() && !cfg.server && shut.goAway.None?
      modifies this
      ensures Shaped()
      ensures match C.OpenStream(old(State()), eof, fits, head)
              case Some(c) => sent && State() == c
              case None => !sent && State() == old(State())
    {
      if !fits {
        return false;
      }
      var id := ids.next;
      if id + 2 > C.MAX_ID {
        return false;
      }
      ids := ids.(next := id + 2);
      Insert(id, head);
      SendHeaders(id, eof);
      sent := true;
    }

    method Insert(id: nat, head: bool)
      requires Shaped() && id !in streams && C.Issued(State(), id) && (shut.goAway.Some? ==> cfg.server)
      modifies this
      ensures Shaped() && State() == C.Insert(old(State()), id, head)
    {
      var window := if receiving.acked then cfg.window else Window.DEFAULT;
      streams := streams[id := C.Stream(C.Life(Idle, Idle, false),
                                        C.Out(sending.initial, false, false, false, false, 0, 0),
                                        C.In(window, 0, if head then Head else Omitted, !receiving.acked))];
      mapped := mapped + {id};
      if cfg.server {
        slots := slots.(remote := slots.remote + 1);
      }
    }

    /** src/stream.rs:506-525 */
    method SendHeaders(id: nat, eof: bool)
      requires Shaped() && id in streams
      modifies this
      ensures Shaped() && State() == C.SendHeaders(old(State()), id, eof)
    {
      if eof {
        Shut(id, false, true, false);
      } else {
        streams := streams[id := streams[id].(life := streams[id].life.(send := Payload))];
      }
    }

    /** src/connection.rs:431-457 */
    method SendRequest(eof: bool, fits: bool, head: bool)
      requires Shaped() && !cfg.server
      modifies this
      ensures Shaped() && State() == C.SendRequest(old(State()), eof, fits, head)
    {
      if shut.error || shut.goAway.Some? || shut.disconnecting {
        return;
      }
      if slots.max.Some? && slots.local >= slots.max.value {
        slots := slots.(queue := slots.queue + [slots.next], parked := slots.parked + {slots.next}, next := slots.next + 1);
        return;
      }
      slots := slots.(local := slots.local + 1);
      var sent := OpenStream(eof, fits, head);
      if !sent {
        ReleaseLocal();
      }
    }

    method RunWaiter(w: nat, eof: bool, fits: bool, head: bool)
      requires Shaped() && !cfg.server
      modifies this
      ensures Shaped() && State() == C.RunWaiter(old(State()), w, eof, fits, head)
    {
      slots := slots.(notified := slots.notified - {w});
      SendRequest(eof, fits, head);
    }

    /** src/connection.rs:460-470 */
    method Reserve() returns (reserved: bool)
      requires Shaped()
      modifies this`slots
      ensures Shaped() && State() == C.Reserve(old(State()))
      ensures reserved <==> slots != old(slots)
    {
      if shut.error || shut.goAway.Some? || shut.disconnecting || (slots.max.Some? && slots.local >= slots.max.value) {
        return false;
      }
      slots := slots.(local := slots.local + 1, reserved := slots.reserved + 1);
      reserved := true;
    }

    /** src/connection.rs:473-486 */
    method ReleaseReserved()
      requires Shaped()
      modifies this
      ensures Shaped() && State() == C.ReleaseReserved(old(State()))
    {
      slots := slots.(reserved := if slots.reserved > 0 then slots.reserved - 1 else 0);
      ReleaseLocal();
      CloseIfDone();
    }

    /** src/connection.rs:491-512 */
    method SendReserved(eof: bool, fits: bool, head: bool)
      requires Shaped() && !cfg.server
      modifies this
      ensures Shaped() && State() == C.SendReserved(old(State()), eof, fits, head)
    {
      if shut.error || shut.closed || shut.goAway.Some? {
        return;
      }
      var sent := OpenStream(eof, fits, head);
      if sent {
        slots := slots.(reserved := if slots.reserved > 0 then slots.reserved - 1 else 0);
      }
    }

    // ----- sending ---------------------------------------------------------------------------

    method CancelCapacity(id: nat)
      requires Shaped() && id in streams
      modifies this`streams
      ensures Shaped() && State() == C.CancelCapacity(old(State()), id)
    {
      streams := streams[id := streams[id].(out := streams[id].out.(waits := false, timer := false, parked := false))];
    }

    /** src/stream.rs:1089-1114 */
    method PollCapacity(id: nat) returns (answer: Answer)
      requires Shaped() && id in streams
      modifies this`streams
      ensures Shaped() && State() == C.PollCapacity(old(State()), id)
      ensures var s := old(streams)[id];
              && (answer.Error? <==> s.life.error || shut.error)
              && (answer.SendClosed? <==> !s.life.error && !shut.error && s.life.send == Closed)
              && (answer.Capacity? <==> !s.life.error && !shut.error && s.life.send != Closed && s.out.window > 0 && sending.window > 0)
              && (answer.Capacity? ==> answer.octets == Min(s.out.window, sending.window))
              && (answer.Pending? <==> streams[id].out.parked)
    {
      var s := streams[id];
      if s.life.error || shut.error {
        CancelCapacity(id);
        return Error;
      }
      if s.life.send == Closed {
        CancelCapacity(id);
        return SendClosed;
      }
      var win := C.Capacity(s.out, sending.window);
      if win > 0 {
        CancelCapacity(id);
        answer := Capacity(win);
      } else {
        streams := streams[id := s.(out := s.out.(waits := true, timer := s.out.timer || cfg.timed, waker := true, parked := true))];
        answer := Pending;
      }
    }

    /** src/stream.rs:1028-1050 */
    method CapacityTimeout(id: nat)
      requires Shaped() && id in streams
      modifies this
      ensures Shaped() && State() == C.CapacityTimeout(old(State()), id)
    {
      var s := streams[id];
      streams := streams[id := s.(out := s.out.(timer := false))];
      if !s.out.waits || s.life.send == Closed || C.Capacity(s.out, sending.window) > 0 {
        return;
      }
      ResetSilent(id);
    }

    /** src/stream.rs:932-963 */
    method SendChunk(id: nat, len: nat, frame: nat, eof: bool) returns (size: nat)
      requires Shaped() && id in streams
      modifies this
      ensures Shaped() && State() == C.SendChunk(old(State()), id, len, frame, eof)
      ensures sending.window == old(sending).window - size && id in streams
      ensures streams[id].out.window == old(streams)[id].out.window - size
    {
      size := 0;
      if streams[id].life.send != Payload || streams[id].life.error || len == 0 {
        return;
      }
      var win := C.Capacity(streams[id].out, sending.window);
      if win == 0 {
        return;
      }
      size := Min3(win, len, frame);
      if eof && size == len {
        Shut(id, false, true, false);
      }
      Charge(id, size);
    }

    /** src/stream.rs:955-959 */
    method Charge(id: nat, size: nat)
      requires Shaped() && id in streams && size <= streams[id].out.window && size <= sending.window
      modifies this`streams, this`sending
      ensures Shaped() && State() == C.Charge(old(State()), id, size)
    {
      var s := streams[id];
      streams := streams[id := s.(out := s.out.(window := s.out.window - size, sent := s.out.sent + size))];
      sending := sending.(window := sending.window - size, sent := sending.sent + size);
    }

    /** src/stream.rs:840-868 */
    method SendResponse(id: nat, eof: bool, fits: bool)
      requires Shaped() && id in streams
      modifies this
      ensures Shaped() && State() == C.SendResponse(old(State()), id, eof, fits)
    {
      if streams[id].life.error || streams[id].life.send != Idle || !fits {
        return;
      }
      SendHeaders(id, eof);
    }

    /** src/stream.rs:990-1002 */
    method SendTrailers(id: nat, fits: bool)
      requires Shaped() && id in streams
      modifies this
      ensures Shaped() && State() == C.SendTrailers(old(State()), id, fits)
    {
      if streams[id].life.send == Payload && fits {
        Shut(id, false, true, false);
      }
    }

    /** src/stream.rs:919-930 */
    method SendEmpty(id: nat)
      requires Shaped() && id in streams
      modifies this
      ensures Shaped() && State() == C.SendEmpty(old(State()), id)
    {
      if streams[id].life.send == Payload && !streams[id].life.error {
        Shut(id, false, true, false);
      }
    }

    // ----- windows the peer changes ----------------------------------------------------------

    /** src/connection.rs:1110-1153 */
    method RecvUpdate(id: nat, inc: nat, pending: bool)
      requires Shaped()
      modifies this
      ensures Shaped() && State() == C.RecvUpdate(old(State()), id, inc, pending)
    {
      if id == 0 {
        if inc == 0 || sending.window + inc > Window.MAX {
          FailAll();
          return;
        }
        var original := sending.window;
        sending := sending.(window := sending.window + inc, credit := sending.credit + inc);
        if Window.Size(original) == 0 {
          Broadcast();
        }
      } else if id in mapped {
        var s := streams[id];
        if inc == 0 || s.out.window + inc > Window.MAX {
          ResetSilent(id);
        } else {
          streams := streams[id := C.Woken(s.(out := C.Credited(s.out, inc)), sending.window)];
        }
      } else if !pending && !C.UsedId(State(), id) && cfg.strict {
        FailAll();
      }
    }

    /** src/connection.rs:1126-1131 */
    method Broadcast()
      requires Shaped()
      modifies this`streams
      ensures Shaped() && State() == C.Broadcast(old(State()))
    {
      var todo := mapped;
      while todo != {}
        invariant todo <= mapped && streams.Keys == old(streams).Keys
        invariant forall id :: id in streams ==>
                    streams[id] == if id in mapped && id !in todo then C.Woken(old(streams)[id], sending.window) else old(streams)[id]
        decreases |todo|
      {
        var id :| id in todo;
        streams := streams[id := C.Woken(streams[id], sending.window)];
        todo := todo - {id};
      }
      assert streams == C.Broadcast(old(State())).streams;
    }

    /** src/connection.rs:1035-1107; the order is that of the map's iterator. */
    method RecvSettings(maxStreams: Option<nat>, initial: Option<nat>) returns (ghost order: seq<nat>)
      requires Shaped()
      modifies this
      ensures Lists(order, old(mapped))
      ensures Shaped() && State() == C.RecvSettings(old(State()), maxStreams, initial, order)
    {
      LimitStreams(maxStreams);
      match initial {
        case None =>
          order := Listed(mapped);
        case Some(val) =>
          var fine;
          fine, order := ChangeInitial(val);
          if !fine {
            FailAll();
          }
      }
    }

    method LimitStreams(max: Option<nat>)
      requires Shaped()
      modifies this`slots, this`remoteSettings
      ensures Shaped() && State() == C.LimitStreams(old(State()), max)
    {
      var first := !remoteSettings;
      remoteSettings := true;
      if max.Some? || first {
        slots := slots.(queue := [], parked := {}, notified := slots.notified + slots.parked).(max := max);
      }
    }

    method ChangeInitial(val: nat) returns (fine: bool, ghost order: seq<nat>)
      requires Shaped()
      modifies this`sending, this`streams
      ensures Shaped() && Lists(order, mapped) && (forall i :: 0 <= i < |order| ==> order[i] in old(streams))
      ensures C.ChangeInitial(old(State()), val, order) == (State(), fine)
    {
      var upd := val - sending.initial;
      sending := sending.(initial := val);
      if upd == 0 {
        fine := true;
        order := Listed(mapped);
      } else {
        fine, order := AdjustAll(upd);
      }
    }

    method AdjustAll(upd: int) returns (fine: bool, ghost order: seq<nat>)
      requires Shaped()
      modifies this`streams
      ensures Shaped() && Lists(order, mapped) && (forall i :: 0 <= i < |order| ==> order[i] in old(streams))
      ensures C.AdjustAll(old(State()), order, upd) == (State(), fine)
    {
      ghost var c := State();
      order, fine := [], true;
      var todo := mapped;
      while todo != {} && fine
        invariant Shaped() && todo <= mapped
        invariant Adjusted(c, mapped, todo, order, upd, State())
        decreases |todo|
      {
        var id :| id in todo;
        ghost var was := State();
        fine := AdjustStream(id, upd);
        order := AdjustGoesOn(c, mapped, todo, order, upd, was, id);
        todo := todo - {id};
        if !fine {
          return;
        }
      }
    }

    /** src/stream.rs:738-759; false if the window left 32 bits. */
    method AdjustStream(id: nat, upd: int) returns (fine: bool)
      requires Shaped() && id in streams
      modifies this`streams
      ensures Shaped() && (fine <==> Window.Fits(old(streams)[id].out.window + upd))
      ensures State() == if fine then C.Adjust(old(State()), id, upd) else old(State())
    {
      var s := streams[id];
      fine := Window.Fits(s.out.window + upd);
      if fine {
        streams := streams[id := C.Woken(s.(out := s.out.(window := s.out.window + upd)), sending.window)];
      }
    }

    // ----- receiving -------------------------------------------------------------------------

    method Received(n: nat)
      requires Shaped()
      modifies this`receiving
      ensures Shaped() && State() == C.Received(old(State()), n)
    {
      receiving := receiving.(window := receiving.window - n, size := receiving.size + n, accepted := receiving.accepted + n);
    }

    /** src/connection.rs:580-595 */
    method Consumed(n: nat)
      requires Shaped()
      modifies this`receiving
      ensures Shaped() && State() == C.Consumed(old(State()), n)
    {
      var size := receiving.size - n;
      var (window, inc) := Window.Update(receiving.window, size, cfg.conWindow, cfg.conThreshold);
      receiving := receiving.(window := window, size := size, granted := receiving.granted + if inc.Some? then inc.value else 0);
    }

    /** src/stream.rs:34-43 and 304-319 */
    method NewToken(id: nat, n: nat) returns (t: nat)
      requires Shaped() && id in streams
      modifies this`streams, this`receiving
      ensures Shaped() && State() == C.NewToken(old(State()), id, n) && t == |old(receiving).tokens|
    {
      var s := streams[id];
      t := |receiving.tokens|;
      streams := streams[id := s.(into := s.into.(window := s.into.window - n, size := s.into.size + n))];
      Received(n);
      receiving := receiving.(tokens := receiving.tokens + [C.Token(id, n)]);
    }

    /** src/stream.rs:56-70 and 322-358 */
    method ConsumeToken(t: nat, n: nat)
      requires Shaped() && t < |receiving.tokens| && n <= receiving.tokens[t].size
      modifies this`streams, this`receiving
      ensures Shaped() && State() == C.ConsumeToken(old(State()), t, n)
    {
      var token := receiving.tokens[t];
      receiving := receiving.(tokens := receiving.tokens[t := token.(size := token.size - n)]);
      streams := streams[token.stream := C.Release(streams[token.stream], n, cfg)];
      Consumed(n);
    }

    method DropToken(t: nat)
      requires Shaped() && t < |receiving.tokens|
      modifies this`streams, this`receiving
      ensures Shaped() && State() == C.DropToken(old(State()), t)
    {
      var size := receiving.tokens[t].size;
      if size > 0 {
        ConsumeToken(t, size);
      }
    }

    /** src/stream.rs:78-111 */
    method MergeTokens(a: nat, b: nat)
      requires Shaped() && a < |receiving.tokens| && b < |receiving.tokens| && a != b
      requires receiving.tokens[a].stream == receiving.tokens[b].stream
      modifies this`receiving
      ensures Shaped() && State() == C.MergeTokens(old(State()), a, b)
    {
      var ts := receiving.tokens;
      ts := ts[a := C.Token(ts[a].stream, ts[a].size + ts[b].size)];
      ts := ts[b := C.Token(ts[b].stream, 0)];
      receiving := receiving.(tokens := ts);
    }

    /** src/connection.rs:948-983 */
    method RecvData(id: nat, flow: nat, len: nat, eof: bool, pending: bool)
      requires Shaped() && len <= flow
      modifies this
      ensures Shaped() && State() == C.RecvData(old(State()), id, flow, len, eof, pending)
    {
      if flow > receiving.window {
        FailAll();
      } else if id in mapped {
        StreamData(id, flow, len, eof);
      } else if pending || !cfg.strict || C.UsedId(State(), id) {
        Received(flow);
        Consumed(flow);
      } else {
        FailAll();
      }
    }

    /** src/stream.rs:638-654 */
    method StreamData(id: nat, flow: nat, len: nat, eof: bool)
      requires Shaped() && len <= flow && id in streams
      modifies this
      ensures Shaped() && State() == C.StreamData(old(State()), id, flow, len, eof)
    {
      if flow > streams[id].into.window {
        Received(flow);
        Consumed(flow);
        ResetSilent(id);
        return;
      }
      var t := Accept(id, flow, len);
      Deliver(id, t, len, eof);
    }

    method Accept(id: nat, flow: nat, len: nat) returns (t: nat)
      requires Shaped() && len <= flow && id in streams
      modifies this`streams, this`receiving
      ensures Shaped() && State() == C.Accept(old(State()), id, flow, len) && t == |old(receiving).tokens|
    {
      t := NewToken(id, flow);
      if flow > len {
        ConsumeToken(t, flow - len);
      }
    }

    /** src/stream.rs:664-701 */
    method Deliver(id: nat, t: nat, len: nat, eof: bool)
      requires Shaped() && id in streams && t < |receiving.tokens|
      modifies this
      ensures Shaped() && State() == C.Deliver(old(State()), id, t, len, eof)
    {
      var s := streams[id];
      var taken := TakePayload(s.life.recv, s.into.content, len, eof);
      streams := streams[id := s.(into := s.into.(content := taken.content))];
      if taken.Refused? {
        DropToken(t);
        ResetSilent(id);
      } else if eof {
        Shut(id, true, false, false);
      }
    }

    /** src/connection.rs:1003-1034 and src/dispatcher.rs:172-183 */
    method RecvAck() returns (ghost failed: seq<nat>)
      requires Shaped()
      modifies this
      ensures Shaped() && Lists(failed, C.AckFailures(old(State())))
      ensures (forall i :: 0 <= i < |failed| ==> failed[i] in old(streams)) && State() == C.RecvAck(old(State()), failed)
    {
      if receiving.acked {
        failed := Listed(C.AckFailures(State()));
        FailAll();
        return;
      }
      var errors := AckAll();
      failed := errors;
      FailEach(errors);
    }

    method AckAll() returns (failed: seq<nat>)
      requires Shaped() && !receiving.acked
      modifies this`streams, this`receiving
      ensures Shaped() && Lists(failed, C.AckFailures(old(State()))) && (forall i :: 0 <= i < |failed| ==> failed[i] in old(streams))
      ensures State() == C.AckAll(old(State()))
    {
      failed := [];
      receiving := receiving.(acked := true);
      var upd := cfg.window - Window.DEFAULT;
      var todo := mapped;
      while todo != {}
        invariant todo <= mapped && streams.Keys == old(streams).Keys
        invariant forall id :: id in streams ==>
                    streams[id] == if id in mapped && id !in todo then C.AckStream(old(streams)[id], upd, cfg).0 else old(streams)[id]
        invariant Lists(failed, C.AckFailures(old(State())) - todo)
        decreases |todo|
        modifies this`streams
      {
        var id :| id in todo;
        var (s, overflow) := C.AckStream(streams[id], upd, cfg);
        streams := streams[id := s];
        ListsIf(failed, C.AckFailures(old(State())), todo, id);
        if overflow {
          failed := failed + [id];
        }
        todo := todo - {id};
      }
      assert C.AckFailures(old(State())) - todo == C.AckFailures(old(State()));
      assert streams == C.AckAll(old(State())).streams;
    }

    /** src/connection.rs:745-880 */
    method RecvHeaders(id: nat, h: Headers, pending: bool)
      requires Shaped()
      modifies this
      ensures Shaped() && State() == C.RecvHeaders(old(State()), id, h, pending)
    {
      if id % 2 == 0 {
        FailAll();
      } else if id in mapped {
        StreamHeaders(id, h);
      } else if !cfg.server {
        if id >= ids.next && cfg.strict {
          FailAll();
        }
      } else if id <= ids.last {
        if !pending {
          FailAll();
        }
      } else {
        ids := ids.(last := id);
        if shut.disconnecting {
          return;
        }
        if cfg.maxRemote.Some? && slots.remote >= cfg.maxRemote.value {
          return;
        }
        if GoodRequest(h.pseudo) {
          Insert(id, false);
          StreamHeaders(id, h);
        }
      }
    }

    /** src/stream.rs:536-636 */
    method StreamHeaders(id: nat, h: Headers)
      requires Shaped() && id in streams
      modifies this
      ensures Shaped() && State() == C.StreamHeaders(old(State()), id, h)
    {
      var s := streams[id];
      match HearHeaders(cfg.server, s.life.recv, s.into.content, h) {
        case Interim =>
        case Opened(content, eof) =>
          streams := streams[id := s.(into := s.into.(content := content))];
          if eof {
            Shut(id, true, false, false);
          } else {
            s := streams[id];
            streams := streams[id := s.(life := s.life.(recv := Payload))];
          }
        case Ended =>
          Shut(id, true, false, false);
        case Malformed =>
          ResetSilent(id);
      }
    }

    /** src/connection.rs:1159-1190 */
    method RecvReset(id: nat)
      requires Shaped()
      modifies this
      ensures Shaped() && State() == C.RecvReset(old(State()), id)
    {
      if id == 0 {
        FailAll();
      } else if id in mapped {
        Shut(id, true, true, true);
      }
    }

    /** src/connection.rs:884-946 */
    method RecvInvalid(id: nat, headers: bool)
      requires Shaped()
      modifies this
      ensures Shaped() && State() == C.RecvInvalid(old(State()), id, headers)
    {
      if id in mapped {
        ResetSilent(id);
      } else if headers && id % 2 == 0 {
        FailAll();
      } else if headers && cfg.server {
        if id <= ids.last {
          FailAll();
        } else {
          ids := ids.(last := id);
        }
      }
    }

    /** src/connection.rs:1206-1238 */
    method RecvGoAway(last: nat) returns (failed: seq<nat>)
      requires Shaped()
      modifies this
      ensures Shaped() && Lists(failed, C.Unprocessed(old(State()), last))
      ensures (forall i :: 0 <= i < |failed| ==> failed[i] in old(streams)) && State() == C.RecvGoAway(old(State()), last, failed)
    {
      shut := shut.(goAway := Some(last));
      failed := [];
      var todo := mapped;
      while todo != {}
        invariant todo <= mapped && Lists(failed, C.Unprocessed(old(State()), last) - todo)
        decreases |todo|
        modifies {}
      {
        var id :| id in todo;
        ListsIf(failed, C.Unprocessed(old(State()), last), todo, id);
        if !cfg.server && id > last {
          failed := failed + [id];
        }
        todo := todo - {id};
      }
      assert C.Unprocessed(old(State()), last) - todo == C.Unprocessed(old(State()), last);
      FailEach(failed);
      DisconnectWhenReady();
    }
  }
}
