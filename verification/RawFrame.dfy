/**
 * The raw heartbeat frame of eth_heartbeat.c, from the byte the sender is given to
 * the byte the receiver's handler extracts, and the one buffer all frames share.
 */
module RawFrame {
  import opened Words
  import opened RxPath
  import opened RxRuns
  import Heartbeat

  const ETH_HB_ETHERTYPE: uint16 := 0x88B5
  const ETH_HB_HDR_SIZE: int := 14
  const ETH_HB_FRAME_SIZE: int := 15

  const BROADCAST_MAC: seq<byte> := [0xFF, 0xFF, 0xFF, 0xFF, 0xFF, 0xFF]

  /** Broadcast destination, own source address, big-endian EtherType, one byte. */
  function Frame(mac: seq<byte>, payload: byte): seq<byte> {
    BROADCAST_MAC + mac + [0x88, 0xB5] + [payload]
  }

  /** eth_hb_send_frame fills the same static buffer for every frame. */
  method BuildFrame(txFrame: array<byte>, mac: seq<byte>, payload: byte)
    requires txFrame.Length == ETH_HB_FRAME_SIZE && |mac| == 6
    modifies txFrame
    ensures txFrame[..] == Frame(mac, payload)
  {
    forall i | 0 <= i < 6 {
      txFrame[i] := BROADCAST_MAC[i];
    }
    forall i | 0 <= i < 6 {
      txFrame[6 + i] := mac[i];
    }
    txFrame[12] := ETH_HB_ETHERTYPE / U8;
    txFrame[13] := ETH_HB_ETHERTYPE % U8;
    txFrame[14] := payload;
    assert txFrame[..6] == BROADCAST_MAC && txFrame[6..12] == mac;
    assert txFrame[..] == txFrame[..6] + txFrame[6..12] + [txFrame[12], txFrame[13]] + [txFrame[14]];
  }

  /** Addressed to everybody, and from `mac`. */
  predicate BroadcastFrom(f: seq<byte>, mac: seq<byte>) {
    && |f| >= 12 && |mac| == 6
    && (forall k :: 0 <= k < 6 ==> f[k] == 0xFF)
    && (forall k :: 0 <= k < 6 ==> f[6 + k] == mac[k])
  }

  lemma FrameLayout(mac: seq<byte>, payload: byte, padding: seq<byte>)
    requires |mac| == 6
    ensures var f := Frame(mac, payload) + padding;
      && |f| == 15 + |padding| && BroadcastFrom(f, mac)
      && f[12] == 0x88 && f[13] == 0xB5 && f[14] == payload
  {
  }

  /** What eth_heartbeat_rx_handler reads, if the frame is long enough for it. */
  function HandlerPayload(frame: seq<byte>): Option<byte> {
    if |frame| < ETH_HB_FRAME_SIZE then None else Some(frame[ETH_HB_HDR_SIZE])
  }

  /** The slice callbacks for one frame cut into `slices`. */
  function SliceEvents(slices: seq<seq<byte>>, alloc: Alloc): (events: seq<Event>)
    requires |Concat(slices)| < U16
    ensures |events| == |slices|
  {
    if slices == [] then []
    else
      var k := |slices| - 1;
      SliceEvents(slices[..k], alloc) + [Slice(|Concat(slices[..k])|, slices[k], alloc)]
  }

  /** Outside a reset, with exactly `data` received of the current frame. */
  ghost predicate Arriving(raw: seq<uint16>, events: seq<Event>, data: seq<byte>) {
    && Run(raw, events) && NoneAbandoned(events)
    && FrameOf(events) == data && (data != [] ==> !ResetInside(events))
    && ResetOver(events) && !Refused(CutsSince(events))
  }

  lemma {:induction false} SliceArrives(raw: seq<uint16>, events: seq<Event>, data: seq<byte>, e: Event)
    requires Arriving(raw, events, data)
    requires e.Slice? && e.alloc.Single? && SoundAlloc(e.alloc)
    requires e.offset == |data| && e.data != [] && e.offset + |e.data| <= TC6LWIP_MTU
    ensures Arriving(raw, events + [e], data + e.data)
  {
    var more := events + [e];
    assert more[..|events|] == events;
    WireMeansEvents(raw, events);
    NoneAbandonedExtends(events, e);
    OneMoreCut(CutsSince(events), Cut(e.offset + |e.data|, e.alloc));
    assert Run(raw, more);
    assert data == [] ==> data + e.data == e.data;
    assert FrameOf(more) == data + e.data;
  }

  /** However a frame that fits the buffer is cut up, the slices arrive in one piece. */
  lemma {:induction false} SlicesArrive(raw: seq<uint16>, events: seq<Event>, slices: seq<seq<byte>>, alloc: Alloc)
    requires Arriving(raw, events, []) && alloc.Single? && SoundAlloc(alloc)
    requires |Concat(slices)| <= TC6LWIP_MTU && forall k :: 0 <= k < |slices| ==> slices[k] != []
    ensures Arriving(raw, events + SliceEvents(slices, alloc), Concat(slices))
    decreases |slices|
  {
    if slices == [] {
      assert events + SliceEvents(slices, alloc) == events;
    } else {
      var k := |slices| - 1;
      var before := events + SliceEvents(slices[..k], alloc);
      var e := Slice(|Concat(slices[..k])|, slices[k], alloc);
      SlicesArrive(raw, events, slices[..k], alloc);
      SliceArrives(raw, before, Concat(slices[..k]), e);
      assert events + SliceEvents(slices, alloc) == before + [e];
    }
  }

  /**
   * Round trip: for every payload, padding and way of cutting the frame, the receiver
   * calls the heartbeat handler with the byte that was sent and never offers the frame
   * to lwIP, provided the padded frame has the 42 bytes the receiver insists on.
   * Without padding the 15-byte frame would be dropped. The frame is a broadcast from
   * the sender's own address. A client that is up and not
   * paused then shows the byte on its LED and acknowledges it.
   */
  lemma {:induction false} RawFrameRoundTrip(events: seq<Event>, mac: seq<byte>, payload: byte, padding: seq<byte>,
                          slices: seq<seq<byte>>, alloc: Alloc, stackAccepts: bool,
                          client: Heartbeat.Endpoint, nowUs: nat)
    requires Arriving([ETH_HB_ETHERTYPE], events, []) && alloc.Single? && SoundAlloc(alloc)
    requires |mac| == 6 && ETH_HB_FRAME_SIZE + |padding| <= TC6LWIP_MTU
    requires Concat(slices) == Frame(mac, payload) + padding
    requires forall k :: 0 <= k < |slices| ==> slices[k] != []
    ensures var frame := Frame(mac, payload) + padding;
      var all := events + SliceEvents(slices, alloc);
      var e := PacketEnd(true, |frame|, stackAccepts);
      && Run([ETH_HB_ETHERTYPE], all) && Promised(After([ETH_HB_ETHERTYPE], all).wire, e)
      && OutcomeOf(After([ETH_HB_ETHERTYPE], all), e)
         == (if |frame| >= 42 then ToHandler(frame) else Dropped)
      && HandlerPayload(frame) == Some(payload)
      && BroadcastFrom(frame, mac)
      && (client.ready && !client.paused ==>
            Heartbeat.Receive(Heartbeat.RawEth, Heartbeat.Client, client, HandlerPayload(frame), nowUs, Heartbeat.Sent).1
              == Heartbeat.Effects(Some(payload != 0), Some(0xAC), true, None))
  {
    var frame := Frame(mac, payload) + padding;
    FrameLayout(mac, payload, padding);
    FrameGoesThrough([ETH_HB_ETHERTYPE], events, frame, slices, alloc, stackAccepts);
    assert EtherType(frame) == ETH_HB_ETHERTYPE;
  }

  /** Any frame that fits the buffer, however it is cut. */
  lemma {:induction false} FrameGoesThrough(raw: seq<uint16>, events: seq<Event>, frame: seq<byte>,
                                            slices: seq<seq<byte>>, alloc: Alloc, stackAccepts: bool)
    requires Arriving(raw, events, []) && alloc.Single? && SoundAlloc(alloc)
    requires Concat(slices) == frame && 0 < |frame| <= TC6LWIP_MTU
    requires forall k :: 0 <= k < |slices| ==> slices[k] != []
    ensures var all, e := events + SliceEvents(slices, alloc), PacketEnd(true, |frame|, stackAccepts);
      && Run(raw, all) && Promised(After(raw, all).wire, e)
      && OutcomeOf(After(raw, all), e)
         == (if |frame| >= 42 then Demux(raw, frame, stackAccepts) else Dropped)
  {
    var all := events + SliceEvents(slices, alloc);
    SlicesArrive(raw, events, slices, alloc);
    WireMeansEvents(raw, all);
    GoodFramesPass(raw, all, PacketEnd(true, |frame|, stackAccepts));
  }

  // ---------------------------------------------------------------------
  // One buffer for all frames
  // ---------------------------------------------------------------------

  /** A frame is built and offered to the library, or the oldest queued one goes out. */
  datatype TxEvent = Build(payload: byte, queued: bool) | Leave

  /** A frame that went out: the events that built it and sent it, and the bytes read then. */
  datatype Departure = Departure(built: nat, left: nat, frame: seq<byte>)

  /**
   * The library keeps a pointer to the one static buffer and reads it when the frame
   * leaves. `waiting` are the events that queued the frames still to go.
   */
  datatype Tx = Tx(buffer: seq<byte>, waiting: seq<nat>, gone: seq<Departure>)

  predicate CanHappen(s: Tx, e: TxEvent) {
    e.Leave? ==> s.waiting != []
  }

  function TxNext(mac: seq<byte>, s: Tx, e: TxEvent, now: nat): Tx
    requires CanHappen(s, e)
  {
    match e
    case Build(payload, queued) =>
      s.(buffer := Frame(mac, payload), waiting := if queued then s.waiting + [now] else s.waiting)
    case Leave =>
      s.(waiting := s.waiting[1..], gone := s.gone + [Departure(s.waiting[0], now, s.buffer)])
  }

  predicate TxRun(mac: seq<byte>, events: seq<TxEvent>)
    decreases |events|, 0
  {
    events == [] || (var k := |events| - 1;
                     TxRun(mac, events[..k]) && CanHappen(TxAfter(mac, events[..k]), events[k]))
  }

  function TxAfter(mac: seq<byte>, events: seq<TxEvent>): Tx
    requires TxRun(mac, events)
    decreases |events|, 1
  {
    if events == [] then Tx([], [], [])
    else var k := |events| - 1; TxNext(mac, TxAfter(mac, events[..k]), events[k], k)
  }

  /** The byte of the last frame built, if there was one. */
  function LastBuilt(events: seq<TxEvent>): Option<byte> {
    if events == [] then None
    else
      var k := |events| - 1;
      if events[k].Build? then Some(events[k].payload) else LastBuilt(events[..k])
  }

  ghost predicate QueuedBy(events: seq<TxEvent>, k: nat) {
    k < |events| && events[k].Build? && events[k].queued
  }

  /** The frame went out after it was built, with the byte of the last frame built until then. */
  ghost predicate CarriesLast(mac: seq<byte>, events: seq<TxEvent>, d: Departure) {
    && d.built < d.left < |events| && QueuedBy(events, d.built)
    && LastBuilt(events[..d.left]).Some?
    && d.frame == Frame(mac, LastBuilt(events[..d.left]).value)
  }

  ghost predicate TxInv(mac: seq<byte>, events: seq<TxEvent>, s: Tx) {
    && (forall k :: 0 <= k < |s.waiting| ==> QueuedBy(events, s.waiting[k]))
    && (LastBuilt(events).Some? ==> s.buffer == Frame(mac, LastBuilt(events).value))
    && (forall k :: 0 <= k < |s.gone| ==> CarriesLast(mac, events, s.gone[k]))
  }

  /** Once a frame has been built there is a last one. */
  lemma {:induction false} BuiltIsLast(events: seq<TxEvent>, k: nat)
    requires QueuedBy(events, k)
    ensures LastBuilt(events).Some?
    decreases |events|
  {
    if k < |events| - 1 {
      BuiltIsLast(events[..|events| - 1], k);
    }
  }

  lemma OldDeparture(mac: seq<byte>, events: seq<TxEvent>, d: Departure)
    requires events != [] && CarriesLast(mac, events[..|events| - 1], d)
    ensures CarriesLast(mac, events, d)
  {
    assert events[..|events| - 1][..d.left] == events[..d.left];
  }

  lemma {:induction false} TxKeepsInv(mac: seq<byte>, events: seq<TxEvent>)
    requires TxRun(mac, events)
    ensures TxInv(mac, events, TxAfter(mac, events))
    decreases |events|
  {
    if events != [] {
      var k := |events| - 1;
      TxKeepsInv(mac, events[..k]);
      var s, s' := TxAfter(mac, events[..k]), TxAfter(mac, events);
      if events[k].Leave? { BuiltIsLast(events[..k], s.waiting[0]); }
      forall j | 0 <= j < |s'.gone| ensures CarriesLast(mac, events, s'.gone[j]) {
        if j < |s.gone| { OldDeparture(mac, events, s.gone[j]); }
      }
    }
  }

  /** The frame carries the byte it was built with. */
  ghost predicate CarriesOwn(mac: seq<byte>, events: seq<TxEvent>, d: Departure) {
    QueuedBy(events, d.built) && d.frame == Frame(mac, events[d.built].payload)
  }

  /**
   * In every run a frame goes out with the byte it was built with if and only if the
   * last frame built before it left, sent or not, was built with the same byte.
   */
  lemma {:induction false} DeliveredIffNotRebuilt(mac: seq<byte>, events: seq<TxEvent>, k: nat)
    requires |mac| == 6 && TxRun(mac, events) && k < |TxAfter(mac, events).gone|
    ensures var d := TxAfter(mac, events).gone[k];
      && QueuedBy(events, d.built) && d.built < d.left < |events|
      && (CarriesOwn(mac, events, d) <==> LastBuilt(events[..d.left]) == Some(events[d.built].payload))
  {
    TxKeepsInv(mac, events);
    var d := TxAfter(mac, events).gone[k];
    assert CarriesLast(mac, events, d);
    FramesDiffer(mac, LastBuilt(events[..d.left]).value, events[d.built].payload);
  }

  lemma FramesDiffer(mac: seq<byte>, a: byte, b: byte)
    requires |mac| == 6
    ensures Frame(mac, a) == Frame(mac, b) <==> a == b
  {
    assert Frame(mac, a)[ETH_HB_HDR_SIZE] == a && Frame(mac, b)[ETH_HB_HDR_SIZE] == b;
  }

  /** The events that queued a frame, in order. */
  function Queued(events: seq<TxEvent>): seq<nat> {
    if events == [] then []
    else
      var k := |events| - 1;
      Queued(events[..k]) + (if events[k].Build? && events[k].queued then [k] else [])
  }

  function BuiltBy(gone: seq<Departure>): seq<nat> {
    seq(|gone|, k requires 0 <= k < |gone| => gone[k].built)
  }

  /** Queued frames leave in order, none twice and none lost: the rest is still waiting. */
  lemma {:induction false} FramesLeaveInOrder(mac: seq<byte>, events: seq<TxEvent>)
    requires TxRun(mac, events)
    ensures var s := TxAfter(mac, events);
      BuiltBy(s.gone) + s.waiting == Queued(events)
    decreases |events|
  {
    if events != [] {
      var k := |events| - 1;
      FramesLeaveInOrder(mac, events[..k]);
      var s, s' := TxAfter(mac, events[..k]), TxAfter(mac, events);
      if events[k].Leave? {
        assert s.waiting == [s.waiting[0]] + s.waiting[1..];
        assert BuiltBy(s'.gone) == BuiltBy(s.gone) + [s.waiting[0]];
      }
    }
  }

  /** That condition can fail: whatever is built before a queued frame leaves replaces its byte. */
  lemma RebuiltFrameIsWrong(mac: seq<byte>, given: byte, later: byte, queued: bool) returns (events: seq<TxEvent>)
    requires |mac| == 6 && given != later
    ensures events == [Build(given, true), Build(later, queued), Leave] && TxRun(mac, events)
    ensures TxAfter(mac, events).gone == [Departure(0, 2, Frame(mac, later))]
    ensures Frame(mac, later) != Frame(mac, given)
  {
    events := TxPush(mac, [], Build(given, true));
    events := TxPush(mac, events, Build(later, queued));
    events := TxPush(mac, events, Leave);
    FramesDiffer(mac, later, given);
  }

  lemma TxPush(mac: seq<byte>, events: seq<TxEvent>, e: TxEvent) returns (more: seq<TxEvent>)
    requires TxRun(mac, events) && CanHappen(TxAfter(mac, events), e)
    ensures more == events + [e] && TxRun(mac, more)
    ensures TxAfter(mac, more) == TxNext(mac, TxAfter(mac, events), e, |events|)
  {
    more := events + [e];
    assert more[..|events|] == events;
  }

  // ---------------------------------------------------------------------
  // What a client builds
  // ---------------------------------------------------------------------

  /** What reaches eth_heartbeat.c, and frames of it leaving the queue. */
  datatype EthEvent =
    | SendCall(led: byte, nowUs: nat, sent: bool)
    | FrameCame(payload: Option<byte>, nowUs: nat, reply: Heartbeat.Reply)
    | FrameLeft

  function EthAfter(role: Heartbeat.Role, e: Heartbeat.Endpoint, calls: seq<EthEvent>): Heartbeat.Endpoint {
    if calls == [] then e
    else
      var k := |calls| - 1;
      var e' := EthAfter(role, e, calls[..k]);
      match calls[k]
      case SendCall(_, nowUs, sent) => Heartbeat.Send(Heartbeat.RawEth, role, e', nowUs, sent)
      case FrameCame(payload, nowUs, reply) =>
        Heartbeat.Receive(Heartbeat.RawEth, role, e', payload, nowUs, reply).0
      case FrameLeft => e'
  }

  /** The byte of the frame that a call builds, if any, and whether it is queued. */
  function FrameFor(role: Heartbeat.Role, e: Heartbeat.Endpoint, call: EthEvent): seq<TxEvent> {
    match call
    case SendCall(led, _, sent) =>
      (match Heartbeat.BuiltBySend(role, e, led) case None => [] case Some(b) => [Build(b, sent)])
    case FrameCame(payload, nowUs, reply) =>
      var fx := Heartbeat.Receive(Heartbeat.RawEth, role, e, payload, nowUs, reply).1;
      (match fx.built case None => [] case Some(b) => [Build(b, fx.ack)])
    case FrameLeft => [Leave]
  }

  /** What a run of the endpoint does to the buffer and the queue. */
  function TxEvents(role: Heartbeat.Role, e: Heartbeat.Endpoint, calls: seq<EthEvent>): seq<TxEvent> {
    if calls == [] then []
    else
      var k := |calls| - 1;
      TxEvents(role, e, calls[..k]) + FrameFor(role, EthAfter(role, e, calls[..k]), calls[k])
  }

  ghost predicate BuildsOnly(events: seq<TxEvent>, b: byte) {
    forall j :: 0 <= j < |events| && events[j].Build? ==> events[j].payload == b
  }

  lemma {:induction false} ClientBuildsAcks(e: Heartbeat.Endpoint, calls: seq<EthEvent>)
    ensures BuildsOnly(TxEvents(Heartbeat.Client, e, calls), Heartbeat.ACK_BYTE)
    decreases |calls|
  {
    if calls != [] {
      ClientBuildsAcks(e, calls[..|calls| - 1]);
    }
  }

  /**
   * Whatever reaches a client, and whenever its frames leave, each of them carries an
   * ACK, although they share one buffer.
   */
  lemma {:induction false} AcksAreSafe(mac: seq<byte>, e: Heartbeat.Endpoint, calls: seq<EthEvent>, k: nat)
    requires TxRun(mac, TxEvents(Heartbeat.Client, e, calls))
    requires k < |TxAfter(mac, TxEvents(Heartbeat.Client, e, calls)).gone|
    ensures TxAfter(mac, TxEvents(Heartbeat.Client, e, calls)).gone[k].frame == Frame(mac, Heartbeat.ACK_BYTE)
  {
    ClientBuildsAcks(e, calls);
    SameByteIsSafe(mac, TxEvents(Heartbeat.Client, e, calls), Heartbeat.ACK_BYTE, k);
  }

  lemma {:induction false} SameByteIsSafe(mac: seq<byte>, events: seq<TxEvent>, b: byte, k: nat)
    requires TxRun(mac, events) && k < |TxAfter(mac, events).gone| && BuildsOnly(events, b)
    ensures TxAfter(mac, events).gone[k].frame == Frame(mac, b)
  {
    TxKeepsInv(mac, events);
    var d := TxAfter(mac, events).gone[k];
    assert CarriesLast(mac, events, d);
    LastIsOneOf(events[..d.left], b);
  }

  lemma {:induction false} LastIsOneOf(events: seq<TxEvent>, b: byte)
    requires BuildsOnly(events, b)
    ensures LastBuilt(events).Some? ==> LastBuilt(events).value == b
    decreases |events|
  {
    if events != [] && events[|events| - 1].Leave? {
      LastIsOneOf(events[..|events| - 1], b);
    }
  }
}
