/**
 * What the receive path guarantees over whole runs: any sequence of slices, frame
 * ends, errors and register events, with frames abandoned at any point.
 */
module RxRuns {
  import opened Words
  import opened RxPath

  datatype Event =
    | Slice(offset: uint16, data: seq<byte>, alloc: Alloc)
    | PacketEnd(success: bool, len: uint16, stackAccepts: bool)
    | ErrorCallback(error: Error)
    | RegsCallback(event: RegsEvent)

  predicate IsReset(e: Event) {
    (e.ErrorCallback? && ErrorReinits(e.error)) ||
    (e.RegsCallback? && (EventReinits(e.event) || e.event.ResetComplete?))
  }

  /**
   * What the wire has delivered. `frame` is the concatenation of all slices of the
   * current frame and `straddles` says that a re-initialisation or a reset-complete
   * event came after its first slice. Since the receiver was last cleared, `own`
   * bytes came from this frame and `stray` bytes from frames that never got a proper
   * end; `abandoned` says that a frame was cut off by the start of the next one.
   */
  datatype Wire = Wire(frame: seq<byte>, straddles: bool, own: nat, stray: nat, abandoned: bool)

  datatype System = System(rx: Rx, wire: Wire)

  /**
   * What the protocol driver promises: slices are not empty, the first one of a frame
   * has offset 0 and the others follow without gaps, and the length reported at the
   * end is the length of the slices together.
   */
  predicate Promised(w: Wire, e: Event) {
    match e
    case Slice(offset, data, alloc) =>
      && data != [] && SoundAlloc(alloc)
      && (offset == 0 || offset == |w.frame|) && offset + |data| < U16
    case PacketEnd(_, len, _) => len == |w.frame|
    case _ => true
  }

  function Deliver(s: Rx, e: Event): (r: (Rx, Outcome))
    requires s.OwnsOnePbuf() && Acceptable(e)
  {
    match e
    case Slice(offset, data, alloc) => (OnSlice(s, offset, data, alloc), Ignored)
    case PacketEnd(success, len, accepts) => OnPacket(s, success, len, accepts)
    case ErrorCallback(error) => (OnError(s, error), Ignored)
    case RegsCallback(v) => (OnEvent(s, v), Ignored)
  }

  predicate Acceptable(e: Event) {
    e.Slice? ==> SoundAlloc(e.alloc)
  }

  function Track(w: Wire, cleared: bool, e: Event): Wire {
    match e
    case Slice(offset, data, _) =>
      if offset == 0 then Wire(data, false, |data|, w.stray + w.own, w.abandoned || w.frame != [])
      else w.(frame := w.frame + data, own := w.own + |data|)
    case PacketEnd(_, _, _) =>
      if cleared then Wire([], false, 0, 0, false)
      else Wire([], false, 0, w.stray + w.own, w.abandoned)
    case _ =>
      var straddles := w.straddles || (IsReset(e) && w.frame != []);
      if cleared then Wire(w.frame, straddles, 0, 0, false) else w.(straddles := straddles)
  }

  /** The receiver is cleared by a frame end outside a reset and by the reset-complete event. */
  predicate Clears(s: Rx, e: Event) {
    (e.PacketEnd? && s.resetComplete) || (e.RegsCallback? && e.event.ResetComplete?)
  }

  function Next(y: System, e: Event): System
    requires y.rx.OwnsOnePbuf() && Promised(y.wire, e)
  {
    System(Deliver(y.rx, e).0, Track(y.wire, Clears(y.rx, e), e))
  }

  function OutcomeOf(y: System, e: Event): Outcome
    requires y.rx.OwnsOnePbuf() && Promised(y.wire, e)
  {
    Deliver(y.rx, e).1
  }

  // ---------------------------------------------------------------------
  // The invariant
  // ---------------------------------------------------------------------

  /** The payload begins with as much of the frame as fits. */
  ghost predicate Holds(payload: seq<byte>, frame: seq<byte>) {
    var part := Fitting(frame, TC6LWIP_MTU);
    |payload| == TC6LWIP_MTU && payload[..|part|] == part
  }

  lemma CopyHolds(payload: seq<byte>, frame: seq<byte>, data: seq<byte>)
    requires Holds(payload, frame)
    ensures Holds(Copied(payload, |frame|, data), frame + data)
  {
    var room := TC6LWIP_MTU - |frame|;
    if room > 0 {
      var part := Fitting(data, room);
      assert Fitting(frame + data, TC6LWIP_MTU) == frame + part;
      assert Copied(payload, |frame|, data)[..|frame| + |part|] == payload[..|frame|] + part;
    } else {
      assert Fitting(frame + data, TC6LWIP_MTU) == Fitting(frame, TC6LWIP_MTU);
    }
  }

  ghost predicate Inv(y: System) {
    var s, w := y.rx, y.wire;
    && s.OwnsOnePbuf()
    && w.own <= |w.frame| < U16
    && (w.frame == [] ==> !w.straddles)
    && (!s.rxInvalid ==> s.rxLen == (w.stray + w.own) % U16)
    && (!s.rxInvalid && w.frame != [] ==>
          && s.pbuf.Some? && |w.frame| <= TC6LWIP_MTU + ETHARP_FCS_LEN
          && Holds(s.pbuf.value.payload, w.frame))
    && (!w.straddles ==> w.own == |w.frame|)
    && (w.straddles && s.resetComplete ==> w.own < |w.frame| && w.stray == 0)
    && (s.resetComplete && !w.abandoned ==> w.stray == 0)
  }

  lemma SliceKeepsInv(y: System, e: Event)
    requires Inv(y) && e.Slice? && Promised(y.wire, e)
    ensures Inv(Next(y, e))
  {
    SliceOwns(y.rx, e.offset, e.data, e.alloc);
    if !Next(y, e).rx.rxInvalid {
      SliceCounts(y, e);
      SliceKeepsHeld(y, e);
    }
  }

  lemma SliceCounts(y: System, e: Event)
    requires Inv(y) && e.Slice? && Promised(y.wire, e) && !Next(y, e).rx.rxInvalid
    ensures Next(y, e).rx.rxLen == (Next(y, e).wire.stray + Next(y, e).wire.own) % U16
  {
    assert Next(y, e).rx.rxLen == (y.rx.rxLen + |e.data|) % U16;
    LenWraps(y.wire.stray + y.wire.own, |e.data|);
  }

  lemma SliceKeepsHeld(y: System, e: Event)
    requires Inv(y) && e.Slice? && Promised(y.wire, e) && !Next(y, e).rx.rxInvalid
    ensures Next(y, e).rx.pbuf.Some? && Holds(Next(y, e).rx.pbuf.value.payload, Next(y, e).wire.frame)
  {
    var s := y.rx;
    var ready := if s.pbuf.None? then Allocated(s, e.alloc) else s;
    if s.pbuf.None? { AllocatedOwns(s, e.alloc); }
    CopyHolds(ready.pbuf.value.payload, if e.offset == 0 then [] else y.wire.frame, e.data);
    assert e.offset == 0 ==> [] + e.data == e.data;
  }

  lemma LenWraps(x: nat, n: nat)
    ensures (x % U16 + n) % U16 == (x + n) % U16
  {
    var t := x % U16 + n;
    DivModUnique(x + n, U16, x / U16 + t / U16, t % U16);
  }

  lemma EndKeepsInv(y: System, e: Event)
    requires Inv(y) && e.PacketEnd? && Promised(y.wire, e)
    ensures Inv(Next(y, e))
  {
    PacketOwns(y.rx, e.success, e.len, e.stackAccepts);
  }

  lemma CallbackKeepsInv(y: System, e: Event)
    requires Inv(y) && !e.Slice? && !e.PacketEnd?
    ensures Inv(Next(y, e))
  {
  }

  lemma StepKeepsInv(y: System, e: Event)
    requires Inv(y) && Promised(y.wire, e)
    ensures Inv(Next(y, e))
  {
    if e.Slice? {
      SliceKeepsInv(y, e);
    } else if e.PacketEnd? {
      EndKeepsInv(y, e);
    } else {
      CallbackKeepsInv(y, e);
    }
  }

  // ---------------------------------------------------------------------
  // One frame end
  // ---------------------------------------------------------------------

  /**
   * Exactly which frames get past the checks: no reset event fell inside the frame,
   * no slice of it was refused, and no leftovers of earlier frames are still counted.
   */
  lemma PassedIff(y: System, e: Event)
    requires Inv(y) && e.PacketEnd? && Promised(y.wire, e)
    ensures OutcomeOf(y, e).Passed() <==>
      && e.success && y.rx.resetComplete && !y.rx.rxInvalid
      && !y.wire.straddles && |y.wire.frame| >= MIN_HEADER_LEN && y.wire.stray % U16 == 0
  {
    var s, w := y.rx, y.wire;
    if s.resetComplete && !s.rxInvalid && !w.straddles {
      assert s.rxLen == (w.stray + |w.frame|) % U16;
      StrayShows(w.stray, |w.frame|);
    }
  }

  lemma StrayShows(stray: nat, n: nat)
    requires n < U16
    ensures (stray + n) % U16 == n <==> stray % U16 == 0
  {
    var x := stray % U16 + n;
    DivModUnique(stray + n, U16, stray / U16 + x / U16, x % U16);
  }

  /** A frame that gets past the checks is handed on byte for byte, as far as the buffer goes. */
  lemma PassedIsWhole(y: System, e: Event)
    requires Inv(y) && e.PacketEnd? && Promised(y.wire, e) && OutcomeOf(y, e).Passed()
    ensures |y.wire.frame| >= MIN_HEADER_LEN && !y.wire.straddles
    ensures OutcomeOf(y, e) == Demux(y.rx.raw, Fitting(y.wire.frame, TC6LWIP_MTU), e.stackAccepts)
  {
    PassedIff(y, e);
    assert Shrunk(y.rx.pbuf.value.payload, e.len) == Fitting(y.wire.frame, TC6LWIP_MTU);
  }

  /** A frame end outside a reset always leaves the receiver empty. */
  lemma EndEmptiesReceiver(y: System, e: Event)
    requires Inv(y) && e.PacketEnd? && Promised(y.wire, e)
    ensures var s' := Next(y, e).rx;
      if y.rx.resetComplete then
        s'.pbuf.None? && s'.rxLen == 0 && !s'.rxInvalid && forall id :: !s'.ledger.Held(id)
      else s' == y.rx
  {
    PacketOwns(y.rx, e.success, e.len, e.stackAccepts);
  }

  /**
   * No pbuf is freed or handed over twice or taken back, and lwIP gets one exactly
   * when it accepted the frame.
   */
  lemma LedgerStep(y: System, e: Event)
    requires Inv(y) && Promised(y.wire, e)
    ensures var l, l' := y.rx.ledger, Next(y, e).rx.ledger;
      && l.next <= l'.next <= l.next + 1
      && l.freed <= l'.freed && l.given <= l'.given && l'.freed !! l'.given
      && (OutcomeOf(y, e).ToStack? <==> l'.given != l.given)
      && (forall id: nat :: id < l'.next && id !in l'.freed && id !in l'.given <==>
            Next(y, e).rx.pbuf.Some? && id == Next(y, e).rx.pbuf.value.id)
  {
    StepKeepsInv(y, e);
    var l, l' := y.rx.ledger, Next(y, e).rx.ledger;
    assert y.rx.pbuf.Some? ==> l.Held(y.rx.pbuf.value.id);
    if OutcomeOf(y, e).ToStack? {
      assert y.rx.pbuf.value.id in l'.given;
    }
    forall id: nat
      ensures id < l'.next && id !in l'.freed && id !in l'.given <==>
        Next(y, e).rx.pbuf.Some? && id == Next(y, e).rx.pbuf.value.id
    {
      assert l'.Held(id) <==> Next(y, e).rx.pbuf.Some? && id == Next(y, e).rx.pbuf.value.id;
    }
  }

  // ---------------------------------------------------------------------
  // Runs
  // ---------------------------------------------------------------------

  /** After TC6LwIP_Init: empty, and waiting for the first reset to complete. */
  function Boot(raw: seq<uint16>): System {
    System(Rx(None, 0, false, false, raw, Ledger(0, {}, {})), Wire([], false, 0, 0, false))
  }

  predicate Run(raw: seq<uint16>, events: seq<Event>)
    decreases |events|, 0
  {
    events == [] ||
    (var k := |events| - 1; Run(raw, events[..k]) && Promised(After(raw, events[..k]).wire, events[k]))
  }

  function After(raw: seq<uint16>, events: seq<Event>): (y: System)
    requires Run(raw, events)
    ensures Inv(y)
    decreases |events|, 1
  {
    if events == [] then Boot(raw)
    else
      var k := |events| - 1;
      StepKeepsInv(After(raw, events[..k]), events[k]);
      Next(After(raw, events[..k]), events[k])
  }

  /** All slices of the frame that is under way after `events`, put together. */
  function FrameOf(events: seq<Event>): seq<byte> {
    if events == [] then []
    else
      var k := |events| - 1;
      match events[k]
      case Slice(offset, data, _) => if offset == 0 then data else FrameOf(events[..k]) + data
      case PacketEnd(_, _, _) => []
      case _ => FrameOf(events[..k])
  }

  /** Whether a reset event came after the first slice of that frame. */
  predicate ResetInside(events: seq<Event>) {
    events != [] &&
    var k := |events| - 1;
    match events[k]
    case Slice(offset, _, _) => offset != 0 && ResetInside(events[..k])
    case PacketEnd(_, _, _) => false
    case _ => ResetInside(events[..k]) || (IsReset(events[k]) && FrameOf(events[..k]) != [])
  }

  lemma DeliverKeepsRaw(s: Rx, e: Event)
    requires s.OwnsOnePbuf() && Acceptable(e)
    ensures Deliver(s, e).0.raw == s.raw
  {
  }

  lemma {:induction false} RawKept(raw: seq<uint16>, events: seq<Event>)
    requires Run(raw, events)
    ensures After(raw, events).rx.raw == raw
    decreases |events|
  {
    if events != [] {
      var k := |events| - 1;
      RawKept(raw, events[..k]);
      DeliverKeepsRaw(After(raw, events[..k]).rx, events[k]);
    }
  }

  lemma {:induction false} WireMeansEvents(raw: seq<uint16>, events: seq<Event>)
    requires Run(raw, events)
    ensures After(raw, events).wire.frame == FrameOf(events)
    ensures After(raw, events).wire.straddles == ResetInside(events)
    decreases |events|
  {
    if events != [] {
      WireMeansEvents(raw, events[..|events| - 1]);
    }
  }

  /**
   * In every run: a frame reaches a handler or lwIP only as the exact concatenation of
   * its own slices, cut off at the 1518 bytes of the buffer, and never if a reset fell
   * inside it. It is whole exactly if it fits the buffer.
   */
  lemma {:induction false} DeliveredFramesAreWhole(raw: seq<uint16>, events: seq<Event>, e: Event)
    requires Run(raw, events + [e]) && e.PacketEnd?
    ensures (events + [e])[..|events|] == events && Run(raw, events)
    ensures var y := After(raw, events);
      && Promised(y.wire, e)
      && (OutcomeOf(y, e).Passed() ==>
            && |FrameOf(events)| >= 42
            && OutcomeOf(y, e) == Demux(y.rx.raw, Fitting(FrameOf(events), 1518), e.stackAccepts)
            && OutcomeOf(y, e).frame == Fitting(FrameOf(events), 1518)
            && (OutcomeOf(y, e).frame == FrameOf(events) <==> |FrameOf(events)| <= 1518)
            && !ResetInside(events))
  {
    assert (events + [e])[..|events|] == events;
    var y := After(raw, events);
    WireMeansEvents(raw, events);
    if OutcomeOf(y, e).Passed() {
      PassedIsWhole(y, e);
    }
  }

  /** No frame of the run was cut off by the start of the next one. */
  predicate NoneAbandoned(events: seq<Event>) {
    forall k :: 0 <= k < |events| && events[k].Slice? && events[k].offset == 0 ==> FrameOf(events[..k]) == []
  }

  lemma NoneAbandonedExtends(events: seq<Event>, e: Event)
    requires NoneAbandoned(events) && (e.Slice? && e.offset == 0 ==> FrameOf(events) == [])
    ensures NoneAbandoned(events + [e])
  {
    var more := events + [e];
    forall k | 0 <= k < |more| && more[k].Slice? && more[k].offset == 0
      ensures FrameOf(more[..k]) == []
    {
      assert more[..k] == events[..k];
      if k == |events| { assert events[..k] == events; } else { assert more[k] == events[k]; }
    }
  }

  lemma {:induction false} NothingStray(raw: seq<uint16>, events: seq<Event>)
    requires Run(raw, events) && NoneAbandoned(events)
    ensures var y := After(raw, events);
      !y.wire.abandoned && (y.rx.resetComplete ==> y.wire.stray == 0)
    decreases |events|
  {
    if events != [] {
      var k := |events| - 1;
      forall j | 0 <= j < k && events[..k][j].Slice? && events[..k][j].offset == 0
        ensures FrameOf(events[..k][..j]) == []
      {
        assert events[..k][..j] == events[..j];
      }
      NothingStray(raw, events[..k]);
      WireMeansEvents(raw, events[..k]);
    }
  }

  // ---------------------------------------------------------------------
  // What passes, read off the events alone
  // ---------------------------------------------------------------------

  /** The last re-initialisation, if there was one, is over. */
  predicate ResetOver(events: seq<Event>) {
    events != [] &&
    var k := |events| - 1;
    if IsReset(events[k]) then events[k].RegsCallback? && events[k].event.ResetComplete? else ResetOver(events[..k])
  }

  /** Where a slice ends, and what asking for a buffer would yield then. */
  datatype Cut = Cut(end: nat, alloc: Alloc)

  /** The slices since the last frame end outside a reset. */
  function CutsSince(events: seq<Event>): seq<Cut> {
    if events == [] then []
    else
      var k := |events| - 1;
      match events[k]
      case Slice(offset, data, alloc) => CutsSince(events[..k]) + [Cut(offset + |data|, alloc)]
      case PacketEnd(_, _, _) => if ResetOver(events[..k]) then [] else CutsSince(events[..k])
      case _ => CutsSince(events[..k])
  }

  predicate TooLong(c: Cut) {
    c.end > 1522
  }

  /** The first of them got no contiguous buffer, or any of them goes beyond the size guard. */
  ghost predicate Refused(cuts: seq<Cut>) {
    cuts != [] && (!cuts[0].alloc.Single? || exists k :: 0 <= k < |cuts| && TooLong(cuts[k]))
  }

  /** The bytes of all slices since the last frame end outside a reset or reset-complete event. */
  function BytesSince(events: seq<Event>): nat {
    if events == [] then 0
    else
      var k := |events| - 1;
      match events[k]
      case Slice(_, data, _) => BytesSince(events[..k]) + |data|
      case PacketEnd(_, _, _) => if ResetOver(events[..k]) then 0 else BytesSince(events[..k])
      case RegsCallback(ResetComplete) => 0
      case _ => BytesSince(events[..k])
  }

  lemma OneMoreCut(cuts: seq<Cut>, c: Cut)
    ensures Refused(cuts + [c]) <==> Refused(cuts) || TooLong(c) || (cuts == [] && !c.alloc.Single?)
  {
    var more := cuts + [c];
    assert more[|cuts|] == c;
    assert forall k :: 0 <= k < |cuts| ==> more[k] == cuts[k];
  }

  /** The receiver's flags, buffer and counts say this about the events. */
  ghost predicate FlagsMean(y: System, resetOver: bool, cuts: seq<Cut>, bytes: nat) {
    && y.rx.resetComplete == resetOver
    && y.rx.rxInvalid == Refused(cuts)
    && (y.rx.pbuf.Some? <==> cuts != [] && cuts[0].alloc.Single? && !TooLong(cuts[0]))
    && y.wire.stray + y.wire.own == bytes
  }

  lemma SliceKeepsMeaning(y: System, e: Event, resetOver: bool, cuts: seq<Cut>, bytes: nat)
    requires Inv(y) && e.Slice? && Promised(y.wire, e) && FlagsMean(y, resetOver, cuts, bytes)
    ensures FlagsMean(Next(y, e), resetOver, cuts + [Cut(e.offset + |e.data|, e.alloc)], bytes + |e.data|)
  {
    OneMoreCut(cuts, Cut(e.offset + |e.data|, e.alloc));
  }

  lemma SliceSince(events: seq<Event>, e: Event)
    requires events != [] && e == events[|events| - 1] && e.Slice?
    ensures var before := events[..|events| - 1];
      && ResetOver(events) == ResetOver(before)
      && CutsSince(events) == CutsSince(before) + [Cut(e.offset + |e.data|, e.alloc)]
      && BytesSince(events) == BytesSince(before) + |e.data|
  {
  }

  lemma StepKeepsMeaning(y: System, events: seq<Event>, k: nat)
    requires k + 1 == |events| && Inv(y) && Promised(y.wire, events[k])
    requires FlagsMean(y, ResetOver(events[..k]), CutsSince(events[..k]), BytesSince(events[..k]))
    ensures FlagsMean(Next(y, events[k]), ResetOver(events), CutsSince(events), BytesSince(events))
  {
    var e := events[k];
    if e.Slice? {
      var before, cut := events[..k], Cut(e.offset + |e.data|, e.alloc);
      SliceKeepsMeaning(y, e, ResetOver(before), CutsSince(before), BytesSince(before));
      assert FlagsMean(Next(y, e), ResetOver(before), CutsSince(before) + [cut], BytesSince(before) + |e.data|);
      SliceSince(events, e);
    } else {
      OtherKeepsMeaning(y, events, k);
    }
  }

  lemma OtherKeepsMeaning(y: System, events: seq<Event>, k: nat)
    requires k + 1 == |events| && !events[k].Slice? && Inv(y) && Promised(y.wire, events[k])
    requires FlagsMean(y, ResetOver(events[..k]), CutsSince(events[..k]), BytesSince(events[..k]))
    ensures FlagsMean(Next(y, events[k]), ResetOver(events), CutsSince(events), BytesSince(events))
  {
  }

  lemma {:induction false} FlagsMeanEvents(raw: seq<uint16>, events: seq<Event>)
    requires Run(raw, events)
    ensures FlagsMean(After(raw, events), ResetOver(events), CutsSince(events), BytesSince(events))
    decreases |events|
  {
    if events != [] {
      var k := |events| - 1;
      FlagsMeanEvents(raw, events[..k]);
      StepKeepsMeaning(After(raw, events[..k]), events, k);
    }
  }

  /**
   * In every run a frame gets past the checks if and only if it is good and has 42 bytes
   * or more, the last reset is over and none fell inside it, no slice since the last
   * frame end was refused, and the other bytes that arrived since then, if any, are a
   * multiple of 2^16.
   */
  lemma {:induction false} FramePassesIff(raw: seq<uint16>, events: seq<Event>, e: Event)
    requires Run(raw, events) && e.PacketEnd? && Promised(After(raw, events).wire, e)
    ensures OutcomeOf(After(raw, events), e).Passed() <==>
      && e.success && |FrameOf(events)| >= 42
      && ResetOver(events) && !ResetInside(events) && !Refused(CutsSince(events))
      && (BytesSince(events) - |FrameOf(events)|) % U16 == 0
  {
    FlagsMeanEvents(raw, events);
    WireMeansEvents(raw, events);
    PassedMeans(After(raw, events), e, ResetOver(events), CutsSince(events), BytesSince(events));
  }

  lemma PassedMeans(y: System, e: Event, resetOver: bool, cuts: seq<Cut>, bytes: nat)
    requires Inv(y) && e.PacketEnd? && Promised(y.wire, e) && FlagsMean(y, resetOver, cuts, bytes)
    ensures OutcomeOf(y, e).Passed() <==>
      && e.success && |y.wire.frame| >= MIN_HEADER_LEN
      && resetOver && !y.wire.straddles && !Refused(cuts)
      && (bytes - |y.wire.frame|) % U16 == 0
  {
    PassedIff(y, e);
  }

  /**
   * And if every earlier frame got its end, there are no other bytes to count: this is
   * exactly what becomes of a frame then.
   */
  lemma {:induction false} GoodFramesPass(raw: seq<uint16>, events: seq<Event>, e: Event)
    requires Run(raw, events) && NoneAbandoned(events)
    requires e.PacketEnd? && Promised(After(raw, events).wire, e)
    ensures OutcomeOf(After(raw, events), e) ==
      if !ResetOver(events) then Ignored
      else if e.success && |FrameOf(events)| >= 42
              && !ResetInside(events) && !Refused(CutsSince(events))
      then Demux(raw, Fitting(FrameOf(events), 1518), e.stackAccepts)
      else Dropped
  {
    var y := After(raw, events);
    NothingStray(raw, events);
    FlagsMeanEvents(raw, events);
    WireMeansEvents(raw, events);
    RawKept(raw, events);
    PassedIff(y, e);
    if OutcomeOf(y, e).Passed() { PassedIsWhole(y, e); }
  }

  // ---------------------------------------------------------------------
  // Whose frame it is
  // ---------------------------------------------------------------------

  /** The type field names IPv4 or ARP. */
  predicate IsIpOrArp(frame: seq<byte>)
    requires |frame| >= 14
  {
    frame[12] == 0x08 && frame[13] in {0x00, 0x06}
  }

  /** Some raw handler is registered for the type in the frame, high byte first. */
  predicate HasHandler(raw: seq<uint16>, frame: seq<byte>)
    requires |frame| >= 14
  {
    exists t :: t in raw && t / 256 == frame[12] && t % 256 == frame[13]
  }

  /** The buffer went to lwIP, and to nobody else. */
  predicate GivenAway(l: Ledger, l': Ledger, id: nat) {
    l'.given == l.given + {id} && l'.freed == l.freed
  }

  predicate FreedOnly(l: Ledger, l': Ledger, id: nat) {
    l'.freed == l.freed + {id} && l'.given == l.given
  }

  /**
   * In every run, for a frame that passed: a raw handler registered for its type gets
   * it; otherwise lwIP is offered it exactly if it is IPv4 or ARP, and keeps the buffer
   * exactly if it accepts; in every other case the driver frees the buffer.
   */
  lemma {:induction false} WhoGetsTheFrame(raw: seq<uint16>, events: seq<Event>, e: Event)
    requires Run(raw, events) && e.PacketEnd? && Promised(After(raw, events).wire, e)
    requires OutcomeOf(After(raw, events), e).Passed()
    ensures var y, frame := After(raw, events), FrameOf(events);
      && |frame| >= 42 && y.rx.pbuf.Some?
      && var outcome, l, l' := OutcomeOf(y, e), y.rx.ledger, Next(y, e).rx.ledger;
      && (outcome.ToHandler? <==> HasHandler(raw, frame))
      && (outcome.ToStack? <==> !HasHandler(raw, frame) && IsIpOrArp(frame) && e.stackAccepts)
      && (outcome.StackRefused? <==> !HasHandler(raw, frame) && IsIpOrArp(frame) && !e.stackAccepts)
      && (if !HasHandler(raw, frame) && IsIpOrArp(frame) && e.stackAccepts
          then GivenAway(l, l', y.rx.pbuf.value.id) else FreedOnly(l, l', y.rx.pbuf.value.id))
  {
    var y := After(raw, events);
    RawKept(raw, events);
    WireMeansEvents(raw, events);
    PassedIsWhole(y, e);
    EndSettles(y, e, FrameOf(events));
  }

  lemma EndSettles(y: System, e: Event, frame: seq<byte>)
    requires Inv(y) && e.PacketEnd? && Promised(y.wire, e) && |frame| >= MIN_HEADER_LEN
    requires OutcomeOf(y, e).Passed()
    requires OutcomeOf(y, e) == Demux(y.rx.raw, Fitting(frame, TC6LWIP_MTU), e.stackAccepts)
    ensures y.rx.pbuf.Some?
    ensures var outcome, raw, id := OutcomeOf(y, e), y.rx.raw, y.rx.pbuf.value.id;
      && (outcome.ToHandler? <==> HasHandler(raw, frame))
      && (outcome.ToStack? <==> !HasHandler(raw, frame) && IsIpOrArp(frame) && e.stackAccepts)
      && (outcome.StackRefused? <==> !HasHandler(raw, frame) && IsIpOrArp(frame) && !e.stackAccepts)
      && (if !HasHandler(raw, frame) && IsIpOrArp(frame) && e.stackAccepts
          then GivenAway(y.rx.ledger, Next(y, e).rx.ledger, id) else FreedOnly(y.rx.ledger, Next(y, e).rx.ledger, id))
  {
    var f := Fitting(frame, TC6LWIP_MTU);
    assert f[12] == frame[12] && f[13] == frame[13];
    HandlerByType(y.rx.raw, frame, f);
  }

  lemma HandlerByType(raw: seq<uint16>, frame: seq<byte>, f: seq<byte>)
    requires |frame| >= 14 && |f| >= 14 && f[12] == frame[12] && f[13] == frame[13]
    ensures HasHandler(raw, frame) <==> EtherType(f) in raw
  {
    if EtherType(f) in raw {
      assert EtherType(f) / 256 == frame[12] && EtherType(f) % 256 == frame[13];
    }
  }

  /** A buffer held at a frame end that does not pass is freed, unless a reset is under way. */
  lemma {:induction false} DroppedIsFreed(raw: seq<uint16>, events: seq<Event>, e: Event)
    requires Run(raw, events) && e.PacketEnd? && Promised(After(raw, events).wire, e)
    requires !OutcomeOf(After(raw, events), e).Passed() && ResetOver(events)
    ensures var y := After(raw, events);
      var l, l' := y.rx.ledger, Next(y, e).rx.ledger;
      if y.rx.pbuf.Some? then FreedOnly(l, l', y.rx.pbuf.value.id) else l' == l
  {
    FlagsMeanEvents(raw, events);
  }

  /** Which callbacks begin a reset, and which one ends it. */
  lemma {:induction false} WhatResets(raw: seq<uint16>, events: seq<Event>, e: Event)
    requires Run(raw, events) && (e.ErrorCallback? || e.RegsCallback?)
    ensures Next(After(raw, events), e).rx.resetComplete <==>
      if e == RegsCallback(ResetComplete) then true
      else if e in {ErrorCallback(NoHardware), ErrorCallback(UnexpectedSv), ErrorCallback(UnexpectedDvEv),
                    ErrorCallback(BadChecksum), ErrorCallback(UnexpectedCtrl), ErrorCallback(BadTxData),
                    ErrorCallback(SyncLost), ErrorCallback(SpiError),
                    RegsCallback(UnknownError), RegsCallback(TransmitProtocolError),
                    RegsCallback(LossOfFraming), RegsCallback(HeaderError)} then false
      else ResetOver(events)
  {
    FlagsMeanEvents(raw, events);
  }

  lemma {:induction false} Push(raw: seq<uint16>, events: seq<Event>, e: Event) returns (more: seq<Event>)
    requires Run(raw, events) && Promised(After(raw, events).wire, e)
    ensures more == events + [e] && Run(raw, more) && After(raw, more) == Next(After(raw, events), e)
  {
    more := events + [e];
    assert more[..|events|] == events;
  }

  /** A frame of 1519 to 1522 bytes does get past the guard and is handed on cut off. */
  lemma LongFrameIsCutOff(raw: seq<uint16>, data: seq<byte>, alloc: Alloc, stackAccepts: bool)
    returns (events: seq<Event>)
    requires 1518 < |data| <= 1522 && alloc.Single? && SoundAlloc(alloc)
    ensures Run(raw, events) && FrameOf(events) == data
    ensures var e := PacketEnd(true, |data|, stackAccepts);
      && Promised(After(raw, events).wire, e)
      && OutcomeOf(After(raw, events), e) == Demux(raw, data[..1518], stackAccepts)
      && OutcomeOf(After(raw, events), e).frame != FrameOf(events)
  {
    events := FrameArrives(raw, data, alloc);
    GoodFramesPass(raw, events, PacketEnd(true, |data|, stackAccepts));
    assert |data[..1518]| != |data|;
  }

  /** A run that ends with the whole of a frame in one slice. */
  lemma FrameArrives(raw: seq<uint16>, data: seq<byte>, alloc: Alloc) returns (events: seq<Event>)
    requires 0 < |data| <= 1522 && alloc.Single? && SoundAlloc(alloc)
    ensures Run(raw, events) && NoneAbandoned(events)
    ensures After(raw, events).wire.frame == FrameOf(events) == data
    ensures ResetOver(events) && !ResetInside(events) && !Refused(CutsSince(events))
  {
    var slice := Slice(0, data, alloc);
    var up := LinkComesUp(raw);
    NoneAbandonedExtends(up, slice);
    SliceSince(up + [slice], slice);
    OneMoreCut([], Cut(|data|, alloc));
    events := Push(raw, up, slice);
    WireMeansEvents(raw, events);
  }

  /** The shortest run after which frames are taken. */
  lemma LinkComesUp(raw: seq<uint16>) returns (events: seq<Event>)
    ensures Run(raw, events) && NoneAbandoned(events) && After(raw, events).wire.frame == []
    ensures ResetOver(events) && CutsSince(events) == [] && FrameOf(events) == []
  {
    events := Push(raw, [], RegsCallback(ResetComplete));
    assert events[..0] == [];
    WireMeansEvents(raw, events);
  }
}
