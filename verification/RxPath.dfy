/**
 * The receive half of tc6-lwip.c: slices of an Ethernet frame are copied into one
 * pbuf, and at the end of the frame the pbuf goes to a raw-frame handler, to lwIP or
 * back to the pool. Errors, re-initialisation and the reset-complete event of the
 * MAC-PHY may come between any two slices.
 */
module RxPath {
  import opened Words

  const TC6LWIP_MTU: int := 1518
  const ETHARP_FCS_LEN: int := 4
  const MIN_HEADER_LEN: int := 42
  const RAW_RX_CB_MAX: int := 1
  const ETHTYPE_IP: uint16 := 0x0800
  const ETHTYPE_ARP: uint16 := 0x0806

  // ---------------------------------------------------------------------
  // Buffers
  // ---------------------------------------------------------------------

  /** Which pbufs have been allocated (0 .. next), and where they went. */
  datatype Ledger = Ledger(next: nat, freed: set<nat>, given: set<nat>) {
    predicate Held(id: nat) {
      id < next && id !in freed && id !in given
    }

    function Free(id: nat): Ledger
      requires Held(id)
    {
      this.(freed := freed + {id})
    }

    function Give(id: nat): Ledger
      requires Held(id)
    {
      this.(given := given + {id})
    }
  }

  datatype Pbuf = Pbuf(id: nat, payload: seq<byte>)

  /** What pbuf_alloc does: fail, return a chain, or return one contiguous buffer. */
  datatype Alloc = NoMemory | Chained | Single(content: seq<byte>)

  predicate SoundAlloc(a: Alloc) {
    a.Single? ==> |a.content| == TC6LWIP_MTU
  }

  // ---------------------------------------------------------------------
  // The receiver
  // ---------------------------------------------------------------------

  datatype Rx = Rx(pbuf: Option<Pbuf>, rxLen: uint16, rxInvalid: bool, resetComplete: bool,
                   raw: seq<uint16>, ledger: Ledger) {
    /** The driver holds exactly the pbuf it is filling, if any. */
    ghost predicate OwnsOnePbuf() {
      && ledger.freed !! ledger.given
      && (forall id :: id in ledger.freed + ledger.given ==> id < ledger.next)
      && (pbuf.Some? ==> |pbuf.value.payload| == TC6LWIP_MTU)
      && (forall id :: ledger.Held(id) <==> pbuf.Some? && id == pbuf.value.id)
    }
  }

  /** What became of a frame at its end. */
  datatype Outcome =
    | Ignored                           // reset under way, nothing is touched
    | Dropped                           // failed a check
    | ToHandler(frame: seq<byte>)       // raw-frame callback
    | ToStack(frame: seq<byte>)         // accepted by lwIP
    | StackRefused(frame: seq<byte>)    // lwIP returned an error
    | Unwanted(frame: seq<byte>)        // no consumer for this EtherType
  {
    predicate Passed() {
      !Ignored? && !Dropped?
    }
  }

  /** What of a frame or slice fits into `room` bytes. */
  function Fitting(data: seq<byte>, room: nat): seq<byte> {
    if |data| <= room then data else data[..room]
  }

  /**
   * memcpy to the payload at `offset`. The size guard admits four bytes more than the
   * buffer has; what the code does to the memory behind the buffer is left open.
   */
  function Copied(payload: seq<byte>, offset: nat, data: seq<byte>): (r: seq<byte>)
    ensures |r| == |payload|
  {
    if offset >= |payload| then payload
    else
      var part := Fitting(data, |payload| - offset);
      payload[..offset] + part + payload[offset + |part|..]
  }

  function Store(s: Rx, offset: uint16, data: seq<byte>): Rx
    requires s.pbuf.Some?
  {
    var p := s.pbuf.value;
    s.(pbuf := Some(p.(payload := Copied(p.payload, offset, data))), rxLen := (s.rxLen + |data|) % U16)
  }

  /** Get a contiguous pbuf, or mark the frame invalid. */
  function Allocated(s: Rx, alloc: Alloc): Rx
    requires s.OwnsOnePbuf() && s.pbuf.None? && SoundAlloc(alloc)
  {
    var id := s.ledger.next;
    var taken := s.ledger.(next := id + 1);
    match alloc
    case NoMemory => s.(rxInvalid := true)
    case Chained => s.(rxInvalid := true, ledger := taken.Free(id))
    case Single(content) => s.(pbuf := Some(Pbuf(id, content)), ledger := taken)
  }

  /** TC6_CB_OnRxEthernetSlice. */
  function OnSlice(s: Rx, offset: uint16, data: seq<byte>, alloc: Alloc): Rx
    requires s.OwnsOnePbuf() && SoundAlloc(alloc)
  {
    if s.rxInvalid then s
    else if offset + |data| > TC6LWIP_MTU + ETHARP_FCS_LEN then s.(rxInvalid := true)
    else
      var ready := if s.pbuf.None? then Allocated(s, alloc) else s;
      if ready.pbuf.Some? then Store(ready, offset, data) else ready
  }

  lemma AllocatedOwns(s: Rx, alloc: Alloc)
    requires s.OwnsOnePbuf() && s.pbuf.None? && SoundAlloc(alloc)
    ensures Allocated(s, alloc).OwnsOnePbuf()
  {
    var s' := Allocated(s, alloc);
    forall id ensures s'.ledger.Held(id) <==> s'.pbuf.Some? && id == s'.pbuf.value.id {
      assert !s.ledger.Held(id);
    }
  }

  lemma SliceOwns(s: Rx, offset: uint16, data: seq<byte>, alloc: Alloc)
    requires s.OwnsOnePbuf() && SoundAlloc(alloc)
    ensures OnSlice(s, offset, data, alloc).OwnsOnePbuf()
  {
    if s.pbuf.None? {
      AllocatedOwns(s, alloc);
    }
    var s' := OnSlice(s, offset, data, alloc);
    var l := if s.pbuf.None? then Allocated(s, alloc).ledger else s.ledger;
    forall id ensures s'.ledger.Held(id) <==> s'.pbuf.Some? && id == s'.pbuf.value.id {
      assert s.ledger.Held(id) || !s.ledger.Held(id);
      assert l.Held(id) || !l.Held(id);
    }
  }

  function EtherType(frame: seq<byte>): uint16
    requires |frame| >= 14
  {
    U8 * frame[12] + frame[13]
  }

  /** FilterRxEthernetPacket. */
  predicate ForStack(ethType: uint16) {
    ethType == ETHTYPE_IP || ethType == ETHTYPE_ARP
  }

  /** Raw handlers first, then lwIP, which takes the buffer only if it accepts it. */
  function Demux(raw: seq<uint16>, frame: seq<byte>, stackAccepts: bool): Outcome
    requires |frame| >= 14
  {
    var t := EtherType(frame);
    if t in raw then ToHandler(frame)
    else if ForStack(t) then (if stackAccepts then ToStack(frame) else StackRefused(frame))
    else Unwanted(frame)
  }

  predicate Checks(s: Rx, success: bool, len: uint16) {
    success && !s.rxInvalid && s.pbuf.Some? && s.rxLen != 0 && s.rxLen == len && len >= MIN_HEADER_LEN
  }

  /** pbuf_realloc only ever shrinks. */
  function Shrunk(payload: seq<byte>, len: nat): seq<byte> {
    if len < |payload| then payload[..len] else payload
  }

  /** TC6_CB_OnRxEthernetPacket. */
  function OnPacket(s: Rx, success: bool, len: uint16, stackAccepts: bool): (r: (Rx, Outcome))
    requires s.OwnsOnePbuf()
  {
    if !s.resetComplete then (s, Ignored)
    else
      var outcome := if Checks(s, success, len) then
                       Demux(s.raw, Shrunk(s.pbuf.value.payload, len), stackAccepts)
                     else Dropped;
      var ledger := match s.pbuf
        case None => s.ledger
        case Some(p) => if outcome.ToStack? then s.ledger.Give(p.id) else s.ledger.Free(p.id);
      (s.(pbuf := None, rxLen := 0, rxInvalid := false, ledger := ledger), outcome)
  }

  lemma PacketOwns(s: Rx, success: bool, len: uint16, stackAccepts: bool)
    requires s.OwnsOnePbuf()
    ensures OnPacket(s, success, len, stackAccepts).0.OwnsOnePbuf()
  {
    var s' := OnPacket(s, success, len, stackAccepts).0;
    assert s.pbuf.Some? ==> s.ledger.Held(s.pbuf.value.id);
    forall id ensures s'.ledger.Held(id) <==> s'.pbuf.Some? && id == s'.pbuf.value.id {
      assert s.ledger.Held(id) <==> s.pbuf.Some? && id == s.pbuf.value.id;
    }
  }

  datatype Error =
    | Succeeded | NoHardware | UnexpectedSv | UnexpectedDvEv | BadChecksum | UnexpectedCtrl
    | BadTxData | SyncLost | SpiError | ControlTxFail | UnknownFailure | PlcaStatusFail

  predicate ErrorReinits(e: Error) {
    match e
    case NoHardware | UnexpectedSv | UnexpectedDvEv | BadChecksum | UnexpectedCtrl
       | BadTxData | SyncLost | SpiError => true
    case Succeeded | ControlTxFail | UnknownFailure | PlcaStatusFail => false
  }

  /** Events of the register layer; OtherEvent stands for all that are only ignored. */
  datatype RegsEvent =
    | UnknownError | TransmitProtocolError | LossOfFraming | HeaderError | ResetComplete | OtherEvent

  predicate EventReinits(v: RegsEvent) {
    v.UnknownError? || v.TransmitProtocolError? || v.LossOfFraming? || v.HeaderError?
  }

  function OnError(s: Rx, e: Error): Rx {
    if ErrorReinits(e) then s.(resetComplete := false) else s
  }

  function OnEvent(s: Rx, v: RegsEvent): Rx {
    if v.ResetComplete? then s.(resetComplete := true, rxLen := 0)
    else if EventReinits(v) then s.(resetComplete := false)
    else s
  }

  // ---------------------------------------------------------------------
  // The driver object
  // ---------------------------------------------------------------------

  ghost function AllocResult(buffer: array?<byte>, chained: bool): Alloc
    reads buffer
  {
    if buffer == null then NoMemory else if chained then Chained else Single(buffer[..])
  }

  class Receiver {
    var pbuf: array?<byte>
    var rxLen: uint16
    var rxInvalid: bool
    var resetComplete: bool
    var raw: seq<uint16>
    ghost var pbufId: nat
    ghost var ledger: Ledger

    ghost function View(): Rx
      reads this, pbuf
    {
      Rx(if pbuf == null then None else Some(Pbuf(pbufId, pbuf[..])),
         rxLen, rxInvalid, resetComplete, raw, ledger)
    }

    ghost predicate Valid()
      reads this, pbuf
    {
      View().OwnsOnePbuf() && |raw| <= RAW_RX_CB_MAX
    }

    constructor ()
      ensures Valid()
      ensures View() == Rx(None, 0, false, false, [], Ledger(0, {}, {}))
    {
      pbuf, rxLen, rxInvalid, resetComplete, raw := null, 0, false, false, [];
      pbufId, ledger := 0, Ledger(0, {}, {});
    }

    method RegisterRawRxCallback(etherType: uint16)
      requires Valid()
      modifies this`raw
      ensures Valid()
      ensures View() == old(View()).(raw := if old(raw) == [] then [etherType] else old(raw))
    {
      if |raw| < RAW_RX_CB_MAX {
        raw := raw + [etherType];
      }
    }

    method AllocPbuf(buffer: array?<byte>, chained: bool)
      requires Valid() && pbuf == null
      requires buffer != null && !chained ==> buffer.Length == TC6LWIP_MTU
      modifies this`pbuf, this`rxInvalid, this`pbufId, this`ledger
      ensures Valid()
      ensures View() == Allocated(old(View()), AllocResult(buffer, chained))
      ensures pbuf == null || pbuf == buffer
    {
      AllocatedOwns(View(), AllocResult(buffer, chained));
      assert ledger.next !in ledger.freed + ledger.given;
      pbuf := buffer;
      if pbuf == null {
        rxInvalid := true;
      } else {
        pbufId, ledger := ledger.next, ledger.(next := ledger.next + 1);
        if chained {
          rxInvalid := true;
          ledger := ledger.Free(pbufId);
          pbuf := null;
        }
      }
    }

    /** `buffer` and `chained` are what pbuf_alloc yields if it is called. */
    method RxEthernetSlice(data: seq<byte>, offset: uint16, buffer: array?<byte>, chained: bool)
      requires Valid()
      requires buffer != null && !chained ==> buffer.Length == TC6LWIP_MTU
      modifies this, pbuf, buffer
      ensures Valid()
      ensures View() == OnSlice(old(View()), offset, data, old(AllocResult(buffer, chained)))
    {
      if !rxInvalid {
        if offset + |data| > TC6LWIP_MTU + ETHARP_FCS_LEN {
          rxInvalid := true;
        } else {
          if pbuf == null {
            AllocPbuf(buffer, chained);
          }
          if pbuf != null {
            StoreSlice(data, offset);
          }
        }
      }
    }

    method StoreSlice(data: seq<byte>, offset: uint16)
      requires pbuf != null
      modifies pbuf, this`rxLen
      ensures View() == Store(old(View()), offset, data)
    {
      ghost var before := pbuf[..];
      forall i | 0 <= i < |data| && offset + i < pbuf.Length {
        pbuf[offset + i] := data[i];
      }
      assert pbuf[..] == Copied(before, offset, data);
      rxLen := (rxLen + |data|) % U16;
    }

    /** `stackAccepts` is whether netif->input would return ERR_OK. */
    method RxEthernetPacket(success: bool, len: uint16, stackAccepts: bool) returns (outcome: Outcome)
      requires Valid()
      modifies this
      ensures Valid()
      ensures (View(), outcome) == OnPacket(old(View()), success, len, stackAccepts)
    {
      PacketOwns(View(), success, len, stackAccepts);
      outcome := Ignored;
      if resetComplete {
        outcome := Dropped;
        var result := true;
        if !success || rxInvalid || pbuf == null || rxLen == 0 {
          result := false;
        }
        if result && rxLen != len {
          result := false;
        }
        if result && len < MIN_HEADER_LEN {
          result := false;
        }
        if result {
          var frame := if len < pbuf.Length then pbuf[..len] else pbuf[..];
          var consumed := false;
          var ethType: uint16 := U8 * frame[12] + frame[13];
          outcome := Unwanted(frame);
          var cbIdx := 0;
          while cbIdx < |raw| && !consumed
            invariant 0 <= cbIdx <= |raw|
            invariant consumed <==> ethType in raw[..cbIdx]
            invariant outcome == if consumed then ToHandler(frame) else Unwanted(frame)
            decreases |raw| - cbIdx
          {
            if raw[cbIdx] == ethType {
              outcome := ToHandler(frame);
              consumed := true;
            }
            cbIdx := cbIdx + 1;
          }
          assert consumed <==> ethType in raw;
          if !consumed && ForStack(ethType) {
            if stackAccepts {
              outcome := ToStack(frame);
              ledger := ledger.Give(pbufId);
              pbuf, rxLen, rxInvalid := null, 0, false;
            } else {
              outcome := StackRefused(frame);
            }
          }
        }
        if pbuf != null {
          ledger := ledger.Free(pbufId);
          pbuf := null;
        }
        rxLen, rxInvalid := 0, false;
      }
    }

    method CbOnError(e: Error)
      requires Valid()
      modifies this`resetComplete
      ensures Valid() && View() == OnError(old(View()), e)
    {
      var reinit := false;
      match e {
        case Succeeded | ControlTxFail | PlcaStatusFail | UnknownFailure =>
        case NoHardware | UnexpectedSv | UnexpectedDvEv | BadChecksum | UnexpectedCtrl
           | BadTxData | SyncLost | SpiError =>
          reinit := true;
      }
      if reinit {
        resetComplete := false;
      }
    }

    method CbOnEvent(v: RegsEvent)
      requires Valid()
      modifies this`resetComplete, this`rxLen
      ensures Valid() && View() == OnEvent(old(View()), v)
    {
      var reinit := false;
      match v {
        case UnknownError | TransmitProtocolError | LossOfFraming | HeaderError => reinit := true;
        case ResetComplete => resetComplete, rxLen := true, 0;
        case OtherEvent =>
      }
      if reinit {
        resetComplete := false;
      }
    }
  }
}
