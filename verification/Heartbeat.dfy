/**
 * The heartbeat endpoints of eth_heartbeat.c and udp_heartbeat.c. Both keep a send
 * timestamp, a paused flag and statistics, and treat a received byte the same way;
 * they differ only in what counts as transmitted.
 */
module Heartbeat {
  import opened Words
  import SysTick

  datatype Role = Server | Client

  datatype Transport = Udp | RawEth

  const ACK_BYTE: byte := 0xAC

  /** `ready`: initialised (raw Ethernet) or control block created and bound (UDP). */
  datatype Endpoint = Endpoint(ready: bool, paused: bool, stamp: nat,
                               txCount: uint32, rxCount: uint32, lastRtt: uint32, avgRtt: uint32)

  /** What becomes of an ACK: no buffer could be filled for it, the stack refused it, or it went out. */
  datatype Reply = NoBuffer | Refused | Sent

  /**
   * What a received byte makes the board do: set the LED, build a packet with the byte
   * `built`, which goes out if `ack`, and record a round trip.
   */
  datatype Effects = Effects(led: Option<bool>, built: Option<byte>, ack: bool, rtt: Option<uint32>)

  const NOTHING: Effects := Effects(None, None, false, None)

  function Bump(n: uint32): uint32 {
    (n + 1) % U32
  }

  /** The moving average, in 32-bit arithmetic; 0 stands for "no average yet". */
  function Average(avg: uint32, rtt: uint32): uint32 {
    if avg == 0 then rtt else (avg * 7 + rtt) % U32 / 8
  }

  /** heartbeat_send and eth_heartbeat_send; `sent` says whether the stack took the packet. */
  function Send(t: Transport, role: Role, e: Endpoint, nowUs: nat, sent: bool): Endpoint {
    if !e.ready || role != Server then e
    else e.(stamp := nowUs, txCount := if t == RawEth || sent then Bump(e.txCount) else e.txCount)
  }

  /** The byte of the packet that heartbeat_send and eth_heartbeat_send build, if they do. */
  function BuiltBySend(role: Role, e: Endpoint, led: byte): Option<byte> {
    if !e.ready || role != Server then None else Some(led)
  }

  /**
   * heartbeat_recv_cb and eth_heartbeat_rx_handler; `payload` is the byte that arrived,
   * None if the packet is too short to have one, and `reply` is what a client's ACK meets.
   * Over UDP an ACK counts as transmitted even if the stack refuses it.
   */
  function Receive(t: Transport, role: Role, e: Endpoint, payload: Option<byte>, nowUs: nat, reply: Reply)
    : (Endpoint, Effects)
  {
    if !e.ready || payload.None? then (e, NOTHING)
    else match role
      case Client =>
        (e.(rxCount := Bump(e.rxCount),
            txCount := if t == RawEth || reply != NoBuffer then Bump(e.txCount) else e.txCount),
         Effects(if e.paused then None else Some(payload.value != 0),
                 if reply == NoBuffer then None else Some(ACK_BYTE), reply == Sent, None))
      case Server =>
        if e.stamp == 0 then (e, NOTHING)
        else
          var rtt := (nowUs - e.stamp) % U32;
          (e.(stamp := 0, lastRtt := rtt, avgRtt := Average(e.avgRtt, rtt), rxCount := Bump(e.rxCount)),
           Effects(None, None, false, Some(rtt)))
  }

  class HeartbeatModule {
    const transport: Transport
    const role: Role
    const ready: bool
    var paused: bool
    var stamp: nat
    var txCount: uint32
    var rxCount: uint32
    var lastRtt: uint32
    var avgRtt: uint32

    function View(): Endpoint
      reads this
    {
      Endpoint(ready, paused, stamp, txCount, rxCount, lastRtt, avgRtt)
    }

    constructor (transport: Transport, role: Role, ready: bool)
      ensures this.transport == transport && this.role == role
      ensures View() == Endpoint(ready, false, 0, 0, 0, 0, 0)
    {
      this.transport, this.role, this.ready := transport, role, ready;
      paused, stamp, txCount, rxCount, lastRtt, avgRtt := false, 0, 0, 0, 0, 0;
    }

    method SendHeartbeat(led: byte, nowUs: nat, sent: bool) returns (built: Option<byte>)
      modifies this`stamp, this`txCount
      ensures View() == Send(transport, role, old(View()), nowUs, sent)
      ensures built == BuiltBySend(role, old(View()), led)
    {
      built := None;
      if !ready {
        return;
      }
      if role != Server {
        return;
      }
      stamp := nowUs;
      built := Some(led);
      if transport == RawEth || sent {
        txCount := Bump(txCount);
      }
    }

    method OnReceive(payload: Option<byte>, nowUs: nat, reply: Reply) returns (fx: Effects)
      modifies this`stamp, this`txCount, this`rxCount, this`lastRtt, this`avgRtt
      ensures (View(), fx) == Receive(transport, role, old(View()), payload, nowUs, reply)
    {
      fx := NOTHING;
      if !ready || payload.None? {
        return;
      }
      if role == Client {
        if !paused {
          fx := fx.(led := Some(payload.value != 0));
        }
        rxCount := Bump(rxCount);
        if reply != NoBuffer {
          fx := fx.(built := Some(ACK_BYTE), ack := reply == Sent);
        }
        if transport == RawEth || reply != NoBuffer {
          txCount := Bump(txCount);
        }
      } else {
        if stamp == 0 {
          return;
        }
        var rtt := (nowUs - stamp) % U32;
        stamp := 0;
        lastRtt := rtt;
        if avgRtt == 0 {
          avgRtt := rtt;
        } else {
          avgRtt := (avgRtt * 7 + rtt) % U32 / 8;
        }
        rxCount := Bump(rxCount);
        fx := fx.(rtt := Some(rtt));
      }
    }

    method SetPaused(value: bool)
      modifies this`paused
      ensures View() == old(View()).(paused := value)
    {
      paused := value;
    }

    method ResetRtt()
      modifies this`stamp
      ensures View() == old(View()).(stamp := 0)
    {
      stamp := 0;
    }
  }

  // ---------------------------------------------------------------------
  // The round-trip average
  // ---------------------------------------------------------------------

  /** The average after a series of samples. */
  function AverageOf(samples: seq<uint32>): uint32 {
    if samples == [] then 0 else Average(AverageOf(samples[..|samples| - 1]), samples[|samples| - 1])
  }

  const SAFE_RTT: int := 0x2000_0000

  /**
   * For positive samples below 2^29 the 32-bit sum never overflows and the average
   * stays between the least and the greatest sample.
   */
  lemma {:induction false} AverageStaysBetween(samples: seq<uint32>, lo: uint32, hi: uint32, next: uint32)
    requires samples != [] && 0 < lo <= hi < SAFE_RTT
    requires forall k :: 0 <= k < |samples| ==> lo <= samples[k] <= hi
    requires lo <= next <= hi
    ensures lo <= AverageOf(samples) <= hi
    ensures AverageOf(samples) * 7 + next < U32
    decreases |samples|
  {
    var k := |samples| - 1;
    assert AverageOf(samples) == Average(AverageOf(samples[..k]), samples[k]);
    if k > 0 {
      AverageStaysBetween(samples[..k], lo, hi, samples[k]);
      AverageBetween(AverageOf(samples[..k]), samples[k], lo, hi);
    } else {
      assert samples[..0] == [];
    }
  }

  lemma AverageBetween(a: uint32, s: uint32, lo: uint32, hi: uint32)
    requires 0 < lo <= a <= hi < SAFE_RTT && lo <= s <= hi
    ensures lo <= Average(a, s) <= hi
  {
    assert a * 7 + s < U32;
  }

  function Iterate(avg: uint32, rtt: uint32, n: nat): uint32 {
    if n == 0 then avg else Average(Iterate(avg, rtt, n - 1), rtt)
  }

  /** A constant sample leaves the average alone exactly inside the band [r - 7, r]. */
  lemma FixedIff(avg: uint32, r: uint32)
    requires 0 < r < SAFE_RTT && 0 < avg < SAFE_RTT
    ensures Average(avg, r) == avg <==> r - 7 <= avg <= r
  {
  }

  /** From any average, a constant sample leads into that band in at most |avg - r| steps, for good. */
  lemma {:induction false} Converges(avg: uint32, r: uint32, n: nat)
    requires 0 < r < SAFE_RTT && avg < SAFE_RTT
    ensures var a := Iterate(avg, r, n);
      && (avg != 0 || n > 0 ==> 0 < a < SAFE_RTT)
      && (avg > r ==> a >= r && (a <= avg - n || a == r))
      && (0 < avg <= r ==> avg <= a <= r && (a >= avg + n || a >= r - 7))
      && (avg == 0 && n > 0 ==> a == r)
    decreases n
  {
    if n > 0 {
      Converges(avg, r, n - 1);
      AverageMoves(Iterate(avg, r, n - 1), r);
    }
  }

  lemma AverageMoves(a: uint32, r: uint32)
    requires 0 < r < SAFE_RTT && a < SAFE_RTT
    ensures a == 0 ==> Average(a, r) == r
    ensures a > r ==> r <= Average(a, r) < a
    ensures 0 < a <= r ==> a <= Average(a, r) <= r && (Average(a, r) > a || a >= r - 7)
  {
  }

  lemma ReachesBand(avg: uint32, r: uint32, n: nat)
    requires 0 < r < SAFE_RTT && avg < SAFE_RTT
    requires n > 0 && n >= (if avg > r then avg - r else r - avg)
    ensures r - 7 <= Iterate(avg, r, n) <= r
  {
    Converges(avg, r, n);
  }

  // ---------------------------------------------------------------------
  // Round trips measured with the microsecond clock
  // ---------------------------------------------------------------------

  /** The round trip the server records for a send at true time t0 and an ACK at t1 (in ticks). */
  function MeasuredRtt(e: SysTick.Excess, t0: nat, t1: nat): uint32 {
    (SysTick.UsReturned(e, t1) - SysTick.UsReturned(e, t0)) % U32
  }

  /** The overflows of the clock's offset vanish in it. */
  lemma RttIgnoresOverflow(e: SysTick.Excess, t0: nat, t1: nat, us: int)
    requires us == SysTick.Us(e, t1) - SysTick.Us(e, t0)
    ensures MeasuredRtt(e, t0, t1) == us % U32
  {
    SysTick.UsLoses(e, t0);
    SysTick.UsLoses(e, t1);
    var lost := 1000 * (SysTick.Overflows(e, t1) - SysTick.Overflows(e, t0));
    DivModUnique(us - U32 * lost, U32, us / U32 - lost, us % U32);
  }

  /** With the configured timer period a round trip is measured to within a microsecond. */
  lemma RttAccurate(t0: nat, t1: nat)
    requires t0 <= t1 && t1 - t0 < (U32 - 1) * SysTick.SCALER_US
    ensures var us := (t1 - t0) / SysTick.SCALER_US;
      us <= MeasuredRtt(SysTick.CONFIGURED_EXCESS, t0, t1) <= us + 1
  {
    var us := UsApart(t0, t1);
    RttIgnoresOverflow(SysTick.CONFIGURED_EXCESS, t0, t1, us);
    InRange(us);
  }

  lemma InRange(x: int)
    requires 0 <= x < U32
    ensures x % U32 == x
  {
  }

  lemma UsApart(t0: nat, t1: nat) returns (us: int)
    requires t0 <= t1
    ensures us == SysTick.Us(SysTick.CONFIGURED_EXCESS, t1) - SysTick.Us(SysTick.CONFIGURED_EXCESS, t0)
    ensures us - 1 <= (t1 - t0) / SysTick.SCALER_US <= us
  {
    var e := SysTick.CONFIGURED_EXCESS;
    us := SysTick.Us(e, t1) - SysTick.Us(e, t0);
    var d := SysTick.Apart(e, t0, t1);
    Truncates(d, SysTick.Raw(e, t0), SysTick.Raw(e, t1));
  }

  /** Taking whole microseconds of two readings moves their difference by less than one. */
  lemma Truncates(d: int, r0: nat, r1: nat)
    ensures var ticks, us := 4294900000 * d + r1 - r0, 42949000 * d + r1 / 100 - r0 / 100;
      us - 1 <= ticks / 100 <= us
  {
  }

  /**
   * With a timer that really used all 32 bits, every round trip shorter than 671
   * microseconds that straddles a wrap would be recorded as more than 2^32 - 674 of them.
   */
  lemma RttBrokenAcrossFullWrap(t0: nat, t1: nat)
    requires t0 <= t1 && t1 - t0 < 671 * SysTick.SCALER_US
    requires SysTick.Wraps(SysTick.FULL_RANGE_EXCESS, t1) == SysTick.Wraps(SysTick.FULL_RANGE_EXCESS, t0) + 1
    ensures MeasuredRtt(SysTick.FULL_RANGE_EXCESS, t0, t1) > U32 - 674
  {
    var e := SysTick.FULL_RANGE_EXCESS;
    var d := SysTick.Apart(e, t0, t1);
    RttIgnoresOverflow(e, t0, t1, SysTick.Us(e, t1) - SysTick.Us(e, t0));
    assert d == 1;
  }
}
