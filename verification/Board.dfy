/**
 * The main loop of main.c: one pass services the network, polls the button, toggles
 * the throughput test, advances the reset sequence and, on the server, blinks the LED
 * and sends a heartbeat.
 */
module Board {
  import opened Words
  import opened Heartbeat
  import Button
  import PerfClient

  const LONG_PRESS_RESET_MS: uint32 := 3000
  const RESET_DELAY_MS: uint32 := 1000
  const BLINK_MS: uint32 := 500
  const HB_EXCHANGES_PER_MODE: nat := 10

  datatype ResetState = ResetIdle | WaitingRelease | Countdown

  /**
   * What an observer of the run remembers: the unbounded times behind 32-bit fields,
   * every heartbeat sent and when, and how many ACKs were accepted in each block of one
   * mode.
   */
  datatype History = History(now: nat, servicedAt: nat, startAt: nat, heldFrom: nat, armedAt: nat,
                             releaseAt: nat, sent: seq<(Transport, byte)>, times: seq<nat>, toggledAt: nat,
                             accepted: nat, blocks: seq<nat>, rebooted: bool)

  /** The static variables behind the main loop; `led` is the physical LED. */
  datatype State = State(role: Role, btn: Button.Traced, perf: PerfClient.Perf, iperfRunning: bool,
                         resetState: ResetState, releaseTime: uint32, ledState: byte, led: bool,
                         hbMode: Transport, hbCount: nat, toggleStart: uint32,
                         udp: Endpoint, eth: Endpoint, h: History)

  /** A heartbeat packet that the network hands over during one pass. */
  datatype Packet = Packet(t: Transport, payload: Option<byte>, nowUs: nat, reply: Reply)

  /** What one pass meets: clock readings in milliseconds, the pin, packets and send results. */
  datatype Input = Input(service: nat, transfer: PerfClient.Transfer, packets: seq<Packet>, poll: nat, raw: bool,
                         action: nat, statsAt: uint32, firstTransfer: PerfClient.Transfer, reset: nat,
                         blink: nat, blinkUs: nat, sent: bool, restart: nat)

  // ---------------------------------------------------------------------
  // One pass, part by part
  // ---------------------------------------------------------------------

  function At(s: State, t: nat): State {
    s.(h := s.h.(now := t))
  }

  function EndpointOf(s: State, t: Transport): Endpoint {
    match t case Udp => s.udp case RawEth => s.eth
  }

  function WithEndpoint(s: State, t: Transport, e: Endpoint): State {
    match t case Udp => s.(udp := e) case RawEth => s.(eth := e)
  }

  function Paused(s: State, paused: bool): State {
    s.(udp := s.udp.(paused := paused), eth := s.eth.(paused := paused))
  }

  function ServicePerf(s: State, at: nat, x: PerfClient.Transfer): State {
    At(s, at).(perf := PerfClient.Serviced(s.perf, at % U32, x), h := s.h.(now := at, servicedAt := at))
  }

  function ReceivePacket(s: State, p: Packet): State {
    var (e, fx) := Receive(p.t, s.role, EndpointOf(s, p.t), p.payload, p.nowUs, p.reply);
    WithEndpoint(s, p.t, e).(led := if fx.led.Some? then fx.led.value else s.led,
                             h := if fx.rtt.Some? then s.h.(accepted := s.h.accepted + 1) else s.h)
  }

  function ReceiveAll(s: State, packets: seq<Packet>): State {
    if packets == [] then s
    else ReceivePacket(ReceiveAll(s, packets[..|packets| - 1]), packets[|packets| - 1])
  }

  function PollButton(s: State, at: nat, raw: bool): State {
    At(s, at).(btn := Button.Polled(s.btn, at, raw))
  }

  /** Short press: toggle the throughput test, on the server only. */
  function TogglePerf(s: State, at: nat, statsAt: uint32, x: PerfClient.Transfer): State {
    var (btn, pressed) := Button.AskedPress(s.btn, at);
    var s' := At(s, at).(btn := btn);
    if !pressed || s.role != Server then s'
    else if s.iperfRunning then
      Paused(s', false).(perf := PerfClient.Stopped(s.perf), iperfRunning := false)
    else
      Paused(s', true).(perf := PerfClient.Started(s.perf, at % U32, statsAt, x), iperfRunning := true,
                        h := s'.h.(startAt := at))
  }

  function ResetMachine(s: State, at: nat): State {
    match s.resetState
    case ResetIdle =>
      var (btn, long) := Button.AskedLong(s.btn, at, LONG_PRESS_RESET_MS);
      var s' := At(s, at).(btn := btn);
      if long then
        Paused(s', true).(resetState := WaitingRelease, led := true, ledState := 1,
                          h := s'.h.(heldFrom := s.btn.pressAt, armedAt := at))
      else s'
    case WaitingRelease =>
      if !s.btn.b.debounced then
        At(s, at).(resetState := Countdown, releaseTime := at % U32, h := s.h.(now := at, releaseAt := at))
      else At(s, at)
    case Countdown =>
      At(s, at).(h := s.h.(now := at, rebooted := Sub32(at % U32, s.releaseTime) >= RESET_DELAY_MS))
  }

  function OtherMode(t: Transport): Transport {
    match t case Udp => RawEth case RawEth => Udp
  }

  /** `led_state ^= 1` */
  function Flipped(b: byte): byte {
    if b % 2 == 0 then b + 1 else b - 1
  }

  /** Toggle the LED and send its new state in the current mode. */
  function SendHeartbeat(s: State, nowUs: nat, sent: bool): State {
    var led := Flipped(s.ledState);
    var e := Send(s.hbMode, s.role, EndpointOf(s, s.hbMode), nowUs, sent);
    WithEndpoint(s, s.hbMode, e).(ledState := led, led := led != 0, hbCount := s.hbCount + 1,
                                  h := s.h.(sent := s.h.sent + [(s.hbMode, led)]))
  }

  /** After the tenth heartbeat both timestamps are dropped and the mode changes. */
  function SwitchMode(s: State): State {
    if s.hbCount >= HB_EXCHANGES_PER_MODE then
      s.(hbCount := 0, hbMode := OtherMode(s.hbMode), udp := s.udp.(stamp := 0), eth := s.eth.(stamp := 0),
         h := s.h.(accepted := 0, blocks := s.h.blocks + [s.h.accepted]))
    else s
  }

  function Blink(s: State, at: nat, nowUs: nat, sent: bool, restart: nat): State {
    if s.role == Server && s.resetState == ResetIdle && !s.iperfRunning then
      if Sub32(at % U32, s.toggleStart) >= BLINK_MS then
        var s' := SwitchMode(SendHeartbeat(s, nowUs, sent));
        s'.(toggleStart := restart % U32,
            h := s'.h.(now := restart, times := s.h.times + [at], toggledAt := restart))
      else At(s, at)
    else s
  }

  /** T1S_execute: the throughput sender, then whatever the network has received. */
  function Network(s: State, i: Input): State {
    ReceiveAll(ServicePerf(s, i.service, i.transfer), i.packets)
  }

  /** The button and what a short press does. */
  function ButtonPart(s: State, i: Input): State {
    TogglePerf(PollButton(s, i.poll, i.raw), i.action, i.statsAt, i.firstTransfer)
  }

  function Front(s: State, i: Input): State {
    ButtonPart(Network(s, i), i)
  }

  /** The reset sequence and the server's heartbeat. */
  function Tail(s: State, i: Input): State {
    Blink(ResetMachine(s, i.reset), i.blink, i.blinkUs, i.sent, i.restart)
  }

  /** One pass of the endless loop. */
  function Pass(s: State, i: Input): State {
    Tail(Front(s, i), i)
  }

  /** How a board comes up; either transport may fail to. */
  datatype Setup = Setup(role: Role, udpReady: bool, ethReady: bool, start: nat)

  /** The board as it enters the endless loop. */
  function Boot(u: Setup): State {
    State(u.role, Button.START, PerfClient.OFF, false, ResetIdle, 0, 0, false, Udp, 0, u.start % U32,
          Endpoint(u.udpReady, false, 0, 0, 0, 0, 0), Endpoint(u.ethReady, false, 0, 0, 0, 0, 0),
          History(u.start, u.start, 0, 0, 0, 0, [], [], u.start, 0, [], false))
  }

  // ---------------------------------------------------------------------
  // The loop itself, over the modules it drives
  // ---------------------------------------------------------------------

  class MainLoop {
    const role: Role
    const button: Button.PushButton
    const sender: PerfClient.Sender
    const udp: HeartbeatModule
    const eth: HeartbeatModule
    var iperfRunning: bool
    var resetState: ResetState
    var releaseTime: uint32
    var ledState: byte
    var led: bool
    var hbMode: Transport
    var hbCount: nat
    var toggleStart: uint32
    ghost var trace: Button.Traced
    ghost var h: History

    ghost predicate Wired()
      reads this
    {
      udp != eth && udp.transport == Udp && eth.transport == RawEth && udp.role == role == eth.role
    }

    ghost function View(): State
      reads this, button, sender, udp, eth
    {
      State(role, trace.(b := button.View()), sender.View(), iperfRunning, resetState, releaseTime, ledState, led,
            hbMode, hbCount, toggleStart, udp.View(), eth.View(), h)
    }

    constructor (role: Role, udpReady: bool, ethReady: bool, startMs: uint32, ghost start: nat)
      requires startMs == start % U32
      ensures Wired() && fresh({button, sender, udp, eth})
      ensures View() == Boot(Setup(role, udpReady, ethReady, start))
    {
      this.role := role;
      button := new Button.PushButton();
      sender := new PerfClient.Sender();
      udp := new HeartbeatModule(Udp, role, udpReady);
      eth := new HeartbeatModule(RawEth, role, ethReady);
      iperfRunning, resetState, releaseTime := false, ResetIdle, 0;
      ledState, led, hbMode, hbCount, toggleStart := 0, false, Udp, 0, startMs;
      trace, h := Button.START, Boot(Setup(role, udpReady, ethReady, start)).h;
    }

    method Service(at: nat, x: PerfClient.Transfer)
      modifies sender, this`h
      ensures View() == ServicePerf(old(View()), at, x)
    {
      sender.Service(at % U32, x);
      h := h.(now := at, servicedAt := at);
    }

    method Receive(packets: seq<Packet>)
      requires Wired()
      modifies udp, eth, this`led, this`h
      ensures View() == ReceiveAll(old(View()), packets)
    {
      ghost var s := View();
      for k := 0 to |packets|
        invariant View() == ReceiveAll(s, packets[..k])
      {
        assert packets[..k + 1][..k] == packets[..k];
        ReceiveOne(packets[k]);
      }
      assert packets[..|packets|] == packets;
    }

    method ReceiveOne(p: Packet)
      requires Wired()
      modifies udp, eth, this`led, this`h
      ensures View() == ReceivePacket(old(View()), p)
    {
      var fx: Effects;
      if p.t == Udp {
        fx := udp.OnReceive(p.payload, p.nowUs, p.reply);
      } else {
        fx := eth.OnReceive(p.payload, p.nowUs, p.reply);
      }
      if fx.led.Some? {
        led := fx.led.value;
      }
      if fx.rtt.Some? {
        h := h.(accepted := h.accepted + 1);
      }
    }

    method Poll(at: nat, raw: bool)
      modifies button, this`trace, this`h
      ensures View() == PollButton(old(View()), at, raw)
    {
      ghost var btn := Button.Polled(View().btn, at, raw);
      button.Task(at % U32, raw);
      trace := btn;
      h := h.(now := at);
    }

    method SetPaused(paused: bool)
      requires Wired()
      modifies udp, eth
      ensures View() == Paused(old(View()), paused)
    {
      udp.SetPaused(paused);
      eth.SetPaused(paused);
    }

    method AskShortPress(at: nat) returns (pressed: bool)
      modifies button, this`trace, this`h
      ensures var (btn, short) := Button.AskedPress(old(View()).btn, at);
        pressed == short && View() == At(old(View()), at).(btn := btn)
    {
      ghost var btn := Button.AskedPress(View().btn, at).0;
      pressed := button.WasPressed();
      trace := btn;
      h := h.(now := at);
    }

    method StopTest()
      requires Wired()
      modifies sender, udp, eth, this`iperfRunning
      ensures View() == Paused(old(View()), false).(perf := PerfClient.Stopped(old(View()).perf), iperfRunning := false)
    {
      sender.StopApplication();
      SetPaused(false);
      iperfRunning := false;
    }

    method StartTest(at: nat, statsAt: uint32, x: PerfClient.Transfer)
      requires Wired()
      modifies sender, udp, eth, this`iperfRunning, this`h
      ensures View() == Paused(old(View()), true).(perf := PerfClient.Started(old(View()).perf, at % U32, statsAt, x),
                                                   iperfRunning := true, h := old(h).(startAt := at))
    {
      SetPaused(true);
      sender.StartApplication(at % U32, statsAt, x);
      iperfRunning := true;
      h := h.(startAt := at);
    }

    method ShortPress(at: nat, statsAt: uint32, x: PerfClient.Transfer)
      requires Wired()
      modifies this, button, sender, udp, eth
      ensures View() == TogglePerf(old(View()), at, statsAt, x)
    {
      var pressed := AskShortPress(at);
      if pressed && role == Server {
        if iperfRunning {
          StopTest();
        } else {
          StartTest(at, statsAt, x);
        }
      }
    }

    method AskLongPress(at: nat) returns (long: bool)
      modifies button, this`trace, this`h
      ensures var (btn, pressed) := Button.AskedLong(old(View()).btn, at, LONG_PRESS_RESET_MS);
        long == pressed && View() == At(old(View()), at).(btn := btn)
    {
      ghost var btn := Button.AskedLong(View().btn, at, LONG_PRESS_RESET_MS).0;
      long := button.IsLongPress(at % U32, LONG_PRESS_RESET_MS);
      trace := btn;
      h := h.(now := at);
    }

    method AdvanceReset(at: nat)
      requires Wired()
      modifies this, button, udp, eth
      ensures View() == ResetMachine(old(View()), at)
    {
      match resetState {
        case ResetIdle =>
          ghost var heldFrom := trace.pressAt;
          var long := AskLongPress(at);
          if long {
            Arm(at, heldFrom);
          }
        case WaitingRelease => AwaitRelease(at);
        case Countdown =>
          h := h.(now := at, rebooted := Sub32(at % U32, releaseTime) >= RESET_DELAY_MS);
      }
    }

    method Arm(at: nat, ghost heldFrom: nat)
      requires Wired()
      modifies udp, eth, this`resetState, this`led, this`ledState, this`h
      ensures View() == Paused(old(View()), true).(resetState := WaitingRelease, led := true, ledState := 1,
                                                   h := old(h).(heldFrom := heldFrom, armedAt := at))
    {
      SetPaused(true);
      resetState, led, ledState := WaitingRelease, true, 1;
      h := h.(heldFrom := heldFrom, armedAt := at);
    }

    method AwaitRelease(at: nat)
      requires resetState == WaitingRelease
      modifies this`resetState, this`releaseTime, this`h
      ensures View() == ResetMachine(old(View()), at)
    {
      h := h.(now := at);
      if !button.debounced {
        resetState := Countdown;
        releaseTime := at % U32;
        h := h.(releaseAt := at);
      }
    }

    method ToggleAndSend(nowUs: nat, sent: bool)
      requires Wired()
      modifies this, udp, eth
      ensures View() == SendHeartbeat(old(View()), nowUs, sent)
    {
      ledState := Flipped(ledState);
      led := ledState != 0;
      if hbMode == Udp {
        var _ := udp.SendHeartbeat(ledState, nowUs, sent);
      } else {
        var _ := eth.SendHeartbeat(ledState, nowUs, sent);
      }
      hbCount := hbCount + 1;
      h := h.(sent := h.sent + [(hbMode, ledState)]);
    }

    method CountExchange()
      requires Wired()
      modifies this, udp, eth
      ensures View() == SwitchMode(old(View()))
    {
      if hbCount >= HB_EXCHANGES_PER_MODE {
        hbCount := 0;
        udp.ResetRtt();
        eth.ResetRtt();
        if hbMode == Udp {
          hbMode := RawEth;
        } else {
          hbMode := Udp;
        }
        h := h.(blocks := h.blocks + [h.accepted], accepted := 0);
      }
    }

    method BlinkAndSend(at: nat, nowUs: nat, sent: bool, restart: nat)
      requires Wired()
      modifies this, udp, eth
      ensures View() == Blink(old(View()), at, nowUs, sent, restart)
    {
      if role == Server && resetState == ResetIdle && !iperfRunning {
        if Sub32(at % U32, toggleStart) >= BLINK_MS {
          ToggleAndSend(nowUs, sent);
          CountExchange();
          toggleStart := restart % U32;
          h := h.(now := restart, times := h.times + [at], toggledAt := restart);
        } else {
          h := h.(now := at);
        }
      }
    }

    method LoopBody(i: Input)
      requires Wired()
      modifies this, button, sender, udp, eth
      ensures View() == Pass(old(View()), i)
    {
      Service(i.service, i.transfer);
      Receive(i.packets);
      Poll(i.poll, i.raw);
      ShortPress(i.action, i.statsAt, i.firstTransfer);
      AdvanceReset(i.reset);
      BlinkAndSend(i.blink, i.blinkUs, i.sent, i.restart);
    }
  }
}
