/**
 * What holds over every run of the main loop, for any button movements, network
 * traffic, send failures and clock readings.
 */
module BoardRuns {
  import opened Words
  import opened Heartbeat
  import opened Board
  import Button
  import PerfClient

  /** No pass of the main loop takes longer than this many milliseconds (24 days). */
  const LONGEST_PASS: int := 0x8000_0000

  /** Clock readings within a pass, and from pass to pass, do not decrease. */
  predicate Timely(s: State, i: Input) {
    && s.h.now <= i.service <= i.poll <= i.action <= i.reset <= i.blink <= i.restart
    && i.restart - s.h.servicedAt < LONGEST_PASS
  }

  /** Any number of passes; the last one may have executed the reset. */
  predicate Run(u: Setup, inputs: seq<Input>) {
    inputs == [] ||
    (var k := |inputs| - 1;
     var s := After(u, inputs[..k]);
     Run(u, inputs[..k]) && !s.h.rebooted && Timely(s, inputs[k]))
  }

  function After(u: Setup, inputs: seq<Input>): State {
    if inputs == [] then Boot(u) else var k := |inputs| - 1; Pass(After(u, inputs[..k]), inputs[k])
  }

  // ---------------------------------------------------------------------
  // Packets touch only the endpoints, the LED and the ACK count
  // ---------------------------------------------------------------------

  lemma {:induction false} ReceiveAllKeeps(s: State, packets: seq<Packet>)
    ensures var s' := ReceiveAll(s, packets);
      && s' == s.(led := s'.led, udp := s'.udp, eth := s'.eth, h := s.h.(accepted := s'.h.accepted))
      && s'.udp.paused == s.udp.paused && s'.eth.paused == s.eth.paused
      && s'.udp.ready == s.udp.ready && s'.eth.ready == s.eth.ready
    decreases |packets|
  {
    if packets != [] {
      ReceiveAllKeeps(s, packets[..|packets| - 1]);
    }
  }

  // ---------------------------------------------------------------------
  // The throughput sender
  // ---------------------------------------------------------------------

  ghost predicate TimeInv(s: State) {
    Button.Inv(s.btn) && s.btn.t <= s.h.now && s.h.servicedAt <= s.h.now && s.h.startAt <= s.h.now
  }

  /** The test is on and no service has come more than 10 ms after its start. */
  predicate Pending(s: State) {
    s.iperfRunning && s.h.servicedAt <= s.h.startAt + PerfClient.START_DELAY
  }

  /**
   * Until such a service the start waits, and the button cannot have been pressed and
   * released again.
   */
  ghost predicate PerfInv(s: State) {
    && (s.perf.running ==> s.iperfRunning)
    && (s.perf.startDelay != 0 ==> Pending(s))
    && (Pending(s) ==>
          && !s.perf.running && s.perf.startDelay == s.h.startAt % U32
          && (if s.btn.b.debounced then s.h.now > s.h.startAt + Button.DEBOUNCE_MS
              else s.btn.b.lastState ==> s.h.startAt <= s.btn.flipAt))
  }

  lemma ServiceKeepsPerf(s: State, at: nat, x: PerfClient.Transfer)
    requires TimeInv(s) && PerfInv(s) && s.h.now <= at && at - s.h.servicedAt < LONGEST_PASS
    ensures var s' := ServicePerf(s, at, x);
      TimeInv(s') && PerfInv(s') && s'.h.servicedAt == s'.h.now
  {
    ElapsedWord(s.h.startAt, at);
    PerfClient.TransferKeeps(PerfClient.DelayDone(s.perf, at % U32), x);
  }

  lemma PollKeepsPerf(s: State, at: nat, raw: bool)
    requires TimeInv(s) && PerfInv(s) && s.h.servicedAt == s.h.now <= at && !s.btn.b.wasPressed
    ensures var s' := PollButton(s, at, raw);
      && TimeInv(s') && PerfInv(s')
      && (s'.btn.b.wasPressed ==> !Pending(s') && !s'.btn.b.debounced && !s'.btn.b.lastState)
  {
    Button.PollKeepsInv(s.btn, at, raw);
    var s' := PollButton(s, at, raw);
    ElapsedWord(s'.btn.flipAt, at);
  }

  lemma ToggleKeepsPerf(s: State, at: nat, statsAt: uint32, x: PerfClient.Transfer)
    requires TimeInv(s) && PerfInv(s) && s.h.now <= at
    requires s.btn.b.wasPressed ==> !Pending(s) && !s.btn.b.debounced && !s.btn.b.lastState
    ensures var s' := TogglePerf(s, at, statsAt, x);
      TimeInv(s') && PerfInv(s') && !s'.btn.b.wasPressed
  {
    Button.AskKeepsInv(s.btn, at, 0);
    PerfClient.TransferKeeps(PerfClient.Begun(s.perf, at % U32, statsAt), x);
  }

  lemma ResetKeepsPerf(s: State, at: nat)
    requires TimeInv(s) && PerfInv(s) && s.h.now <= at && !s.btn.b.wasPressed
    ensures var s' := ResetMachine(s, at);
      TimeInv(s') && PerfInv(s') && !s'.btn.b.wasPressed
  {
    if s.resetState == ResetIdle {
      Button.AskKeepsInv(s.btn, at, LONG_PRESS_RESET_MS);
      var btn := Button.AskedLong(s.btn, at, LONG_PRESS_RESET_MS).0;
      assert btn.b == s.btn.b.(longDetected := btn.b.longDetected);
      assert btn.flipAt == s.btn.flipAt && btn.t == at;
    }
  }

  ghost predicate QuietPerf(s: State) {
    TimeInv(s) && PerfInv(s) && !s.btn.b.wasPressed
  }

  /** A later reading of the clock does no harm, nor does anything done to other fields. */
  lemma PerfOnlyDependsOn(s: State, s': State)
    requires QuietPerf(s)
    requires s'.btn == s.btn && s'.perf == s.perf && s'.iperfRunning == s.iperfRunning
    requires s'.h.servicedAt == s.h.servicedAt && s'.h.startAt == s.h.startAt && s.h.now <= s'.h.now
    ensures QuietPerf(s')
  {
  }

  lemma NetworkKeepsPerf(s: State, i: Input)
    requires QuietPerf(s) && s.h.now <= i.service && i.service - s.h.servicedAt < LONGEST_PASS
    ensures var s' := Network(s, i);
      QuietPerf(s') && s'.h.servicedAt == s'.h.now == i.service
  {
    var a := ServicePerf(s, i.service, i.transfer);
    ServiceKeepsPerf(s, i.service, i.transfer);
    ReceiveAllKeeps(a, i.packets);
    PerfOnlyDependsOn(a, ReceiveAll(a, i.packets));
  }

  lemma ButtonKeepsPerf(s: State, i: Input)
    requires QuietPerf(s) && s.h.servicedAt == s.h.now <= i.poll <= i.action
    ensures var s' := ButtonPart(s, i);
      QuietPerf(s') && s'.h.now == i.action
  {
    PollKeepsPerf(s, i.poll, i.raw);
    ToggleKeepsPerf(PollButton(s, i.poll, i.raw), i.action, i.statsAt, i.firstTransfer);
  }

  lemma FrontKeepsPerf(s: State, i: Input)
    requires QuietPerf(s) && Timely(s, i)
    ensures QuietPerf(Front(s, i)) && Front(s, i).h.now == i.action
  {
    NetworkKeepsPerf(s, i);
    ButtonKeepsPerf(Network(s, i), i);
  }

  lemma TailKeepsPerf(s: State, i: Input)
    requires QuietPerf(s) && s.h.now <= i.reset <= i.blink <= i.restart
    ensures QuietPerf(Tail(s, i))
  {
    var e := ResetMachine(s, i.reset);
    ResetKeepsPerf(s, i.reset);
    BlinkChangesNoPerf(e, i.blink, i.blinkUs, i.sent, i.restart);
    PerfOnlyDependsOn(e, Blink(e, i.blink, i.blinkUs, i.sent, i.restart));
  }

  lemma BlinkChangesNoPerf(s: State, at: nat, nowUs: nat, sent: bool, restart: nat)
    requires s.h.now <= at <= restart
    ensures var s' := Blink(s, at, nowUs, sent, restart);
      && s'.btn == s.btn && s'.perf == s.perf && s'.iperfRunning == s.iperfRunning
      && s'.h.servicedAt == s.h.servicedAt && s'.h.startAt == s.h.startAt && s.h.now <= s'.h.now
  {
  }

  // ---------------------------------------------------------------------
  // The reset sequence
  // ---------------------------------------------------------------------

  ghost predicate ResetInv(s: State) {
    && (s.role == Client && s.resetState != ResetIdle ==> s.udp.paused && s.eth.paused)
    && (s.resetState != ResetIdle ==>
          s.led && s.h.heldFrom + LONG_PRESS_RESET_MS <= s.h.armedAt <= s.h.now)
    && (s.resetState == Countdown ==>
          s.releaseTime == s.h.releaseAt % U32 && s.h.armedAt <= s.h.releaseAt <= s.h.now)
    && (s.h.rebooted ==> s.resetState == Countdown && s.h.releaseAt + RESET_DELAY_MS <= s.h.now)
  }

  /** How far the sequence has got. */
  function Rank(r: ResetState): nat {
    match r case ResetIdle => 0 case WaitingRelease => 1 case Countdown => 2
  }

  lemma {:induction false} ReceiveKeepsReset(s: State, packets: seq<Packet>)
    requires ResetInv(s)
    ensures ResetInv(ReceiveAll(s, packets))
    decreases |packets|
  {
    if packets != [] {
      var k := |packets| - 1;
      ReceiveKeepsReset(s, packets[..k]);
      ReceiveAllKeeps(s, packets[..k]);
      PacketKeepsReset(ReceiveAll(s, packets[..k]), packets[k]);
    }
  }

  lemma PacketKeepsReset(s: State, p: Packet)
    requires ResetInv(s)
    ensures ResetInv(ReceivePacket(s, p))
  {
  }

  lemma NetworkKeepsReset(s: State, i: Input)
    requires ResetInv(s) && s.h.now <= i.service
    ensures var s' := Network(s, i);
      && ResetInv(s') && s'.resetState == s.resetState && s'.h.rebooted == s.h.rebooted
      && s'.h.now == i.service
  {
    var a := ServicePerf(s, i.service, i.transfer);
    assert ResetInv(a);
    ReceiveKeepsReset(a, i.packets);
    ReceiveAllKeeps(a, i.packets);
  }

  lemma ButtonKeepsReset(s: State, i: Input)
    requires ResetInv(s) && s.h.now <= i.poll <= i.action
    ensures var s' := ButtonPart(s, i);
      ResetInv(s') && s'.resetState == s.resetState && s'.h.rebooted == s.h.rebooted
  {
    assert ResetInv(PollButton(s, i.poll, i.raw));
  }

  lemma MachineKeepsReset(s: State, at: nat)
    requires ResetInv(s) && Button.Inv(s.btn) && s.btn.t <= s.h.now <= at && !s.h.rebooted
    ensures var s' := ResetMachine(s, at);
      && ResetInv(s') && Rank(s.resetState) <= Rank(s'.resetState) && s'.h.now == at
      && (s'.resetState != s.resetState && s.resetState == ResetIdle ==>
            s.btn.b.debounced && s'.h.heldFrom == s.btn.pressAt)
  {
    ElapsedWord(s.btn.pressAt, at);
    if s.resetState == Countdown {
      ElapsedWord(s.h.releaseAt, at);
    }
  }

  lemma TailKeepsReset(s: State, i: Input)
    requires ResetInv(s) && Button.Inv(s.btn) && s.btn.t <= s.h.now <= i.reset <= i.blink <= i.restart
    requires !s.h.rebooted
    ensures ResetInv(Tail(s, i)) && Rank(s.resetState) <= Rank(Tail(s, i).resetState)
  {
    MachineKeepsReset(s, i.reset);
  }

  lemma FrontKeepsReset(s: State, i: Input)
    requires ResetInv(s) && Timely(s, i)
    ensures var s' := Front(s, i);
      ResetInv(s') && s'.resetState == s.resetState && s'.h.rebooted == s.h.rebooted
  {
    NetworkKeepsReset(s, i);
    ButtonKeepsReset(Network(s, i), i);
  }

  // ---------------------------------------------------------------------
  // Alternating transports
  // ---------------------------------------------------------------------

  /** The n-th heartbeat, counted from 0: ten by UDP, ten raw, and so on, LED on first. */
  function NthHeartbeat(n: nat): (Transport, byte) {
    (if n / 10 % 2 == 0 then Udp else RawEth, (n + 1) % 2)
  }

  ghost predicate ModeInv(s: State) {
    s.hbCount < HB_EXCHANGES_PER_MODE && LogInv(s)
  }

  ghost predicate LogInv(s: State) {
    && |s.h.sent| == 10 * |s.h.blocks| + s.hbCount
    && s.hbMode == (if |s.h.blocks| % 2 == 0 then Udp else RawEth)
    && (s.resetState == ResetIdle ==> s.ledState == |s.h.sent| % 2)
    && (forall n :: 0 <= n < |s.h.sent| ==> s.h.sent[n] == NthHeartbeat(n))
    && AckInv(s)
    && (forall k :: 0 <= k < |s.h.blocks| ==> s.h.blocks[k] <= 9)
  }

  /** Only the active transport can be waiting for an ACK, and each send earns at most one. */
  ghost predicate AckInv(s: State) {
    && EndpointOf(s, OtherMode(s.hbMode)).stamp == 0
    && s.h.accepted + (if EndpointOf(s, s.hbMode).stamp != 0 then 1 else 0) <= s.hbCount
  }

  lemma PacketKeepsAcks(s: State, p: Packet)
    requires AckInv(s)
    ensures AckInv(ReceivePacket(s, p))
    ensures p.t != s.hbMode ==> ReceivePacket(s, p).h.accepted == s.h.accepted
  {
  }

  lemma {:induction false} ReceiveKeepsAcks(s: State, packets: seq<Packet>)
    requires AckInv(s)
    ensures AckInv(ReceiveAll(s, packets))
    decreases |packets|
  {
    if packets != [] {
      var k := |packets| - 1;
      ReceiveKeepsAcks(s, packets[..k]);
      PacketKeepsAcks(ReceiveAll(s, packets[..k]), packets[k]);
    }
  }

  lemma NetworkKeepsMode(s: State, i: Input)
    requires ModeInv(s)
    ensures ModeInv(Network(s, i))
  {
    var a := ServicePerf(s, i.service, i.transfer);
    ReceiveKeepsAcks(a, i.packets);
    ReceiveAllKeeps(a, i.packets);
  }

  /** The same log, mode, counts and timestamps, and the LED state unless the reset is armed. */
  predicate SameMode(s: State, s': State) {
    && s'.hbCount == s.hbCount && s'.hbMode == s.hbMode
    && s'.h.sent == s.h.sent && s'.h.blocks == s.h.blocks && s'.h.accepted == s.h.accepted
    && s'.udp.stamp == s.udp.stamp && s'.eth.stamp == s.eth.stamp
    && (s'.resetState == ResetIdle ==> s.resetState == ResetIdle && s'.ledState == s.ledState)
  }

  lemma SameModeKeepsInv(s: State, s': State)
    requires ModeInv(s) && SameMode(s, s')
    ensures ModeInv(s')
  {
  }

  lemma ButtonKeepsMode(s: State, i: Input)
    requires ModeInv(s)
    ensures ModeInv(ButtonPart(s, i))
  {
    assert SameMode(s, PollButton(s, i.poll, i.raw));
    SameModeKeepsInv(s, ButtonPart(s, i));
  }

  lemma SendKeepsLog(s: State, nowUs: nat, sent: bool)
    requires ModeInv(s) && s.resetState == ResetIdle
    ensures var s' := SendHeartbeat(s, nowUs, sent);
      && s'.h.sent == s.h.sent + [NthHeartbeat(|s.h.sent|)]
      && s'.ledState == |s'.h.sent| % 2
      && s'.h.accepted == s.h.accepted <= 9
      && AckInv(s')
  {
    assert |s.h.sent| / 10 == |s.h.blocks|;
  }

  lemma SendKeepsMode(s: State, nowUs: nat, sent: bool)
    requires ModeInv(s) && s.resetState == ResetIdle
    ensures ModeInv(SwitchMode(SendHeartbeat(s, nowUs, sent)))
  {
    var s1 := SendHeartbeat(s, nowUs, sent);
    SendKeepsLog(s, nowUs, sent);
    assert s1.hbCount == s.hbCount + 1 && s1.h.blocks == s.h.blocks && s1.hbMode == s.hbMode;
    SwitchKeepsMode(s1);
  }

  /** The tenth heartbeat of a block closes it. */
  lemma SwitchKeepsMode(s: State)
    requires LogInv(s) && s.hbCount <= HB_EXCHANGES_PER_MODE && s.h.accepted <= 9
    ensures ModeInv(SwitchMode(s))
  {
  }

  lemma MachineKeepsMode(s: State, at: nat)
    requires ModeInv(s)
    ensures ModeInv(ResetMachine(s, at))
  {
    MachineSameMode(s, at);
    SameModeKeepsInv(s, ResetMachine(s, at));
  }

  lemma MachineSameMode(s: State, at: nat)
    ensures SameMode(s, ResetMachine(s, at))
  {
  }

  lemma BlinkKeepsMode(s: State, at: nat, nowUs: nat, sent: bool, restart: nat)
    requires ModeInv(s)
    ensures ModeInv(Blink(s, at, nowUs, sent, restart))
  {
    var s' := Blink(s, at, nowUs, sent, restart);
    if s'.h.sent == s.h.sent {
      SameModeKeepsInv(s, s');
    } else {
      SendKeepsMode(s, nowUs, sent);
      SameModeKeepsInv(SwitchMode(SendHeartbeat(s, nowUs, sent)), s');
    }
  }

  lemma FrontKeepsMode(s: State, i: Input)
    requires ModeInv(s)
    ensures ModeInv(Front(s, i))
  {
    NetworkKeepsMode(s, i);
    ButtonKeepsMode(Network(s, i), i);
  }

  lemma TailKeepsMode(s: State, i: Input)
    requires ModeInv(s)
    ensures ModeInv(Tail(s, i))
  {
    MachineKeepsMode(s, i.reset);
    BlinkKeepsMode(ResetMachine(s, i.reset), i.blink, i.blinkUs, i.sent, i.restart);
  }

  // ---------------------------------------------------------------------
  // Whole runs
  // ---------------------------------------------------------------------

  ghost predicate Inv(s: State) {
    QuietPerf(s) && ResetInv(s) && ModeInv(s)
  }

  lemma BootHasTime(u: Setup)
    ensures TimeInv(Boot(u))
  {
    FreshButtonHasTime(Boot(u));
  }

  lemma FreshButtonHasTime(s: State)
    requires s.btn == Button.START && s.h.servicedAt <= s.h.now && s.h.startAt <= s.h.now
    ensures TimeInv(s)
  {
    Button.StartIsSound();
  }

  lemma BootIsQuiet(u: Setup)
    ensures PerfInv(Boot(u))
  {
    assert !Pending(Boot(u)) && Boot(u).perf == PerfClient.OFF;
  }

  lemma BootIsUnarmed(u: Setup)
    ensures ResetInv(Boot(u))
    ensures ModeInv(Boot(u))
  {
  }

  lemma BootIsSound(u: Setup)
    ensures Inv(Boot(u))
  {
    BootHasTime(u);
    BootIsQuiet(u);
    BootIsUnarmed(u);
    assert !Boot(u).btn.b.wasPressed;
  }

  lemma FrontKeepsInv(s: State, i: Input)
    requires Inv(s) && Timely(s, i)
    ensures var s' := Front(s, i);
      Inv(s') && s'.h.now == i.action && s'.resetState == s.resetState && s'.h.rebooted == s.h.rebooted
  {
    FrontKeepsPerf(s, i);
    FrontKeepsReset(s, i);
    FrontKeepsMode(s, i);
  }

  lemma TailKeepsInv(s: State, i: Input)
    requires Inv(s) && s.h.now <= i.reset <= i.blink <= i.restart && !s.h.rebooted
    ensures Inv(Tail(s, i)) && Rank(s.resetState) <= Rank(Tail(s, i).resetState)
  {
    TailKeepsPerf(s, i);
    TailKeepsReset(s, i);
    TailKeepsMode(s, i);
  }

  lemma PassKeepsInv(s: State, i: Input)
    requires Inv(s) && Timely(s, i) && !s.h.rebooted
    ensures Inv(Pass(s, i)) && Rank(s.resetState) <= Rank(Pass(s, i).resetState)
  {
    FrontKeepsInv(s, i);
    TailKeepsInv(Front(s, i), i);
  }

  lemma {:induction false} RunKeepsInv(u: Setup, inputs: seq<Input>)
    requires Run(u, inputs)
    ensures Inv(After(u, inputs))
    decreases |inputs|
  {
    if inputs == [] {
      BootIsSound(u);
    } else {
      var k := |inputs| - 1;
      RunKeepsInv(u, inputs[..k]);
      PassKeepsInv(After(u, inputs[..k]), inputs[k]);
    }
  }

  /** Neither a running session nor a pending start while the main loop thinks the test is off. */
  ghost predicate SenderObeys(s: State) {
    s.perf.running || s.perf.startDelay != 0 ==> s.iperfRunning
  }

  /** The LED is on from arming to reset; the reset needs a 3 s hold, a release and one more second. */
  ghost predicate ResetByTheBook(s: State) {
    && (s.resetState != ResetIdle ==> s.led)
    && (s.h.rebooted ==>
          && s.h.heldFrom + 3000 <= s.h.armedAt <= s.h.releaseAt
          && s.h.releaseAt + 1000 <= s.h.now)
  }

  /** Ten by UDP, ten raw; only the active transport awaits an ACK; at most nine ACKs per block. */
  ghost predicate Alternates(s: State) {
    && (forall n :: 0 <= n < |s.h.sent| ==> s.h.sent[n] == NthHeartbeat(n))
    && EndpointOf(s, OtherMode(s.hbMode)).stamp == 0
    && |s.h.blocks| == |s.h.sent| / 10
    && (forall k :: 0 <= k < |s.h.blocks| ==> s.h.blocks[k] <= 9)
  }

  lemma InvMeans(s: State)
    requires Inv(s)
    ensures SenderObeys(s) && ResetByTheBook(s) && Alternates(s)
  {
  }

  /**
   * A stopped sender stays stopped, although stopping does not cancel a start delay:
   * two short presses are too far apart for one to be pending.
   */
  lemma {:induction false} StoppedSenderStaysStopped(u: Setup, inputs: seq<Input>)
    requires Run(u, inputs)
    ensures SenderObeys(After(u, inputs))
  {
    RunKeepsInv(u, inputs);
    InvMeans(After(u, inputs));
  }

  /** In both roles, under any traffic and any further presses. */
  lemma {:induction false} ResetTakesItsTime(u: Setup, inputs: seq<Input>)
    requires Run(u, inputs)
    ensures ResetByTheBook(After(u, inputs))
  {
    RunKeepsInv(u, inputs);
    InvMeans(After(u, inputs));
  }

  /** The sequence never goes back: an armed board stays armed until it resets. */
  lemma {:induction false} ArmedStaysArmed(u: Setup, inputs: seq<Input>, k: nat)
    requires Run(u, inputs) && k <= |inputs|
    ensures Rank(After(u, inputs[..k]).resetState) <= Rank(After(u, inputs).resetState)
    decreases |inputs|
  {
    if k == |inputs| {
      assert inputs[..k] == inputs;
    } else {
      var n := |inputs| - 1;
      assert inputs[..n][..k] == inputs[..k];
      ArmedStaysArmed(u, inputs[..n], k);
      RunKeepsInv(u, inputs[..n]);
      PassKeepsInv(After(u, inputs[..n]), inputs[n]);
    }
  }

  lemma {:induction false} ModesAlternate(u: Setup, inputs: seq<Input>)
    requires Run(u, inputs)
    ensures Alternates(After(u, inputs))
  {
    RunKeepsInv(u, inputs);
    InvMeans(After(u, inputs));
  }

  // ---------------------------------------------------------------------
  // And what is due does happen
  // ---------------------------------------------------------------------

  /** In this pass a short press starts the throughput test. */
  predicate Starts(s: State, i: Input) {
    var b := PollButton(Network(s, i), i.poll, i.raw);
    b.btn.b.wasPressed && b.role == Server && !b.iperfRunning
  }

  /** A test begun at `started`, with its statistics begun at `statsAt`, waits to be run. */
  predicate Waiting(s: State, started: nat, statsAt: uint32) {
    Pending(s) && s.h.startAt == started && s.perf.stats.startTime == statsAt
  }

  lemma TailKeepsStart(s: State, i: Input)
    requires s.h.now <= i.reset <= i.blink <= i.restart
    ensures var s' := Tail(s, i);
      && s'.perf == s.perf && s'.iperfRunning == s.iperfRunning
      && s'.h.servicedAt == s.h.servicedAt && s'.h.startAt == s.h.startAt
  {
    MachineChangesNoPerf(s, i.reset);
    BlinkChangesNoPerf(ResetMachine(s, i.reset), i.blink, i.blinkUs, i.sent, i.restart);
  }

  lemma MachineChangesNoPerf(s: State, at: nat)
    ensures var s' := ResetMachine(s, at);
      && s'.perf == s.perf && s'.iperfRunning == s.iperfRunning && s'.h.now == at
      && s'.h.servicedAt == s.h.servicedAt && s'.h.startAt == s.h.startAt
  {
  }

  lemma StartingPass(s: State, i: Input)
    requires Inv(s) && Timely(s, i) && Starts(s, i)
    ensures Waiting(Pass(s, i), i.action, i.statsAt)
  {
    NetworkKeepsPerf(s, i);
    FrontKeepsPerf(s, i);
    TailKeepsStart(Front(s, i), i);
    var p := PollButton(Network(s, i), i.poll, i.raw).perf;
    PerfClient.TransferKeeps(PerfClient.Begun(p, i.action % U32, i.statsAt), i.firstTransfer);
  }

  /** A service within 10 ms of the start changes nothing. */
  lemma EarlyService(s: State, i: Input, started: nat, statsAt: uint32)
    requires Inv(s) && Timely(s, i) && Waiting(s, started, statsAt)
    requires i.service <= started + PerfClient.START_DELAY
    ensures Waiting(Network(s, i), started, statsAt)
  {
    var a := ServicePerf(s, i.service, i.transfer);
    ElapsedWord(started, i.service);
    assert a.perf == s.perf;
    ReceiveAllKeeps(a, i.packets);
  }

  lemma WaitingPass(s: State, i: Input, started: nat, statsAt: uint32)
    requires Inv(s) && Timely(s, i) && Waiting(s, started, statsAt)
    requires i.service <= started + PerfClient.START_DELAY
    ensures Waiting(Pass(s, i), started, statsAt)
  {
    EarlyService(s, i, started, statsAt);
    NetworkKeepsPerf(s, i);
    PollKeepsPerf(Network(s, i), i.poll, i.raw);
    assert !PollButton(Network(s, i), i.poll, i.raw).btn.b.wasPressed;
    FrontKeepsPerf(s, i);
    TailKeepsStart(Front(s, i), i);
  }

  lemma {:induction false} RunPrefix(u: Setup, inputs: seq<Input>, k: nat)
    requires Run(u, inputs) && k <= |inputs|
    ensures Run(u, inputs[..k])
    decreases |inputs|
  {
    var n := |inputs| - 1;
    if k <= n {
      RunPrefix(u, inputs[..n], k);
      assert inputs[..n][..k] == inputs[..k];
    } else {
      assert inputs[..k] == inputs;
    }
  }

  /** Pass k of a run, with the state before it. */
  lemma {:induction false} PassAt(u: Setup, inputs: seq<Input>, k: nat) returns (s: State)
    requires Run(u, inputs) && k < |inputs|
    ensures Run(u, inputs[..k]) && s == After(u, inputs[..k]) && Timely(s, inputs[k])
    ensures After(u, inputs[..k + 1]) == Pass(s, inputs[k])
  {
    RunPrefix(u, inputs, k + 1);
    UptoSplits(inputs, k);
    s := After(u, inputs[..k]);
  }

  lemma UptoSplits(inputs: seq<Input>, k: nat)
    requires k < |inputs|
    ensures inputs[..k + 1][..k] == inputs[..k] && inputs[..k + 1][k] == inputs[k]
  {
  }

  lemma {:induction false} BeginsWaiting(u: Setup, inputs: seq<Input>, k: nat)
    requires Run(u, inputs) && k < |inputs| && Starts(After(u, inputs[..k]), inputs[k])
    ensures Waiting(After(u, inputs[..k + 1]), inputs[k].action, inputs[k].statsAt)
  {
    var s := PassAt(u, inputs, k);
    RunKeepsInv(u, inputs[..k]);
    StartingPass(s, inputs[k]);
  }

  lemma {:induction false} WaitsOn(u: Setup, inputs: seq<Input>, k: nat, started: nat, statsAt: uint32)
    requires Run(u, inputs) && k < |inputs| && Waiting(After(u, inputs[..k]), started, statsAt)
    requires inputs[k].service <= started + PerfClient.START_DELAY
    ensures Waiting(After(u, inputs[..k + 1]), started, statsAt)
  {
    var s := PassAt(u, inputs, k);
    RunKeepsInv(u, inputs[..k]);
    WaitingPass(s, inputs[k], started, statsAt);
  }

  lemma {:induction false} StaysWaiting(u: Setup, inputs: seq<Input>, k: nat, m: nat, started: nat, statsAt: uint32)
    requires Run(u, inputs) && k <= m <= |inputs| && Waiting(After(u, inputs[..k]), started, statsAt)
    requires forall j :: k <= j < m ==> inputs[j].service <= started + PerfClient.START_DELAY
    ensures Waiting(After(u, inputs[..m]), started, statsAt)
    decreases m - k
  {
    if k < m {
      WaitsOn(u, inputs, k, started, statsAt);
      StaysWaiting(u, inputs, k + 1, m, started, statsAt);
    }
  }

  lemma LateService(s: State, i: Input, started: nat, statsAt: uint32)
    requires Inv(s) && Timely(s, i) && Waiting(s, started, statsAt)
    requires i.service > started + PerfClient.START_DELAY
    requires !i.transfer.attempt.Failed? && Sub32(i.transfer.at, statsAt) < PerfClient.END_TIME
    ensures Network(s, i).perf.running <==> started % U32 != 0
  {
    ElapsedWord(started, i.service);
    PerfClient.TransferKeeps(PerfClient.DelayDone(s.perf, i.service % U32), i.transfer);
    ReceiveAllKeeps(ServicePerf(s, i.service, i.transfer), i.packets);
  }

  /**
   * In every run: a test started in pass k is run by the first service that comes more
   * than 10 ms later, in pass n, unless that transfer ends it, exactly if the start was
   * reported at a time other than 0; whatever happens in between cannot stop it.
   */
  lemma {:induction false} StartTakesEffect(u: Setup, inputs: seq<Input>, k: nat, n: nat)
    requires Run(u, inputs) && k < n < |inputs| && Starts(After(u, inputs[..k]), inputs[k])
    requires forall j :: k < j < n ==> inputs[j].service <= inputs[k].action + PerfClient.START_DELAY
    requires inputs[n].service > inputs[k].action + PerfClient.START_DELAY
    requires !inputs[n].transfer.attempt.Failed?
    requires Sub32(inputs[n].transfer.at, inputs[k].statsAt) < PerfClient.END_TIME
    ensures Network(After(u, inputs[..n]), inputs[n]).perf.running <==> inputs[k].action % U32 != 0
  {
    BeginsWaiting(u, inputs, k);
    StaysWaiting(u, inputs, k + 1, n, inputs[k].action, inputs[k].statsAt);
    var s := PassAt(u, inputs, n);
    RunKeepsInv(u, inputs[..n]);
    LateService(s, inputs[n], inputs[k].action, inputs[k].statsAt);
  }

  lemma MachineAdvances(s: State, at: nat)
    requires TimeInv(s) && ResetInv(s) && s.h.now <= at && !s.h.rebooted
    ensures s.resetState == ResetIdle && at - s.btn.pressAt < U32 ==>
      ResetMachine(s, at).resetState ==
        if s.btn.b.debounced && !s.btn.b.longDetected && at - s.btn.pressAt >= 3000 then WaitingRelease else ResetIdle
    ensures s.resetState == WaitingRelease ==>
      ResetMachine(s, at).resetState == if s.btn.b.debounced then WaitingRelease else Countdown
    ensures s.resetState == Countdown ==> ResetMachine(s, at).resetState == Countdown
    ensures s.resetState == Countdown && at - s.h.releaseAt < U32 ==>
      (ResetMachine(s, at).h.rebooted <==> at - s.h.releaseAt >= 1000)
    ensures s.resetState != Countdown ==> !ResetMachine(s, at).h.rebooted
  {
    ElapsedWord(s.btn.pressAt, at);
    if s.resetState == Countdown {
      ElapsedWord(s.h.releaseAt, at);
    }
  }

  /** A blink changes nothing of the reset sequence. */
  lemma BlinkKeepsStage(s: State, at: nat, nowUs: nat, sent: bool, restart: nat)
    ensures var s' := Blink(s, at, nowUs, sent, restart);
      s'.resetState == s.resetState && s'.h.rebooted == s.h.rebooted
  {
  }

  /** How the reset sequence moves in one pass, from what the button shows after its poll. */
  predicate MovesReset(s: State, s': State, at: nat) {
    && (s.resetState == ResetIdle && at - s.btn.pressAt < U32 ==>
          s'.resetState ==
            if s.btn.b.debounced && !s.btn.b.longDetected && at - s.btn.pressAt >= 3000 then WaitingRelease
            else ResetIdle)
    && (s.resetState == WaitingRelease ==>
          s'.resetState == if s.btn.b.debounced then WaitingRelease else Countdown)
    && (s.resetState == Countdown && at - s.h.releaseAt < U32 ==>
          s'.resetState == Countdown && (s'.h.rebooted <==> at - s.h.releaseAt >= 1000))
    && (s.resetState != Countdown ==> !s'.h.rebooted)
  }

  /**
   * In every run a pass arms the reset exactly if its button poll finds the button held
   * for three seconds, begins the countdown exactly if it finds it released, and resets
   * the board exactly if a second has passed since.
   */
  lemma {:induction false} ResetGoesThrough(u: Setup, inputs: seq<Input>, i: Input)
    requires Run(u, inputs + [i])
    ensures MovesReset(Front(After(u, inputs), i), After(u, inputs + [i]), i.reset)
  {
    assert (inputs + [i])[..|inputs|] == inputs;
    RunKeepsInv(u, inputs);
    FrontKeepsInv(After(u, inputs), i);
    var s := Front(After(u, inputs), i);
    MachineAdvances(s, i.reset);
    BlinkKeepsStage(ResetMachine(s, i.reset), i.blink, i.blinkUs, i.sent, i.restart);
  }
}
