/**
 * The board is made of its parts: in every run the button, the throughput sender and
 * the two heartbeat endpoints are exactly what their own modules make of the calls the
 * main loop is to make, so that everything proved about those modules holds of it.
 */
module BoardParts {
  import opened Words
  import opened Heartbeat
  import opened Board
  import opened BoardRuns
  import Button
  import PerfClient
  import Runs = HeartbeatRuns

  // ---------------------------------------------------------------------
  // What happens in one pass
  // ---------------------------------------------------------------------

  /** The state in which the short press is asked for. */
  function Asking(s: State, i: Input): State {
    PollButton(Network(s, i), i.poll, i.raw)
  }

  /** A short press is waiting then, and this is the server. */
  predicate Toggles(s: State, i: Input) {
    s.role == Server && Asking(s, i).btn.b.wasPressed
  }

  /** The long press that arms the reset is reported in this pass. */
  predicate Arms(s: State, i: Input) {
    s.resetState == ResetIdle && Button.AskedLong(Front(s, i).btn, i.reset, 3000).1
  }

  /** A heartbeat is due at the end of this pass. */
  predicate Beats(s: State, i: Input) {
    && s.role == Server && s.resetState == ResetIdle && !Arms(s, i)
    && s.iperfRunning == Toggles(s, i)
    && Sub32(i.blink % U32, s.toggleStart) >= 500
  }

  lemma NetworkKeeps(s: State, i: Input)
    ensures var n := Network(s, i);
      && n.role == s.role && n.btn == s.btn && n.iperfRunning == s.iperfRunning
      && n.resetState == s.resetState && n.ledState == s.ledState && n.hbMode == s.hbMode && n.hbCount == s.hbCount
      && n.toggleStart == s.toggleStart
      && n.h.sent == s.h.sent && n.h.times == s.h.times && n.h.toggledAt == s.h.toggledAt
      && n.perf == PerfClient.Serviced(s.perf, i.service % U32, i.transfer)
      && n.udp.paused == s.udp.paused && n.eth.paused == s.eth.paused
      && n.udp.ready == s.udp.ready && n.eth.ready == s.eth.ready
  {
    ReceiveAllKeeps(ServicePerf(s, i.service, i.transfer), i.packets);
  }

  /** What the button part leaves alone, and what a toggle does. */
  lemma FrontDoes(s: State, i: Input)
    ensures var f := Front(s, i);
      && f.role == s.role && f.resetState == s.resetState && f.ledState == s.ledState
      && f.hbMode == s.hbMode && f.hbCount == s.hbCount && f.toggleStart == s.toggleStart
      && f.h.sent == s.h.sent && f.h.times == s.h.times && f.h.toggledAt == s.h.toggledAt
      && f.led == Network(s, i).led && f.h.now == i.action
      && f.iperfRunning == (if Toggles(s, i) then !s.iperfRunning else s.iperfRunning)
      && f.btn == Button.AskedPress(Asking(s, i).btn, i.action).0
  {
    NetworkKeeps(s, i);
    ToggleDoes(Asking(s, i), i);
  }

  lemma ToggleDoes(b: State, i: Input)
    ensures var f := TogglePerf(b, i.action, i.statsAt, i.firstTransfer);
      && f.role == b.role && f.resetState == b.resetState && f.ledState == b.ledState
      && f.hbMode == b.hbMode && f.hbCount == b.hbCount && f.toggleStart == b.toggleStart
      && f.h.sent == b.h.sent && f.h.times == b.h.times && f.h.toggledAt == b.h.toggledAt
      && f.led == b.led && f.h.now == i.action
      && f.iperfRunning == (if b.role == Server && b.btn.b.wasPressed then !b.iperfRunning else b.iperfRunning)
      && f.btn == Button.AskedPress(b.btn, i.action).0
  {
  }

  lemma MachineDoes(f: State, at: nat)
    ensures var r := ResetMachine(f, at);
      var arms := f.resetState == ResetIdle && Button.AskedLong(f.btn, at, 3000).1;
      && r.role == f.role && r.iperfRunning == f.iperfRunning && r.perf == f.perf
      && r.hbMode == f.hbMode && r.hbCount == f.hbCount && r.toggleStart == f.toggleStart
      && r.h.sent == f.h.sent && r.h.times == f.h.times && r.h.toggledAt == f.h.toggledAt && r.h.now == at
      && (r.resetState == ResetIdle <==> f.resetState == ResetIdle && !arms)
      && r.led == (f.led || arms) && r.ledState == (if arms then 1 else f.ledState)
      && r.btn == (if f.resetState == ResetIdle then Button.AskedLong(f.btn, at, 3000).0 else f.btn)
  {
  }

  lemma BlinkDoes(r: State, i: Input)
    ensures var b := Blink(r, i.blink, i.blinkUs, i.sent, i.restart);
      var beats := r.role == Server && r.resetState == ResetIdle && !r.iperfRunning
                   && Sub32(i.blink % U32, r.toggleStart) >= 500;
      && b.role == r.role && b.iperfRunning == r.iperfRunning && b.perf == r.perf && b.btn == r.btn
      && b.resetState == r.resetState
      && (if beats then
            && b.h.sent == r.h.sent + [(r.hbMode, Flipped(r.ledState))] && b.h.times == r.h.times + [i.blink]
            && b.ledState == Flipped(r.ledState) && b.led == (b.ledState != 0)
            && b.h.toggledAt == i.restart && b.toggleStart == i.restart % U32 && b.h.now == i.restart
          else
            && b.h.sent == r.h.sent && b.h.times == r.h.times && b.ledState == r.ledState && b.led == r.led
            && b.h.toggledAt == r.h.toggledAt && b.toggleStart == r.toggleStart)
  {
  }

  /** Everything a pass does, apart from the endpoints and the sender. */
  lemma PassDoes(s: State, i: Input)
    ensures var f, p := Front(s, i), Pass(s, i);
      && p.role == s.role && p.iperfRunning == f.iperfRunning && p.perf == f.perf
      && (p.resetState == ResetIdle <==> s.resetState == ResetIdle && !Arms(s, i))
      && p.btn == (if s.resetState == ResetIdle then Button.AskedLong(f.btn, i.reset, 3000).0 else f.btn)
      && (if Beats(s, i) then
            && p.h.sent == s.h.sent + [(s.hbMode, Flipped(s.ledState))] && p.h.times == s.h.times + [i.blink]
            && p.ledState == Flipped(s.ledState) && p.led == (p.ledState != 0)
            && p.h.toggledAt == i.restart && p.toggleStart == i.restart % U32 && p.h.now == i.restart
          else
            && p.h.sent == s.h.sent && p.h.times == s.h.times
            && p.ledState == (if Arms(s, i) then 1 else s.ledState) && p.led == (f.led || Arms(s, i))
            && p.h.toggledAt == s.h.toggledAt && p.toggleStart == s.toggleStart)
  {
    FrontDoes(s, i);
    var r := ResetMachine(Front(s, i), i.reset);
    MachineDoes(Front(s, i), i.reset);
    BlinkDoes(r, i);
  }

  // ---------------------------------------------------------------------
  // The button
  // ---------------------------------------------------------------------

  /** One poll, one question for a short press, and one for a long press unless the reset is armed. */
  function ButtonEvents(s: State, i: Input): seq<Button.Event> {
    [Button.Event(i.poll, Button.Poll(i.raw)), Button.Event(i.action, Button.AskPress)]
    + (if s.resetState == ResetIdle then [Button.Event(i.reset, Button.AskLong(3000))] else [])
  }

  function AllButtonEvents(u: Setup, inputs: seq<Input>): seq<Button.Event> {
    if inputs == [] then []
    else
      var k := |inputs| - 1;
      AllButtonEvents(u, inputs[..k]) + ButtonEvents(After(u, inputs[..k]), inputs[k])
  }

  lemma {:induction false} ButtonPush(events: seq<Button.Event>, e: Button.Event)
    requires Button.Run(events) && Button.After(events).t <= e.at
    ensures Button.Run(events + [e]) && Button.After(events + [e]) == Button.Next(Button.After(events), e)
  {
    assert (events + [e])[..|events|] == events;
  }

  lemma {:induction false} ButtonPushes(events: seq<Button.Event>, poll: nat, raw: bool, action: nat,
                                        asks: bool, reset: nat)
    requires Button.Run(events) && Button.After(events).t <= poll <= action <= reset
    ensures var press := Button.AskedPress(Button.Polled(Button.After(events), poll, raw), action).0;
      var all := events + [Button.Event(poll, Button.Poll(raw)), Button.Event(action, Button.AskPress)]
                 + (if asks then [Button.Event(reset, Button.AskLong(3000))] else []);
      && Button.Run(all)
      && Button.After(all) == (if asks then Button.AskedLong(press, reset, 3000).0 else press)
  {
    var e1, e2 := Button.Event(poll, Button.Poll(raw)), Button.Event(action, Button.AskPress);
    ButtonPush(events, e1);
    ButtonPush(events + [e1], e2);
    assert events + [e1] + [e2] == events + [e1, e2];
    if asks { ButtonPush(events + [e1, e2], Button.Event(reset, Button.AskLong(3000))); }
    else { assert events + [e1, e2] + [] == events + [e1, e2]; }
  }

  lemma {:induction false} ButtonPass(s: State, i: Input, events: seq<Button.Event>)
    requires Button.Run(events) && s.btn == Button.After(events)
    requires s.btn.t <= i.poll <= i.action <= i.reset
    ensures Button.Run(events + ButtonEvents(s, i))
    ensures Pass(s, i).btn == Button.After(events + ButtonEvents(s, i))
  {
    NetworkKeeps(s, i);
    PassDoes(s, i);
    FrontDoes(s, i);
    var asks := s.resetState == ResetIdle;
    ButtonPushes(events, i.poll, i.raw, i.action, asks, i.reset);
    var two := [Button.Event(i.poll, Button.Poll(i.raw)), Button.Event(i.action, Button.AskPress)];
    var last := if asks then [Button.Event(i.reset, Button.AskLong(3000))] else [];
    assert events + ButtonEvents(s, i) == events + two + last;
  }

  /**
   * In every run the board's button is the button module's, asked in this way, so that
   * a press of the pin is what the board reacts to.
   */
  lemma {:induction false} BoardButton(u: Setup, inputs: seq<Input>)
    requires Run(u, inputs)
    ensures Button.Run(AllButtonEvents(u, inputs))
    ensures After(u, inputs).btn == Button.After(AllButtonEvents(u, inputs))
    decreases |inputs|
  {
    if inputs != [] {
      var k := |inputs| - 1;
      BoardButton(u, inputs[..k]);
      RunKeepsInv(u, inputs[..k]);
      ButtonPass(After(u, inputs[..k]), inputs[k], AllButtonEvents(u, inputs[..k]));
    }
  }

  // ---------------------------------------------------------------------
  // The throughput sender
  // ---------------------------------------------------------------------

  /** One service, and then a start or a stop if a short press asks for it. */
  function SenderCalls(s: State, i: Input): seq<PerfClient.Call> {
    [PerfClient.Service(i.service % U32, i.transfer)]
    + (if !Toggles(s, i) then []
       else if s.iperfRunning then [PerfClient.Stop]
       else [PerfClient.Start(i.action % U32, i.statsAt, i.firstTransfer)])
  }

  function AllSenderCalls(u: Setup, inputs: seq<Input>): seq<PerfClient.Call> {
    if inputs == [] then []
    else
      var k := |inputs| - 1;
      AllSenderCalls(u, inputs[..k]) + SenderCalls(After(u, inputs[..k]), inputs[k])
  }

  lemma {:induction false} SenderPush(calls: seq<PerfClient.Call>, c: PerfClient.Call)
    ensures PerfClient.After(PerfClient.NO_SESSION, calls + [c])
         == PerfClient.Next(PerfClient.After(PerfClient.NO_SESSION, calls), c)
  {
    assert (calls + [c])[..|calls|] == calls;
  }

  lemma TogglePerfDoes(b: State, i: Input)
    ensures TogglePerf(b, i.action, i.statsAt, i.firstTransfer).perf ==
      if b.role != Server || !b.btn.b.wasPressed then b.perf
      else if b.iperfRunning then PerfClient.Stopped(b.perf)
      else PerfClient.Started(b.perf, i.action % U32, i.statsAt, i.firstTransfer)
  {
  }

  lemma PassPerf(s: State, i: Input)
    ensures Pass(s, i).perf ==
      var p := PerfClient.Serviced(s.perf, i.service % U32, i.transfer);
      if !Toggles(s, i) then p
      else if s.iperfRunning then PerfClient.Stopped(p)
      else PerfClient.Started(p, i.action % U32, i.statsAt, i.firstTransfer)
  {
    NetworkKeeps(s, i);
    TogglePerfDoes(Asking(s, i), i);
    PassDoes(s, i);
  }

  lemma NextPerf(x: PerfClient.Session, c: PerfClient.Call)
    ensures PerfClient.Next(x, c).p == match c
      case Service(now, t) => PerfClient.Serviced(x.p, now, t)
      case Stop => PerfClient.Stopped(x.p)
      case Start(now, statsAt, t) => PerfClient.Started(x.p, now, statsAt, t)
  {
  }

  lemma {:induction false} SenderPass(s: State, i: Input, calls: seq<PerfClient.Call>)
    requires s.perf == PerfClient.After(PerfClient.NO_SESSION, calls).p
    ensures Pass(s, i).perf == PerfClient.After(PerfClient.NO_SESSION, calls + SenderCalls(s, i)).p
  {
    var first := PerfClient.Service(i.service % U32, i.transfer);
    PassPerf(s, i);
    SenderPush(calls, first);
    NextPerf(PerfClient.After(PerfClient.NO_SESSION, calls), first);
    if !Toggles(s, i) {
      assert calls + SenderCalls(s, i) == calls + [first];
    } else {
      var second := SenderCalls(s, i)[1];
      assert calls + SenderCalls(s, i) == calls + [first] + [second];
      SenderPush(calls + [first], second);
      NextPerf(PerfClient.After(PerfClient.NO_SESSION, calls + [first]), second);
    }
  }

  /** In every run the board's sender is the sender module's, called in this way. */
  lemma {:induction false} BoardSender(u: Setup, inputs: seq<Input>)
    ensures After(u, inputs).perf == PerfClient.After(PerfClient.NO_SESSION, AllSenderCalls(u, inputs)).p
    decreases |inputs|
  {
    if inputs != [] {
      var k := |inputs| - 1;
      BoardSender(u, inputs[..k]);
      SenderPass(After(u, inputs[..k]), inputs[k], AllSenderCalls(u, inputs[..k]));
    }
  }

  // ---------------------------------------------------------------------
  // The heartbeat endpoints
  // ---------------------------------------------------------------------

  /** The packets of one transport. */
  function GotCalls(packets: seq<Packet>, t: Transport): seq<Runs.Call> {
    if packets == [] then []
    else
      var k := |packets| - 1;
      var p := packets[k];
      GotCalls(packets[..k], t) + (if p.t == t then [Runs.Got(p.payload, p.nowUs, p.reply)] else [])
  }

  /** A toggle pauses or resumes, arming pauses. */
  function Pauses(toggles: bool, on: bool, arms: bool): seq<Runs.Call> {
    (if toggles then [Runs.Pause(!on)] else []) + (if arms then [Runs.Pause(true)] else [])
  }

  function PauseCalls(s: State, i: Input): seq<Runs.Call> {
    Pauses(Toggles(s, i), s.iperfRunning, Arms(s, i))
  }

  /** A heartbeat, if this is the current mode; the tenth drops the timestamp. */
  function BeatAndReset(beats: bool, beat: Runs.Call, mine: bool, tenth: bool): seq<Runs.Call> {
    if !beats then [] else (if mine then [beat] else []) + (if tenth then [Runs.Reset] else [])
  }

  function BeatCalls(s: State, i: Input, t: Transport): seq<Runs.Call> {
    BeatAndReset(Beats(s, i), Runs.Beat(Flipped(s.ledState), i.blinkUs, i.sent), s.hbMode == t, s.hbCount == 9)
  }

  function EndpointCalls(s: State, i: Input, t: Transport): seq<Runs.Call> {
    GotCalls(i.packets, t) + PauseCalls(s, i) + BeatCalls(s, i, t)
  }

  function AllEndpointCalls(u: Setup, inputs: seq<Input>, t: Transport): seq<Runs.Call> {
    if inputs == [] then []
    else
      var k := |inputs| - 1;
      AllEndpointCalls(u, inputs[..k], t) + EndpointCalls(After(u, inputs[..k]), inputs[k], t)
  }

  lemma {:induction false} ReceiveIsGot(s: State, packets: seq<Packet>, t: Transport)
    ensures EndpointOf(ReceiveAll(s, packets), t)
         == Runs.AppliedAll(t, s.role, EndpointOf(s, t), GotCalls(packets, t))
    decreases |packets|
  {
    if packets != [] {
      var k := |packets| - 1;
      ReceiveIsGot(s, packets[..k], t);
      ReceiveAllKeeps(s, packets[..k]);
      AppendedCall(t, s.role, EndpointOf(s, t), GotCalls(packets[..k], t),
                   Runs.Got(packets[k].payload, packets[k].nowUs, packets[k].reply));
    }
  }

  lemma AppendedCall(t: Transport, role: Role, e: Endpoint, calls: seq<Runs.Call>, c: Runs.Call)
    ensures Runs.AppliedAll(t, role, e, calls + [c]) == Runs.Applied(t, role, Runs.AppliedAll(t, role, e, calls), c)
    ensures calls + [] == calls
  {
    assert (calls + [c])[..|calls|] == calls;
  }

  lemma OneCall(t: Transport, role: Role, e: Endpoint, c: Runs.Call)
    ensures Runs.AppliedAll(t, role, e, [c]) == Runs.Applied(t, role, e, c)
    ensures Runs.AppliedAll(t, role, e, []) == e
  {
    assert [c][..0] == [];
  }

  lemma ToggleEndpoint(b: State, i: Input, t: Transport)
    ensures EndpointOf(TogglePerf(b, i.action, i.statsAt, i.firstTransfer), t) ==
      var e := EndpointOf(b, t);
      if b.role == Server && b.btn.b.wasPressed then e.(paused := !b.iperfRunning) else e
  {
  }

  lemma MachineEndpoint(f: State, at: nat, t: Transport)
    ensures EndpointOf(ResetMachine(f, at), t) ==
      var e := EndpointOf(f, t);
      if f.resetState == ResetIdle && Button.AskedLong(f.btn, at, 3000).1 then e.(paused := true) else e
  {
  }

  lemma PausesApply(s: State, i: Input, t: Transport, e: Endpoint)
    ensures Runs.AppliedAll(t, s.role, e, PauseCalls(s, i)) ==
      ArmedEndpoint(s, i, if Toggles(s, i) then e.(paused := !s.iperfRunning) else e)
  {
    var toggle := if Toggles(s, i) then [Runs.Pause(!s.iperfRunning)] else [];
    var arm := if Arms(s, i) then [Runs.Pause(true)] else [];
    Runs.AppliedSplits(t, s.role, e, toggle, arm);
    OneCall(t, s.role, e, Runs.Pause(!s.iperfRunning));
    OneCall(t, s.role, Runs.AppliedAll(t, s.role, e, toggle), Runs.Pause(true));
  }

  lemma BlinkEndpoint(r: State, i: Input, t: Transport)
    requires r.hbCount < 10
    ensures EndpointOf(Blink(r, i.blink, i.blinkUs, i.sent, i.restart), t) ==
      var e := EndpointOf(r, t);
      if r.role == Server && r.resetState == ResetIdle && !r.iperfRunning
         && Sub32(i.blink % U32, r.toggleStart) >= 500
      then
        var e' := if r.hbMode == t then Send(t, r.role, e, i.blinkUs, i.sent) else e;
        if r.hbCount == 9 then e'.(stamp := 0) else e'
      else e
  {
  }

  lemma BeatsApply(s: State, i: Input, t: Transport, e: Endpoint)
    ensures Runs.AppliedAll(t, s.role, e, BeatCalls(s, i, t)) == BeatenEndpoint(s, i, t, e)
  {
    var beat := Runs.Beat(Flipped(s.ledState), i.blinkUs, i.sent);
    var first := if s.hbMode == t then [beat] else [];
    var last := if s.hbCount == 9 then [Runs.Reset] else [];
    Runs.AppliedSplits(t, s.role, e, first, last);
    OneCall(t, s.role, e, beat);
    OneCall(t, s.role, Runs.AppliedAll(t, s.role, e, first), Runs.Reset);
  }

  /** What the button does to an endpoint. */
  lemma FrontEndpoint(s: State, i: Input, t: Transport)
    ensures EndpointOf(Front(s, i), t) ==
      var e := EndpointOf(Network(s, i), t);
      if Toggles(s, i) then e.(paused := !s.iperfRunning) else e
  {
    NetworkKeeps(s, i);
    ToggleEndpoint(Asking(s, i), i, t);
  }

  function ArmedEndpoint(s: State, i: Input, e: Endpoint): Endpoint {
    if Arms(s, i) then e.(paused := true) else e
  }

  function BeatenEndpoint(s: State, i: Input, t: Transport, e: Endpoint): Endpoint {
    if !Beats(s, i) then e
    else
      var e' := if s.hbMode == t then Send(t, s.role, e, i.blinkUs, i.sent) else e;
      if s.hbCount == 9 then e'.(stamp := 0) else e'
  }

  /** And what the reset sequence and a heartbeat do to it. */
  lemma TailEndpoint(s: State, i: Input, t: Transport)
    requires s.hbCount < 10
    ensures EndpointOf(Pass(s, i), t) == BeatenEndpoint(s, i, t, ArmedEndpoint(s, i, EndpointOf(Front(s, i), t)))
  {
    var f := Front(s, i);
    FrontDoes(s, i);
    MachineDoes(f, i.reset);
    MachineEndpoint(f, i.reset, t);
    BlinkEndpoint(ResetMachine(f, i.reset), i, t);
  }

  lemma {:induction false} NetworkIsGot(s: State, i: Input, t: Transport)
    ensures EndpointOf(Network(s, i), t) == Runs.AppliedAll(t, s.role, EndpointOf(s, t), GotCalls(i.packets, t))
  {
    ReceiveIsGot(ServicePerf(s, i.service, i.transfer), i.packets, t);
  }

  lemma {:induction false} PassEndpoint(s: State, i: Input, t: Transport)
    requires s.hbCount < 10
    ensures EndpointOf(Pass(s, i), t) == Runs.AppliedAll(t, s.role, EndpointOf(s, t), EndpointCalls(s, i, t))
  {
    NetworkIsGot(s, i, t);
    FrontEndpoint(s, i, t);
    TailEndpoint(s, i, t);
    PartsApply(s, i, t, EndpointOf(s, t), EndpointOf(Network(s, i), t));
  }

  lemma {:induction false} PartsApply(s: State, i: Input, t: Transport, e: Endpoint, e1: Endpoint)
    requires e1 == Runs.AppliedAll(t, s.role, e, GotCalls(i.packets, t))
    ensures Runs.AppliedAll(t, s.role, e, EndpointCalls(s, i, t)) ==
      BeatenEndpoint(s, i, t, ArmedEndpoint(s, i, if Toggles(s, i) then e1.(paused := !s.iperfRunning) else e1))
  {
    var got, pauses, beats := GotCalls(i.packets, t), PauseCalls(s, i), BeatCalls(s, i, t);
    Runs.AppliedSplits(t, s.role, e, got, pauses);
    Runs.AppliedSplits(t, s.role, e, got + pauses, beats);
    PausesApply(s, i, t, e1);
    BeatsApply(s, i, t, Runs.AppliedAll(t, s.role, e1, pauses));
  }

  function Ready(u: Setup, t: Transport): bool {
    match t case Udp => u.udpReady case RawEth => u.ethReady
  }

  lemma {:induction false} RoleStays(u: Setup, inputs: seq<Input>)
    ensures After(u, inputs).role == u.role
    decreases |inputs|
  {
    if inputs != [] {
      var k := |inputs| - 1;
      RoleStays(u, inputs[..k]);
      PassDoes(After(u, inputs[..k]), inputs[k]);
    }
  }

  lemma {:induction false} BoardEndpoint(u: Setup, inputs: seq<Input>, t: Transport)
    requires Run(u, inputs)
    ensures EndpointOf(After(u, inputs), t)
         == Runs.AppliedAll(t, u.role, Runs.Boot(Ready(u, t)).e, AllEndpointCalls(u, inputs, t))
    decreases |inputs|
  {
    if inputs != [] {
      var k := |inputs| - 1;
      var s := After(u, inputs[..k]);
      BoardEndpoint(u, inputs[..k], t);
      RoleStays(u, inputs[..k]);
      RunKeepsInv(u, inputs[..k]);
      PassEndpoint(s, inputs[k], t);
      Runs.AppliedSplits(t, u.role, Runs.Boot(Ready(u, t)).e, AllEndpointCalls(u, inputs[..k], t),
                         EndpointCalls(s, inputs[k], t));
    }
  }

  /** The bytes of the logged heartbeats of one transport. */
  function BytesOn(sent: seq<(Transport, byte)>, t: Transport): seq<byte> {
    if sent == [] then []
    else
      var k := |sent| - 1;
      BytesOn(sent[..k], t) + (if sent[k].0 == t then [sent[k].1] else [])
  }

  lemma {:induction false} GotsBeatNothing(packets: seq<Packet>, t: Transport)
    ensures Runs.BeatBytes(GotCalls(packets, t)) == []
    decreases |packets|
  {
    if packets != [] {
      var k := |packets| - 1;
      GotsBeatNothing(packets[..k], t);
      Runs.BeatBytesSplit(GotCalls(packets[..k], t), GotCalls(packets, t)[|GotCalls(packets[..k], t)|..]);
      assert GotCalls(packets, t)
          == GotCalls(packets[..k], t) + GotCalls(packets, t)[|GotCalls(packets[..k], t)|..];
    }
  }

  lemma {:induction false} PassBeats(s: State, i: Input, t: Transport)
    ensures Runs.BeatBytes(EndpointCalls(s, i, t)) ==
      if Beats(s, i) && s.hbMode == t then [Flipped(s.ledState)] else []
  {
    var got, pauses, beats := GotCalls(i.packets, t), PauseCalls(s, i), BeatCalls(s, i, t);
    GotsBeatNothing(i.packets, t);
    PausesBeatNothing(Toggles(s, i), s.iperfRunning, Arms(s, i));
    OneBeat(Beats(s, i), Flipped(s.ledState), i.blinkUs, i.sent, s.hbMode == t, s.hbCount == 9);
    OnlyBeatsCount(got, pauses, beats);
  }

  lemma OnlyBeatsCount(got: seq<Runs.Call>, pauses: seq<Runs.Call>, beats: seq<Runs.Call>)
    requires Runs.BeatBytes(got) == [] == Runs.BeatBytes(pauses)
    ensures Runs.BeatBytes(got + pauses + beats) == Runs.BeatBytes(beats)
  {
    Runs.BeatBytesSplit(got, pauses);
    Runs.BeatBytesSplit(got + pauses, beats);
  }

  lemma PausesBeatNothing(toggles: bool, on: bool, arms: bool)
    ensures Runs.BeatBytes(Pauses(toggles, on, arms)) == []
  {
    Runs.BeatBytesSplit(if toggles then [Runs.Pause(!on)] else [], if arms then [Runs.Pause(true)] else []);
  }

  lemma OneBeat(beats: bool, led: byte, nowUs: nat, sent: bool, mine: bool, tenth: bool)
    ensures Runs.BeatBytes(BeatAndReset(beats, Runs.Beat(led, nowUs, sent), mine, tenth)) ==
      if beats && mine then [led] else []
  {
    var beat := Runs.Beat(led, nowUs, sent);
    Runs.BeatBytesSplit(if mine then [beat] else [], if tenth then [Runs.Reset] else []);
  }

  lemma {:induction false} BeatsAreLogged(u: Setup, inputs: seq<Input>, t: Transport)
    ensures Runs.BeatBytes(AllEndpointCalls(u, inputs, t)) == BytesOn(After(u, inputs).h.sent, t)
    decreases |inputs|
  {
    if inputs != [] {
      var k := |inputs| - 1;
      var s, i := After(u, inputs[..k]), inputs[k];
      BeatsAreLogged(u, inputs[..k], t);
      PassBeats(s, i, t);
      PassDoes(s, i);
      Runs.BeatBytesSplit(AllEndpointCalls(u, inputs[..k], t), EndpointCalls(s, i, t));
      var sent := After(u, inputs).h.sent;
      if Beats(s, i) { assert sent[..|s.h.sent|] == s.h.sent; }
    }
  }

  /** An endpoint agrees with the books of its calls. */
  ghost predicate KeepsBooks(e: Endpoint, ready: bool, b: Runs.Books) {
    && e.stamp == b.waiting && e.paused == b.paused && e.ready == ready
    && e.txCount == b.transmitted % U32 && e.rxCount == (|b.samples| + b.heard) % U32
    && e.avgRtt == AverageOf(b.samples)
  }

  lemma CallsKeepBooks(t: Transport, role: Role, ready: bool, calls: seq<Runs.Call>)
    ensures KeepsBooks(Runs.AppliedAll(t, role, Runs.Boot(ready).e, calls), ready, Runs.BooksOf(t, role, ready, calls))
  {
    Runs.AfterApplies(t, role, ready, calls);
    Runs.EndpointKeepsBooks(t, role, ready, calls);
  }

  /**
   * In every run both endpoints keep the books of HeartbeatRuns on the calls the main
   * loop is to make: what they stamped, counted, measured, built and paused. On the
   * server, a transport that came up has built a packet for every logged heartbeat of
   * its own, with the logged byte, and for nothing else.
   */
  lemma {:induction false} HeartbeatsGoOut(u: Setup, inputs: seq<Input>, t: Transport)
    requires Run(u, inputs)
    ensures KeepsBooks(EndpointOf(After(u, inputs), t), Ready(u, t),
                       Runs.BooksOf(t, u.role, Ready(u, t), AllEndpointCalls(u, inputs, t)))
    ensures u.role == Server && Ready(u, t) ==>
      Runs.BooksOf(t, Server, true, AllEndpointCalls(u, inputs, t)).bytes == BytesOn(After(u, inputs).h.sent, t)
  {
    BoardEndpoint(u, inputs, t);
    BeatsAreLogged(u, inputs, t);
    CallsKeepBooks(t, u.role, Ready(u, t), AllEndpointCalls(u, inputs, t));
    Runs.ServerSendsBeats(t, AllEndpointCalls(u, inputs, t));
  }

  // ---------------------------------------------------------------------
  // Spacing
  // ---------------------------------------------------------------------

  ghost predicate Spaced(times: seq<nat>, end: nat) {
    && (forall j :: 0 <= j < |times| ==> times[j] <= end)
    && (forall j, k :: 0 <= j < k < |times| ==> times[k] >= times[j] + 500)
  }

  ghost predicate BeatTimes(s: State) {
    && |s.h.times| == |s.h.sent|
    && s.toggleStart == s.h.toggledAt % U32 && s.h.toggledAt <= s.h.now
    && Spaced(s.h.times, s.h.toggledAt)
  }

  lemma OneMoreTime(times: seq<nat>, end: nat, at: nat, restart: nat)
    requires Spaced(times, end) && end + 500 <= at <= restart
    ensures Spaced(times + [at], restart)
  {
    var more := times + [at];
    forall j | 0 <= j < |more| ensures more[j] <= restart && (j < |times| ==> at >= more[j] + 500) {
      if j < |times| { assert more[j] == times[j]; }
    }
  }

  lemma PassSpaces(s: State, i: Input)
    requires BeatTimes(s) && Timely(s, i)
    ensures BeatTimes(Pass(s, i))
  {
    PassDoes(s, i);
    PassNow(s, i);
    ElapsedWord(s.h.toggledAt, i.blink);
    if Beats(s, i) { OneMoreTime(s.h.times, s.h.toggledAt, i.blink, i.restart); }
  }

  lemma PassNow(s: State, i: Input)
    requires Timely(s, i)
    ensures s.h.now <= Pass(s, i).h.now
  {
    NetworkKeeps(s, i);
    FrontDoes(s, i);
    MachineDoes(Front(s, i), i.reset);
    BlinkChangesNoPerf(ResetMachine(Front(s, i), i.reset), i.blink, i.blinkUs, i.sent, i.restart);
  }

  lemma {:induction false} RunSpaces(u: Setup, inputs: seq<Input>)
    requires Run(u, inputs)
    ensures BeatTimes(After(u, inputs))
    decreases |inputs|
  {
    if inputs != [] {
      var k := |inputs| - 1;
      RunSpaces(u, inputs[..k]);
      PassSpaces(After(u, inputs[..k]), inputs[k]);
    }
  }

  /** Every heartbeat has its time, and any two are at least 500 reported ms apart. */
  ghost predicate HalfSecondApart(sent: seq<(Transport, byte)>, times: seq<nat>) {
    && |times| == |sent|
    && forall j, k :: 0 <= j < k < |times| ==> times[k] >= times[j] + 500
  }

  lemma {:induction false} HeartbeatsAreSpaced(u: Setup, inputs: seq<Input>)
    requires Run(u, inputs)
    ensures HalfSecondApart(After(u, inputs).h.sent, After(u, inputs).h.times)
  {
    RunSpaces(u, inputs);
  }

  /**
   * And in every run a pass sends one exactly if the board is an idle server at its
   * end and the last one, or the start, is 500 ms past.
   */
  lemma {:induction false} HeartbeatIffDue(u: Setup, inputs: seq<Input>, i: Input)
    requires Run(u, inputs + [i]) && i.blink - After(u, inputs).h.toggledAt < U32
    ensures var s, s' := After(u, inputs), After(u, inputs + [i]);
      |s'.h.sent| == |s.h.sent| +
        (if u.role == Server && s'.resetState == ResetIdle && !s'.iperfRunning && i.blink - s.h.toggledAt >= 500
         then 1 else 0)
  {
    assert (inputs + [i])[..|inputs|] == inputs;
    var s := After(u, inputs);
    RunSpaces(u, inputs);
    RoleStays(u, inputs);
    PassDoes(s, i);
    FrontDoes(s, i);
    ElapsedWord(s.h.toggledAt, i.blink);
  }

  // ---------------------------------------------------------------------
  // Test, pause and LED
  // ---------------------------------------------------------------------

  predicate Odd(n: nat) {
    n % 2 == 1
  }

  lemma AskingCounts(s: State, i: Input)
    ensures Asking(s, i).btn.taken == s.btn.taken && Asking(s, i).role == s.role
    ensures Pass(s, i).btn.taken == s.btn.taken + (if Asking(s, i).btn.b.wasPressed then 1 else 0)
  {
    NetworkKeeps(s, i);
    FrontDoes(s, i);
    PassDoes(s, i);
  }

  /** On the server the test is on exactly after an odd number of short presses, on a client never. */
  predicate OnByPresses(s: State) {
    s.iperfRunning <==> s.role == Server && Odd(s.btn.taken)
  }

  lemma PassToggles(s: State, i: Input)
    requires OnByPresses(s)
    ensures OnByPresses(Pass(s, i))
  {
    AskingCounts(s, i);
    PassDoes(s, i);
    FrontDoes(s, i);
    OddFlips(s.btn.taken);
  }

  lemma OddFlips(n: nat)
    ensures Odd(n + 1) <==> !Odd(n)
  {
  }

  lemma {:induction false} PressesToggle(u: Setup, inputs: seq<Input>)
    ensures OnByPresses(After(u, inputs))
    decreases |inputs|
  {
    if inputs != [] {
      var k := |inputs| - 1;
      PressesToggle(u, inputs[..k]);
      PassToggles(After(u, inputs[..k]), inputs[k]);
    }
  }

  lemma PassPauses(s: State, i: Input, t: Transport)
    requires s.hbCount < 10
    ensures EndpointOf(Pass(s, i), t).paused ==
      if Arms(s, i) then true else if Toggles(s, i) then !s.iperfRunning else EndpointOf(s, t).paused
    ensures EndpointOf(Pass(s, i), t).ready == EndpointOf(s, t).ready
  {
    NetworkFlags(s, i, t);
    FrontEndpoint(s, i, t);
    TailEndpoint(s, i, t);
    BeatKeepsFlags(s, i, t, ArmedEndpoint(s, i, EndpointOf(Front(s, i), t)));
  }

  lemma NetworkFlags(s: State, i: Input, t: Transport)
    ensures var e := EndpointOf(Network(s, i), t);
      e.paused == EndpointOf(s, t).paused && e.ready == EndpointOf(s, t).ready
  {
    ReceiveAllKeeps(ServicePerf(s, i.service, i.transfer), i.packets);
  }

  lemma BeatKeepsFlags(s: State, i: Input, t: Transport, e: Endpoint)
    ensures BeatenEndpoint(s, i, t, e).paused == e.paused && BeatenEndpoint(s, i, t, e).ready == e.ready
  {
  }

  /** Unless the reset is armed, both transports are paused exactly while the test is on. */
  lemma {:induction false} PausedWithTest(u: Setup, inputs: seq<Input>, t: Transport)
    requires Run(u, inputs)
    ensures var s := After(u, inputs);
      && (s.resetState == ResetIdle ==> (EndpointOf(s, t).paused <==> s.iperfRunning))
      && EndpointOf(s, t).ready == Ready(u, t)
    decreases |inputs|
  {
    if inputs != [] {
      var k := |inputs| - 1;
      var s, i := After(u, inputs[..k]), inputs[k];
      PausedWithTest(u, inputs[..k], t);
      RunKeepsInv(u, inputs[..k]);
      PassPauses(s, i, t);
      PassDoes(s, i);
      FrontDoes(s, i);
    }
  }

  lemma {:induction false} ServerPacketsKeepLed(s: State, packets: seq<Packet>)
    requires s.role == Server
    ensures ReceiveAll(s, packets).led == s.led
    decreases |packets|
  {
    if packets != [] {
      ServerPacketsKeepLed(s, packets[..|packets| - 1]);
      ReceiveAllKeeps(s, packets[..|packets| - 1]);
    }
  }

  /** The server's LED always shows its LED state, which is on while the reset is armed. */
  lemma {:induction false} ServerLed(u: Setup, inputs: seq<Input>)
    requires u.role == Server
    ensures var s := After(u, inputs);
      && s.led == (s.ledState != 0)
      && (s.resetState != ResetIdle ==> s.ledState == 1)
    decreases |inputs|
  {
    if inputs != [] {
      var k := |inputs| - 1;
      var s, i := After(u, inputs[..k]), inputs[k];
      ServerLed(u, inputs[..k]);
      RoleStays(u, inputs[..k]);
      ServerPacketsKeepLed(ServicePerf(s, i.service, i.transfer), i.packets);
      PassDoes(s, i);
      FrontDoes(s, i);
    }
  }

  /** The LED after some packets: the last one that a ready transport brought, unless paused. */
  function LedAfter(u: Setup, paused: bool, led: bool, packets: seq<Packet>): bool {
    if packets == [] then led
    else
      var p := packets[|packets| - 1];
      if !paused && Ready(u, p.t) && p.payload.Some? then p.payload.value != 0
      else LedAfter(u, paused, led, packets[..|packets| - 1])
  }

  /** The LED of a client: the last heartbeat of either transport until the reset is armed, then on. */
  function LedOf(u: Setup, inputs: seq<Input>): bool {
    if inputs == [] then false
    else
      var k := |inputs| - 1;
      var s := After(u, inputs[..k]);
      Arms(s, inputs[k]) || LedAfter(u, s.resetState != ResetIdle, LedOf(u, inputs[..k]), inputs[k].packets)
  }

  lemma {:induction false} ClientPacketsSetLed(u: Setup, s: State, paused: bool, packets: seq<Packet>)
    requires s.role == Client && s.udp.paused == paused == s.eth.paused
    requires s.udp.ready == u.udpReady && s.eth.ready == u.ethReady
    ensures ReceiveAll(s, packets).led == LedAfter(u, paused, s.led, packets)
    decreases |packets|
  {
    if packets != [] {
      ClientPacketsSetLed(u, s, paused, packets[..|packets| - 1]);
      ReceiveAllKeeps(s, packets[..|packets| - 1]);
    }
  }

  lemma {:induction false} ClientPaused(u: Setup, inputs: seq<Input>, t: Transport)
    requires Run(u, inputs) && u.role == Client
    ensures var s := After(u, inputs);
      EndpointOf(s, t).paused == (s.resetState != ResetIdle) && EndpointOf(s, t).ready == Ready(u, t)
  {
    RunKeepsInv(u, inputs);
    RoleStays(u, inputs);
    if After(u, inputs).resetState != ResetIdle { InvPauses(After(u, inputs), t); }
    PressesToggle(u, inputs);
    PausedWithTest(u, inputs, t);
  }

  lemma InvPauses(s: State, t: Transport)
    requires Inv(s) && s.role == Client && s.resetState != ResetIdle
    ensures EndpointOf(s, t).paused
  {
  }

  /** In every run a client's LED shows the last heartbeat it got. */
  lemma {:induction false} ClientLed(u: Setup, inputs: seq<Input>)
    requires Run(u, inputs) && u.role == Client
    ensures After(u, inputs).led == LedOf(u, inputs)
    decreases |inputs|
  {
    if inputs != [] {
      var k := |inputs| - 1;
      var s, i := After(u, inputs[..k]), inputs[k];
      ClientLed(u, inputs[..k]);
      ClientPaused(u, inputs[..k], Udp);
      ClientPaused(u, inputs[..k], RawEth);
      RoleStays(u, inputs[..k]);
      ClientPacketsSetLed(u, ServicePerf(s, i.service, i.transfer), s.resetState != ResetIdle, i.packets);
      PassDoes(s, i);
      FrontDoes(s, i);
    }
  }

  // ---------------------------------------------------------------------
  // ACKs
  // ---------------------------------------------------------------------

  function Total(blocks: seq<nat>): nat {
    if blocks == [] then 0 else Total(blocks[..|blocks| - 1]) + blocks[|blocks| - 1]
  }

  /** The ACKs of the finished blocks and of the current one are those both endpoints have received. */
  ghost predicate AcksCounted(s: State) {
    (Total(s.h.blocks) + s.h.accepted) % U32 == (s.udp.rxCount + s.eth.rxCount) % U32
  }

  lemma OneMoreAck(total: nat, a: uint32, b: uint32)
    requires total % U32 == (a + b) % U32
    ensures (total + 1) % U32 == (Bump(a) + b) % U32 == (a + Bump(b)) % U32
  {
    AddWraps(total, 1);
    AddWraps(a + b, 1);
    AddWraps(a + 1, b);
    AddWraps(b + 1, a);
  }

  lemma PacketCounts(s: State, p: Packet)
    requires s.role == Server && AcksCounted(s)
    ensures AcksCounted(ReceivePacket(s, p)) && ReceivePacket(s, p).role == Server
  {
    OneMoreAck(Total(s.h.blocks) + s.h.accepted, s.udp.rxCount, s.eth.rxCount);
  }

  lemma {:induction false} PacketsCount(s: State, packets: seq<Packet>)
    requires s.role == Server && AcksCounted(s)
    ensures AcksCounted(ReceiveAll(s, packets)) && ReceiveAll(s, packets).role == Server
    decreases |packets|
  {
    if packets != [] {
      PacketsCount(s, packets[..|packets| - 1]);
      PacketCounts(ReceiveAll(s, packets[..|packets| - 1]), packets[|packets| - 1]);
    }
  }

  /** Nothing received, and at most a block finished with what it had. */
  predicate SameAcks(s: State, s': State) {
    && s'.udp.rxCount == s.udp.rxCount && s'.eth.rxCount == s.eth.rxCount
    && Total(s'.h.blocks) + s'.h.accepted == Total(s.h.blocks) + s.h.accepted
  }

  lemma ButtonSameAcks(n: State, i: Input)
    ensures SameAcks(n, ButtonPart(n, i))
  {
  }

  lemma MachineSameAcks(f: State, at: nat)
    ensures SameAcks(f, ResetMachine(f, at))
  {
  }

  lemma BlockEnds(blocks: seq<nat>, accepted: nat)
    ensures Total(blocks + [accepted]) == Total(blocks) + accepted
  {
    assert (blocks + [accepted])[..|blocks|] == blocks;
  }

  lemma SendSameAcks(r: State, nowUs: nat, sent: bool)
    ensures SameAcks(r, SendHeartbeat(r, nowUs, sent))
  {
  }

  lemma SwitchSameAcks(r: State)
    ensures SameAcks(r, SwitchMode(r))
  {
    BlockEnds(r.h.blocks, r.h.accepted);
  }

  lemma BlinkSameAcks(r: State, i: Input)
    ensures SameAcks(r, Blink(r, i.blink, i.blinkUs, i.sent, i.restart))
  {
    var sent := SendHeartbeat(r, i.blinkUs, i.sent);
    SendSameAcks(r, i.blinkUs, i.sent);
    SwitchSameAcks(sent);
    var b := Blink(r, i.blink, i.blinkUs, i.sent, i.restart);
    if BlinkBeats(r, i) {
      LaterSameAcks(r, SwitchMode(sent), b);
    } else {
      LaterSameAcks(r, r, b);
    }
  }

  predicate BlinkBeats(r: State, i: Input) {
    && r.role == Server && r.resetState == ResetIdle && !r.iperfRunning
    && Sub32(i.blink % U32, r.toggleStart) >= 500
  }

  lemma LaterSameAcks(r: State, a: State, b: State)
    requires SameAcks(r, a)
    requires b.udp == a.udp && b.eth == a.eth && b.h.blocks == a.h.blocks && b.h.accepted == a.h.accepted
    ensures SameAcks(r, b)
  {
  }

  lemma RestKeepsAcks(s: State, i: Input)
    requires AcksCounted(Network(s, i))
    ensures AcksCounted(Pass(s, i))
  {
    ButtonSameAcks(Network(s, i), i);
    MachineSameAcks(Front(s, i), i.reset);
    BlinkSameAcks(ResetMachine(Front(s, i), i.reset), i);
    SameAcksKeeps(Network(s, i), Pass(s, i));
  }

  lemma SameAcksKeeps(s: State, s': State)
    requires AcksCounted(s) && SameAcks(s, s')
    ensures AcksCounted(s')
  {
  }

  lemma NetworkCounts(s: State, i: Input)
    requires s.role == Server && AcksCounted(s)
    ensures AcksCounted(Network(s, i))
  {
    PacketsCount(ServicePerf(s, i.service, i.transfer), i.packets);
  }

  lemma {:induction false} AllAcksAreCounted(u: Setup, inputs: seq<Input>)
    requires u.role == Server
    ensures AcksCounted(After(u, inputs))
    decreases |inputs|
  {
    if inputs != [] {
      var k := |inputs| - 1;
      var s, i := After(u, inputs[..k]), inputs[k];
      AllAcksAreCounted(u, inputs[..k]);
      RoleStays(u, inputs[..k]);
      NetworkCounts(s, i);
      RestKeepsAcks(s, i);
    }
  }
}
