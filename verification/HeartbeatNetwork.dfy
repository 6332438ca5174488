/**
 * A server board and a client board exchanging heartbeats over both transports, through
 * a network that may lose, duplicate and reorder packets; and what becomes of the
 * traffic if the first board is set up as a client as well.
 */
module HeartbeatNetwork {
  import opened Words
  import opened Heartbeat

  datatype Packet = Packet(transport: Transport, payload: byte)

  /** One value per transport. */
  datatype Both<T> = Both(udp: T, eth: T) {
    function Of(t: Transport): T {
      match t case Udp => udp case RawEth => eth
    }

    function With(t: Transport, value: T): Both<T> {
      match t case Udp => this.(udp := value) case RawEth => this.(eth := value)
    }
  }

  /**
   * `role` is the role of the first board, Server unless it is wrongly set up. `down`
   * and `up` are the packets in flight to the client and to the first board. The
   * counters say how many sends were stamped and how many ACKs accepted per transport,
   * how many heartbeats reached the client and how many ACKs it emitted.
   */
  datatype System = System(role: Role, server: Both<Endpoint>, client: Both<Endpoint>,
                           down: multiset<Packet>, up: multiset<Packet>,
                           stamped: Both<nat>, accepted: Both<nat>, delivered: nat, acks: nat)

  datatype Step =
    | Heartbeat(t: Transport, led: byte, nowUs: nat, sent: bool)
    | ResetRtt
    | ToClient(p: Packet, nowUs: nat, reply: Reply)
    | ToServer(p: Packet, nowUs: nat, reply: Reply)
    | Lose(p: Packet)
    | Duplicate(p: Packet)

  predicate Enabled(s: System, a: Step) {
    match a
    case ToClient(p, _, _) => p in s.down
    case ToServer(p, _, _) => p in s.up
    case Lose(p) => p in s.down + s.up
    case Duplicate(p) => p in s.down + s.up
    case _ => true
  }

  function Next(s: System, a: Step): System
    requires Enabled(s, a)
  {
    match a
    case Heartbeat(t, led, nowUs, sent) =>
      var e := s.server.Of(t);
      var sends := e.ready && s.role == Server;
      var stamps := if sends then 1 else 0;
      s.(server := s.server.With(t, Send(t, s.role, e, nowUs, sent)),
         stamped := s.stamped.With(t, s.stamped.Of(t) + stamps),
         down := if sends && sent then s.down + multiset{Packet(t, led)} else s.down)
    case ResetRtt =>
      s.(server := Both(s.server.udp.(stamp := 0), s.server.eth.(stamp := 0)))
    case ToClient(p, nowUs, reply) =>
      var t := p.transport;
      var (e, fx) := Receive(t, Client, s.client.Of(t), Some(p.payload), nowUs, reply);
      s.(client := s.client.With(t, e), down := s.down - multiset{p}, delivered := s.delivered + 1,
         up := if fx.ack then s.up + multiset{Packet(t, ACK_BYTE)} else s.up,
         acks := s.acks + (if fx.ack then 1 else 0))
    case ToServer(p, nowUs, reply) =>
      var t := p.transport;
      var (e, fx) := Receive(t, s.role, s.server.Of(t), Some(p.payload), nowUs, reply);
      s.(server := s.server.With(t, e), up := s.up - multiset{p},
         down := if fx.ack then s.down + multiset{Packet(t, ACK_BYTE)} else s.down,
         accepted := s.accepted.With(t, s.accepted.Of(t) + (if fx.rtt.Some? then 1 else 0)))
    case Lose(p) =>
      if p in s.down then s.(down := s.down - multiset{p}) else s.(up := s.up - multiset{p})
    case Duplicate(p) =>
      if p in s.down then s.(down := s.down + multiset{p}) else s.(up := s.up + multiset{p})
  }

  /** Two boards that have just been initialised; either transport may have failed to come up. */
  predicate Boot(s: System) {
    && s.down == multiset{} == s.up
    && s.server.udp.stamp == 0 == s.server.eth.stamp
    && s.stamped == Both(0, 0) == s.accepted && s.delivered == 0 == s.acks
  }

  predicate Run(s: System, steps: seq<Step>)
    decreases |steps|, 0
  {
    steps == [] || (var k := |steps| - 1; Run(s, steps[..k]) && Enabled(After(s, steps[..k]), steps[k]))
  }

  function After(s: System, steps: seq<Step>): System
    requires Run(s, steps)
    decreases |steps|, 1
  {
    if steps == [] then s else var k := |steps| - 1; Next(After(s, steps[..k]), steps[k])
  }

  // ---------------------------------------------------------------------
  // What loss, duplication and reordering cannot break
  // ---------------------------------------------------------------------

  /** Every accepted ACK, and the one still waited for, has a stamped send of its own. */
  predicate AcksCovered(s: System, t: Transport) {
    s.accepted.Of(t) + (if s.server.Of(t).stamp != 0 then 1 else 0) <= s.stamped.Of(t)
  }

  ghost predicate Inv(s: System) {
    (forall t :: AcksCovered(s, t)) && s.acks <= s.delivered
  }

  lemma StepKeepsInv(s: System, a: Step)
    requires Inv(s) && Enabled(s, a)
    ensures Inv(Next(s, a))
  {
    forall t
      ensures AcksCovered(Next(s, a), t)
    {
      StepKeepsCover(s, a, t);
    }
  }

  lemma StepKeepsCover(s: System, a: Step, t: Transport)
    requires AcksCovered(s, t) && Enabled(s, a)
    ensures AcksCovered(Next(s, a), t)
  {
  }

  lemma {:induction false} RunKeepsInv(s: System, steps: seq<Step>)
    requires Inv(s) && Run(s, steps)
    ensures Inv(After(s, steps))
    decreases |steps|
  {
    if steps != [] {
      var k := |steps| - 1;
      RunKeepsInv(s, steps[..k]);
      StepKeepsInv(After(s, steps[..k]), steps[k]);
    }
  }

  /**
   * In every run, on each transport the ACKs accepted never exceed the sends stamped on
   * it, even if the network multiplies packets, and the client never emits more ACKs
   * than heartbeats it was handed.
   */
  lemma {:induction false} AcksNeverExceedSends(s: System, steps: seq<Step>, t: Transport)
    requires Boot(s) && Run(s, steps)
    ensures var s' := After(s, steps);
      s'.accepted.Of(t) <= s'.stamped.Of(t) && s'.acks <= s'.delivered
  {
    assert forall u :: AcksCovered(s, u);
    RunKeepsInv(s, steps);
    assert AcksCovered(After(s, steps), t);
  }

  // ---------------------------------------------------------------------
  // Traffic dies out
  // ---------------------------------------------------------------------

  /** A packet to the client may still cause one to the server, but not the other way round. */
  function Remaining(s: System): nat {
    2 * |s.down| + |s.up|
  }

  predicate IsTraffic(a: Step) {
    a.ToClient? || a.ToServer? || a.Lose?
  }

  lemma TakeOne(m: multiset<Packet>, p: Packet)
    requires p in m
    ensures |m - multiset{p}| == |m| - 1
  {
  }

  lemma TrafficShrinks(s: System, a: Step)
    requires s.role == Server && Enabled(s, a) && IsTraffic(a)
    ensures Remaining(Next(s, a)) < Remaining(s) && Next(s, a).role == Server
  {
    if a.p in s.down { TakeOne(s.down, a.p); }
    if a.p in s.up { TakeOne(s.up, a.p); }
  }

  /**
   * A server never answers an ACK, so without further heartbeats and duplicates the
   * number of network steps is bounded by the packets now in flight.
   */
  lemma {:induction false} TrafficIsFinite(s: System, steps: seq<Step>)
    requires s.role == Server && Run(s, steps)
    requires forall k :: 0 <= k < |steps| ==> IsTraffic(steps[k])
    ensures |steps| + Remaining(After(s, steps)) <= Remaining(s)
    ensures After(s, steps).role == Server
    decreases |steps|
  {
    if steps != [] {
      var k := |steps| - 1;
      TrafficIsFinite(s, steps[..k]);
      TrafficShrinks(After(s, steps[..k]), steps[k]);
    }
  }

  /**
   * An undisturbed exchange: a heartbeat sent at a time other than 0 is acknowledged,
   * the ACK is accepted, and the time in between is what gets recorded.
   */
  lemma ExchangeSucceeds(s: System, t: Transport, led: byte, sendUs: nat, midUs: nat, ackUs: nat)
    requires s.role == Server && s.server.Of(t).ready && s.client.Of(t).ready && sendUs != 0
    ensures var s1 := Next(s, Heartbeat(t, led, sendUs, true));
      && Packet(t, led) in s1.down
      && var s2 := Next(s1, ToClient(Packet(t, led), midUs, Sent));
      && Packet(t, ACK_BYTE) in s2.up
      && var s3 := Next(s2, ToServer(Packet(t, ACK_BYTE), ackUs, NoBuffer));
      && s3.down == s.down && s3.up == s.up
      && s3.accepted.Of(t) == s.accepted.Of(t) + 1
      && s3.server.Of(t).lastRtt == (ackUs - sendUs) % U32 && s3.server.Of(t).stamp == 0
  {
    var s1 := SentOut(s, t, led, sendUs);
    PutAndTake(s.down, Packet(t, led));
    var s2 := Acknowledged(s1, t, led, midUs);
    PutAndTake(s.up, Packet(t, ACK_BYTE));
    var s3 := Accepted(s2, t, ackUs);
  }

  lemma PutAndTake(m: multiset<Packet>, p: Packet)
    ensures p in m + multiset{p} && m + multiset{p} - multiset{p} == m
  {
  }

  lemma SentOut(s: System, t: Transport, led: byte, nowUs: nat) returns (s': System)
    requires s.role == Server && s.server.Of(t).ready
    ensures s' == Next(s, Heartbeat(t, led, nowUs, true))
    ensures s'.down == s.down + multiset{Packet(t, led)} && s'.up == s.up
    ensures s'.role == s.role && s'.client == s.client && s'.accepted == s.accepted
    ensures s'.server.Of(t).ready && s'.server.Of(t).stamp == nowUs
  {
    s' := Next(s, Heartbeat(t, led, nowUs, true));
  }

  lemma Acknowledged(s: System, t: Transport, led: byte, nowUs: nat) returns (s': System)
    requires s.client.Of(t).ready && Packet(t, led) in s.down
    ensures s' == Next(s, ToClient(Packet(t, led), nowUs, Sent))
    ensures s'.up == s.up + multiset{Packet(t, ACK_BYTE)} && s'.down == s.down - multiset{Packet(t, led)}
    ensures s'.role == s.role && s'.server == s.server && s'.accepted == s.accepted
  {
    s' := Next(s, ToClient(Packet(t, led), nowUs, Sent));
  }

  lemma Accepted(s: System, t: Transport, nowUs: nat) returns (s': System)
    requires s.role == Server && s.server.Of(t).ready && s.server.Of(t).stamp != 0 && Packet(t, ACK_BYTE) in s.up
    ensures s' == Next(s, ToServer(Packet(t, ACK_BYTE), nowUs, NoBuffer))
    ensures s'.up == s.up - multiset{Packet(t, ACK_BYTE)} && s'.down == s.down
    ensures s'.accepted.Of(t) == s.accepted.Of(t) + 1 && s'.server.Of(t).stamp == 0
    ensures s'.server.Of(t).lastRtt == (nowUs - s.server.Of(t).stamp) % U32
  {
    s' := Next(s, ToServer(Packet(t, ACK_BYTE), nowUs, NoBuffer));
  }

  // ---------------------------------------------------------------------
  // Why there must be a server
  // ---------------------------------------------------------------------

  ghost predicate AllReady(s: System) {
    forall t :: s.server.Of(t).ready && s.client.Of(t).ready
  }

  predicate IsAnsweredDelivery(a: Step) {
    (a.ToClient? || a.ToServer?) && a.reply == Sent
  }

  lemma ClientAnswers(s: System, a: Step)
    requires s.role == Client && AllReady(s) && Enabled(s, a) && IsAnsweredDelivery(a)
    ensures var s' := Next(s, a);
      s'.role == Client && AllReady(s') && |s'.down| + |s'.up| == |s.down| + |s.up|
  {
    var s' := Next(s, a);
    assert s.server.Of(a.p.transport).ready && s.client.Of(a.p.transport).ready;
    forall t ensures s'.server.Of(t).ready && s'.client.Of(t).ready {
      assert s.server.Of(t).ready && s.client.Of(t).ready;
    }
  }

  /**
   * A client answers ACKs too. If both boards are clients, deliveries never make the
   * traffic less: as many packets are in flight as before, after any number of them.
   */
  lemma {:induction false} TwoClientsNeverStop(s: System, steps: seq<Step>)
    requires s.role == Client && AllReady(s) && Run(s, steps)
    requires forall k :: 0 <= k < |steps| ==> IsAnsweredDelivery(steps[k])
    ensures var s' := After(s, steps);
      s'.role == Client && AllReady(s') && |s'.down| + |s'.up| == |s.down| + |s.up|
    decreases |steps|
  {
    if steps != [] {
      var k := |steps| - 1;
      TwoClientsNeverStop(s, steps[..k]);
      ClientAnswers(After(s, steps[..k]), steps[k]);
    }
  }
}
