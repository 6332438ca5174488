/**
 * What one heartbeat endpoint does over any sequence of calls, for either transport and
 * either role: every counter, measurement, LED change and packet is read off the calls.
 */
module HeartbeatRuns {
  import opened Words
  import opened Heartbeat

  /** A call of the main loop or a packet from the network. */
  datatype Call =
    | Beat(led: byte, nowUs: nat, sent: bool)
    | Got(payload: Option<byte>, nowUs: nat, reply: Reply)
    | Pause(paused: bool)
    | Reset

  /** The endpoint, the LED it drives, the bytes of the packets it has built, and how many ACKs went out. */
  datatype State = State(e: Endpoint, led: bool, built: seq<byte>, acks: nat)

  function Appended(s: seq<byte>, b: Option<byte>): seq<byte> {
    match b case None => s case Some(x) => s + [x]
  }

  function Next(t: Transport, role: Role, s: State, c: Call): State {
    match c
    case Beat(led, nowUs, sent) =>
      s.(e := Send(t, role, s.e, nowUs, sent), built := Appended(s.built, BuiltBySend(role, s.e, led)))
    case Got(payload, nowUs, reply) =>
      var (e', fx) := Receive(t, role, s.e, payload, nowUs, reply);
      State(e', if fx.led.Some? then fx.led.value else s.led, Appended(s.built, fx.built),
            if fx.ack then s.acks + 1 else s.acks)
    case Pause(paused) => s.(e := s.e.(paused := paused))
    case Reset => s.(e := s.e.(stamp := 0))
  }

  function Boot(ready: bool): State {
    State(Endpoint(ready, false, 0, 0, 0, 0, 0), false, [], 0)
  }

  function After(t: Transport, role: Role, ready: bool, calls: seq<Call>): State {
    if calls == [] then Boot(ready)
    else var k := |calls| - 1; Next(t, role, After(t, role, ready, calls[..k]), calls[k])
  }

  /** The endpoint alone. */
  function Applied(t: Transport, role: Role, e: Endpoint, c: Call): Endpoint {
    Next(t, role, State(e, false, [], 0), c).e
  }

  function AppliedAll(t: Transport, role: Role, e: Endpoint, calls: seq<Call>): Endpoint {
    if calls == [] then e
    else var k := |calls| - 1; Applied(t, role, AppliedAll(t, role, e, calls[..k]), calls[k])
  }

  lemma Joined(a: seq<Call>, b: seq<Call>)
    requires b != []
    ensures var k := |b| - 1;
      (a + b)[..|a + b| - 1] == a + b[..k] && (a + b)[|a + b| - 1] == b[k]
  {
  }

  lemma {:induction false} AppliedSplits(t: Transport, role: Role, e: Endpoint, a: seq<Call>, b: seq<Call>)
    ensures AppliedAll(t, role, e, a + b) == AppliedAll(t, role, AppliedAll(t, role, e, a), b)
    decreases |b|
  {
    if b == [] {
      assert a + b == a;
    } else {
      var k := |b| - 1;
      AppliedSplits(t, role, e, a, b[..k]);
      Joined(a, b);
    }
  }

  lemma {:induction false} AfterApplies(t: Transport, role: Role, ready: bool, calls: seq<Call>)
    ensures After(t, role, ready, calls).e == AppliedAll(t, role, Boot(ready).e, calls)
    decreases |calls|
  {
    if calls != [] {
      AfterApplies(t, role, ready, calls[..|calls| - 1]);
    }
  }

  /** The bytes of the heartbeats the endpoint is asked to send. */
  function BeatBytes(calls: seq<Call>): seq<byte> {
    if calls == [] then []
    else
      var k := |calls| - 1;
      BeatBytes(calls[..k]) + (if calls[k].Beat? then [calls[k].led] else [])
  }

  lemma {:induction false} BeatBytesSplit(a: seq<Call>, b: seq<Call>)
    ensures BeatBytes(a + b) == BeatBytes(a) + BeatBytes(b)
    decreases |b|
  {
    if b == [] {
      assert a + b == a;
    } else {
      var k := |b| - 1;
      BeatBytesSplit(a, b[..k]);
      Joined(a, b);
    }
  }

  /** A server that is up builds a packet for each of them, and for nothing else. */
  lemma {:induction false} ServerSendsBeats(t: Transport, calls: seq<Call>)
    ensures BooksOf(t, Server, true, calls).bytes == BeatBytes(calls)
    decreases |calls|
  {
    if calls != [] {
      ServerSendsBeats(t, calls[..|calls| - 1]);
    }
  }

  // ---------------------------------------------------------------------
  // The same, read off the calls
  // ---------------------------------------------------------------------

  /**
   * What the calls amount to: the time of the heartbeat still unanswered (0 for none),
   * the round trips of the answered ones, the packets transmitted and the heartbeats
   * heard, the last byte shown on the LED, the bytes sent, the ACKs that went out, and
   * whether it is paused.
   */
  datatype Books = Books(waiting: nat, samples: seq<uint32>, transmitted: nat, heard: nat,
                         shown: byte, bytes: seq<byte>, answered: nat, paused: bool)

  const EMPTY: Books := Books(0, [], 0, 0, 0, [], 0, false)

  function BeatEntry(t: Transport, b: Books, led: byte, nowUs: nat, sent: bool): Books {
    b.(waiting := nowUs, bytes := b.bytes + [led],
       transmitted := b.transmitted + (if sent || t == RawEth then 1 else 0))
  }

  function AckEntry(b: Books, nowUs: nat): Books {
    if b.waiting == 0 then b
    else b.(waiting := 0, samples := b.samples + [(nowUs - b.waiting) % 0x1_0000_0000])
  }

  function HeardEntry(t: Transport, b: Books, x: byte, reply: Reply): Books {
    b.(heard := b.heard + 1, shown := if b.paused then b.shown else x,
       bytes := if reply.NoBuffer? then b.bytes else b.bytes + [0xAC],
       answered := if reply.Sent? then b.answered + 1 else b.answered,
       transmitted := b.transmitted + (if reply.NoBuffer? && t == Udp then 0 else 1))
  }

  /** An endpoint that did not come up neither sends nor hears anything, and a client never sends first. */
  function Entry(t: Transport, role: Role, ready: bool, b: Books, c: Call): Books {
    match c
    case Pause(paused) => b.(paused := paused)
    case Reset => b.(waiting := 0)
    case Beat(led, nowUs, sent) => if ready && role == Server then BeatEntry(t, b, led, nowUs, sent) else b
    case Got(payload, nowUs, reply) =>
      if !ready || payload.None? then b
      else if role == Server then AckEntry(b, nowUs)
      else HeardEntry(t, b, payload.value, reply)
  }

  function BooksOf(t: Transport, role: Role, ready: bool, calls: seq<Call>): Books {
    if calls == [] then EMPTY
    else var k := |calls| - 1; Entry(t, role, ready, BooksOf(t, role, ready, calls[..k]), calls[k])
  }

  /** The endpoint agrees with the books. */
  ghost predicate Agrees(s: State, ready: bool, b: Books) {
    && s.e.ready == ready && s.e.paused == b.paused && s.e.stamp == b.waiting
    && s.e.txCount == b.transmitted % U32
    && s.e.rxCount == (|b.samples| + b.heard) % U32
    && s.e.avgRtt == AverageOf(b.samples)
    && s.e.lastRtt == (if b.samples == [] then 0 else b.samples[|b.samples| - 1])
    && s.led == (b.shown != 0) && s.built == b.bytes && s.acks == b.answered
  }

  lemma Counted(n: nat)
    ensures Bump(n % U32) == (n + 1) % U32
  {
    AddWraps(n, 1);
  }

  lemma OneMoreSample(samples: seq<uint32>, rtt: uint32)
    ensures AverageOf(samples + [rtt]) == Average(AverageOf(samples), rtt)
  {
    assert (samples + [rtt])[..|samples|] == samples;
  }

  lemma BeatAgrees(t: Transport, role: Role, ready: bool, s: State, b: Books, c: Call)
    requires Agrees(s, ready, b) && c.Beat?
    ensures Agrees(Next(t, role, s, c), ready, Entry(t, role, ready, b, c))
  {
    Counted(b.transmitted);
  }

  lemma AckAgrees(t: Transport, ready: bool, s: State, b: Books, c: Call)
    requires Agrees(s, ready, b) && c.Got?
    ensures Agrees(Next(t, Server, s, c), ready, Entry(t, Server, ready, b, c))
  {
    if ready && c.payload.Some? && b.waiting != 0 {
      var rtt := (c.nowUs - b.waiting) % U32;
      Counted(|b.samples| + b.heard);
      OneMoreSample(b.samples, rtt);
      assert |b.samples + [rtt]| + b.heard == |b.samples| + b.heard + 1;
    }
  }

  lemma HeardAgrees(t: Transport, ready: bool, s: State, b: Books, c: Call)
    requires Agrees(s, ready, b) && c.Got?
    ensures Agrees(Next(t, Client, s, c), ready, Entry(t, Client, ready, b, c))
  {
    Counted(b.transmitted);
    Counted(|b.samples| + b.heard);
  }

  lemma NextAgrees(t: Transport, role: Role, ready: bool, s: State, b: Books, c: Call)
    requires Agrees(s, ready, b)
    ensures Agrees(Next(t, role, s, c), ready, Entry(t, role, ready, b, c))
  {
    if c.Beat? {
      BeatAgrees(t, role, ready, s, b, c);
    } else if c.Got? {
      if role == Server { AckAgrees(t, ready, s, b, c); } else { HeardAgrees(t, ready, s, b, c); }
    }
  }

  /**
   * For either transport and role and any calls: a server stamps and counts its sends,
   * accepts one ACK for each, and measures and averages exactly those; a client shows
   * every heartbeat it hears unless paused, and answers it with an ACK.
   */
  lemma {:induction false} EndpointKeepsBooks(t: Transport, role: Role, ready: bool, calls: seq<Call>)
    ensures Agrees(After(t, role, ready, calls), ready, BooksOf(t, role, ready, calls))
    decreases |calls|
  {
    if calls != [] {
      var k := |calls| - 1;
      EndpointKeepsBooks(t, role, ready, calls[..k]);
      NextAgrees(t, role, ready, After(t, role, ready, calls[..k]), BooksOf(t, role, ready, calls[..k]), calls[k]);
    }
  }
}
