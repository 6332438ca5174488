/**
 * The throughput sender of udp_perf_client.c: starting and stopping it, the transfer
 * of one datagram at a time, the numbering of the datagrams and the byte counts.
 */
module PerfClient {
  import opened Words

  const START_DELAY: int := 10
  const REPORT_INTERVAL_TIME: int := 5000
  const END_TIME: int := 300000
  const UDP_SEND_BUFSIZE: int := 1460

  /** The number of the closing datagram: -1 in 32 bits. */
  const FINISH_ID: uint32 := U32 - 1

  /** What becomes of one datagram. */
  datatype Attempt =
    | WouldBlock   // the driver has no room, nothing is tried
    | NoBuffer     // no pbuf
    | NotTaken     // the payload could not be copied
    | Sent
    | Busy         // ERR_WOULDBLOCK or ERR_MEM
    | Failed       // any other error

  /** One call of transfer_data: the time it reads and the fate of its datagram. */
  datatype Transfer = Transfer(at: uint32, attempt: Attempt)

  datatype Stats = Stats(startTime: uint32, totalBytes: uint32, datagrams: uint32,
                         reportStart: uint32, reportBytes: uint32)

  datatype Perf = Perf(running: bool, startDelay: uint32, packetId: uint32, stats: Stats)

  const OFF: Perf := Perf(false, 0, 0, Stats(0, 0, 0, 0, 0))

  function Plus(a: uint32, b: nat): uint32 {
    (a + b) % U32
  }

  /** udp_packet_send, for the one parallel client that is configured. */
  function PacketSent(p: Perf, finished: bool, a: Attempt): Perf {
    var id := if finished then FINISH_ID else Plus(p.packetId, 1);
    match a
    case WouldBlock => p
    case NoBuffer => p
    case NotTaken => p
    case Sent =>
      p.(packetId := id,
         stats := p.stats.(totalBytes := Plus(p.stats.totalBytes, UDP_SEND_BUFSIZE),
                           datagrams := Plus(p.stats.datagrams, 1),
                           reportBytes := Plus(p.stats.reportBytes, UDP_SEND_BUFSIZE)))
    case Busy => if finished then p.(packetId := id) else p
    case Failed => p.(packetId := id, running := false)
  }

  /** An interim report is due. */
  predicate ReportDue(t: Stats, at: uint32) {
    t.reportStart != 0 && Sub32(at, t.reportStart) >= REPORT_INTERVAL_TIME
  }

  function Reported(t: Stats, at: uint32): Stats {
    if t.reportStart == 0 then t.(reportStart := at)
    else if ReportDue(t, at) then t.(reportStart := 0, reportBytes := 0)
    else t
  }

  predicate TimeOver(t: Stats, at: uint32) {
    Sub32(at, t.startTime) >= END_TIME
  }

  /** transfer_data. */
  function Transferred(p: Perf, x: Transfer): Perf {
    var q := p.(stats := Reported(p.stats, x.at));
    if TimeOver(q.stats, x.at) then PacketSent(q, true, x.attempt).(running := false)
    else PacketSent(q, false, x.attempt)
  }

  /** A start is pending and the counts are cleared; the numbering goes on. */
  function Begun(p: Perf, now: uint32, statsAt: uint32): Perf {
    Perf(false, now, p.packetId, Stats(statsAt, 0, 0, 0, 0))
  }

  /** iperf_start_application, which already sends the first datagram. */
  function Started(p: Perf, now: uint32, statsAt: uint32, x: Transfer): Perf {
    Transferred(Begun(p, now, statsAt), x)
  }

  /** iperf_stop_application leaves a pending start delay alone. */
  function Stopped(p: Perf): Perf {
    p.(running := false)
  }

  predicate StartDue(p: Perf, now: uint32) {
    p.startDelay != 0 && Sub32(now, p.startDelay) > START_DELAY
  }

  function DelayDone(p: Perf, now: uint32): Perf {
    if StartDue(p, now) then p.(running := true, startDelay := 0) else p
  }

  /** iperf_service; `x` is what the transfer meets, if there is one. */
  function Serviced(p: Perf, now: uint32, x: Transfer): Perf {
    var q := DelayDone(p, now);
    if q.running then Transferred(q, x) else q
  }

  /** A transfer stops the sender by an error or after its time, and never touches a pending start. */
  lemma TransferKeeps(p: Perf, x: Transfer)
    ensures var q := Transferred(p, x);
      && q.startDelay == p.startDelay && q.stats.startTime == p.stats.startTime
      && (q.running <==> p.running && !x.attempt.Failed? && !TimeOver(p.stats, x.at))
  {
  }

  class Sender {
    var running: bool
    var startDelay: uint32
    var packetId: uint32
    var startTime: uint32
    var totalBytes: uint32
    var datagrams: uint32
    var reportStart: uint32
    var reportBytes: uint32

    function View(): Perf
      reads this
    {
      Perf(running, startDelay, packetId, Stats(startTime, totalBytes, datagrams, reportStart, reportBytes))
    }

    constructor ()
      ensures View() == OFF
    {
      running, startDelay, packetId := false, 0, 0;
      startTime, totalBytes, datagrams, reportStart, reportBytes := 0, 0, 0, 0, 0;
    }

    method UdpPacketSend(finished: bool, a: Attempt) returns (alive: bool)
      modifies this
      ensures View() == PacketSent(old(View()), finished, a)
      ensures alive <==> !a.Failed?
    {
      alive := true;
      if a.WouldBlock? || a.NoBuffer? || a.NotTaken? {
        return;
      }
      ghost var before := packetId;
      if finished {
        packetId := FINISH_ID;
      } else {
        packetId := Plus(packetId, 1);
      }
      if a.Sent? {
        totalBytes := Plus(totalBytes, UDP_SEND_BUFSIZE);
        datagrams := Plus(datagrams, 1);
        reportBytes := Plus(reportBytes, UDP_SEND_BUFSIZE);
      } else if a.Busy? {
        if !finished {
          assert (packetId - 1) % U32 == before;
          packetId := (packetId - 1) % U32;
        }
      } else {
        running := false;
        alive := false;
      }
    }

    method TransferData(x: Transfer)
      modifies this
      ensures View() == Transferred(old(View()), x)
    {
      if reportStart != 0 {
        if Sub32(x.at, reportStart) >= REPORT_INTERVAL_TIME {
          reportStart := 0;
          reportBytes := 0;
        }
      } else {
        reportStart := x.at;
      }
      if Sub32(x.at, startTime) >= END_TIME {
        var _ := UdpPacketSend(true, x.attempt);
        running := false;
        return;
      }
      var _ := UdpPacketSend(false, x.attempt);
    }

    method StartApplication(now: uint32, statsAt: uint32, x: Transfer)
      modifies this
      ensures View() == Started(old(View()), now, statsAt, x)
    {
      running := false;
      startDelay := now;
      startTime, totalBytes, datagrams := statsAt, 0, 0;
      reportStart, reportBytes := 0, 0;
      TransferData(x);
    }

    method StopApplication()
      modifies this`running
      ensures View() == Stopped(old(View()))
    {
      running := false;
    }

    method Service(now: uint32, x: Transfer)
      modifies this
      ensures View() == Serviced(old(View()), now, x)
    {
      if startDelay != 0 && Sub32(now, startDelay) > START_DELAY {
        startDelay := 0;
        running := true;
      }
      if running {
        TransferData(x);
      }
    }
  }

  // ---------------------------------------------------------------------
  // Any sequence of calls
  // ---------------------------------------------------------------------

  datatype Call =
    | Start(now: uint32, statsAt: uint32, x: Transfer)
    | Stop
    | Service(now: uint32, x: Transfer)

  /**
   * The sender with what an observer remembers of the current session: the number it
   * began with, the numbers of the datagrams the stack has taken, how many attempts
   * failed, the bytes of the interim reports already closed, when the open one began,
   * and whether the time limit has been reached.
   */
  datatype Session = Session(p: Perf, base: uint32, ids: seq<uint32>, failed: nat, reported: nat,
                             open: Option<uint32>, closed: bool)

  const NO_SESSION: Session := Session(OFF, 0, [], 0, 0, None, false)

  /** A report that began at reported time 0 is taken for none. */
  predicate Open(s: Session) {
    s.open.Some? && s.open.value != 0
  }

  /** The interim report has been open for five seconds. */
  predicate Closes(s: Session, at: uint32) {
    Open(s) && Sub32(at, s.open.value) >= 5000
  }

  /** The session has lasted 300 seconds. */
  predicate Expired(s: Session, at: uint32) {
    Sub32(at, s.p.stats.startTime) >= 300000
  }

  /** What the observer sees of a call that tries to send a datagram and leaves the sender at `p`. */
  function Observed(s: Session, p: Perf, x: Transfer): Session {
    Session(p, s.base,
            if x.attempt.Sent? then s.ids + [p.packetId] else s.ids,
            if x.attempt.Failed? then s.failed + 1 else s.failed,
            if Closes(s, x.at) then s.reported + s.p.stats.reportBytes else s.reported,
            if Closes(s, x.at) then None else if Open(s) then s.open else Some(x.at),
            s.closed || Expired(s, x.at))
  }

  /** Every start tries to send, and every service that finds the sender running or due. */
  function Next(s: Session, c: Call): Session {
    match c
    case Start(now, statsAt, x) =>
      var begun := Session(Begun(s.p, now, statsAt), s.p.packetId, [], 0, 0, None, false);
      Observed(begun, Started(s.p, now, statsAt, x), x)
    case Stop => s.(p := Stopped(s.p))
    case Service(now, x) =>
      if DelayDone(s.p, now).running then Observed(s, Serviced(s.p, now, x), x)
      else s.(p := Serviced(s.p, now, x))
  }

  function After(s: Session, calls: seq<Call>): Session {
    if calls == [] then s else var k := |calls| - 1; Next(After(s, calls[..k]), calls[k])
  }

  /** The counts are those of the datagrams taken, and the reports add up to the total. */
  ghost predicate Accounts(s: Session) {
    var t := s.p.stats;
    && t.datagrams == |s.ids| % U32
    && t.totalBytes == (UDP_SEND_BUFSIZE * |s.ids|) % U32
    && t.totalBytes == (s.reported + t.reportBytes) % U32
  }

  /** Datagrams are numbered without gaps, apart from one for every failed attempt. */
  ghost predicate Numbered(s: Session) {
    && s.p.packetId == (s.base + |s.ids| + s.failed) % U32
    && (s.failed == 0 ==> forall k :: 0 <= k < |s.ids| ==> s.ids[k] == (s.base + k + 1) % U32)
  }

  ghost predicate Inv(s: Session) {
    && Accounts(s)
    && (!s.closed ==> Numbered(s))
    && (s.p.running ==> s.p.startDelay == 0)
    && s.p.stats.reportStart == (if s.open.Some? then s.open.value else 0)
  }

  /** One transfer, as the observer sees it. */
  function Follow(s: Session, x: Transfer): Session {
    Observed(s, Transferred(s.p, x), x)
  }

  lemma OneMore(n: nat, unit: nat)
    ensures Plus((unit * n) % U32, unit) == (unit * (n + 1)) % U32
  {
    AddWraps(unit * n, unit);
    assert unit * (n + 1) == unit * n + unit;
  }

  lemma CountsGrow(s: Session, x: Transfer)
    requires Accounts(s)
    ensures var t, n := Follow(s, x).p.stats, |Follow(s, x).ids|;
      t.datagrams == n % U32 && t.totalBytes == (UDP_SEND_BUFSIZE * n) % U32
  {
    OneMore(|s.ids|, 1);
    OneMore(|s.ids|, UDP_SEND_BUFSIZE);
    assert x.attempt.Sent? ==> |Follow(s, x).ids| == |s.ids| + 1;
  }

  lemma PlusAddsUp(total: uint32, reported: nat, bytes: uint32, n: nat)
    requires total == (reported + bytes) % U32
    ensures Plus(total, n) == (reported + bytes + n) % U32 == (reported + Plus(bytes, n)) % U32
  {
    AddWraps(reported + bytes, n);
    AddWraps(bytes + n, reported);
  }

  lemma ReportsAddUp(s: Session, x: Transfer)
    requires Accounts(s) && s.p.stats.reportStart == (if s.open.Some? then s.open.value else 0)
    ensures var u := Follow(s, x);
      u.p.stats.totalBytes == (u.reported + u.p.stats.reportBytes) % U32
  {
    PlusAddsUp(s.p.stats.totalBytes, s.reported, s.p.stats.reportBytes, UDP_SEND_BUFSIZE);
  }

  lemma FollowKeepsAccounts(s: Session, x: Transfer)
    requires Inv(s)
    ensures Accounts(Follow(s, x))
  {
    CountsGrow(s, x);
    ReportsAddUp(s, x);
  }

  lemma FollowKeepsNumbers(s: Session, x: Transfer)
    requires Numbered(s) && !TimeOver(s.p.stats, x.at)
    ensures Numbered(Follow(s, x))
  {
    var n := s.base + |s.ids| + s.failed;
    AddWraps(n, 1);
    assert n % U32 == s.p.packetId;
  }

  lemma NextKeepsInv(s: Session, c: Call)
    requires Inv(s)
    ensures Inv(Next(s, c))
  {
    match c
    case Start(now, statsAt, x) =>
      var b := Session(Begun(s.p, now, statsAt), s.p.packetId, [], 0, 0, None, false);
      FollowKeepsInv(b, x);
      assert Next(s, c) == Follow(b, x);
    case Stop =>
    case Service(now, x) => ServiceKeepsInv(s, now, x);
  }

  lemma DelayKeepsInv(s: Session, now: uint32)
    requires Inv(s)
    ensures Inv(s.(p := DelayDone(s.p, now)))
  {
  }

  lemma ServiceKeepsInv(s: Session, now: uint32, x: Transfer)
    requires Inv(s)
    ensures Inv(Next(s, Service(now, x)))
  {
    var b := s.(p := DelayDone(s.p, now));
    DelayKeepsInv(s, now);
    if b.p.running {
      FollowKeepsInv(b, x);
      assert Next(s, Service(now, x)) == Follow(b, x);
    } else {
      assert Next(s, Service(now, x)) == b;
    }
  }

  lemma FollowKeepsInv(s: Session, x: Transfer)
    requires Inv(s)
    ensures Inv(Follow(s, x))
  {
    FollowKeepsAccounts(s, x);
    if !s.closed && !TimeOver(s.p.stats, x.at) {
      FollowKeepsNumbers(s, x);
    }
  }

  /**
   * For any sequence of starts, stops and services, with any clock readings and any
   * fate of the datagrams: the counts and reports of a session agree with what the
   * stack took, and until the time limit closes it the datagrams are numbered on from
   * the session before, one number apart, however often the stack was busy.
   */
  lemma {:induction false} SessionAddsUp(calls: seq<Call>)
    ensures var s := After(NO_SESSION, calls);
      Accounts(s) && (!s.closed ==> Numbered(s))
    ensures Inv(After(NO_SESSION, calls))
    decreases |calls|
  {
    if calls != [] {
      var k := |calls| - 1;
      SessionAddsUp(calls[..k]);
      NextKeepsInv(After(NO_SESSION, calls[..k]), calls[k]);
    }
  }

  /** A running sender sends: one datagram more in every count if the stack takes it. */
  predicate SentOne(s: Session, s': Session) {
    && |s'.ids| == |s.ids| + 1 && s'.ids[..|s.ids|] == s.ids
    && s'.p.stats.datagrams == (s.p.stats.datagrams + 1) % U32
    && s'.p.stats.totalBytes == (s.p.stats.totalBytes + 1460) % U32
  }

  predicate SentNone(s: Session, s': Session) {
    && s'.ids == s.ids
    && s'.p.stats.datagrams == s.p.stats.datagrams && s'.p.stats.totalBytes == s.p.stats.totalBytes
  }

  /** The sender runs, or its start is more than 10 ms old. */
  predicate Active(p: Perf, now: uint32) {
    p.running || (p.startDelay != 0 && Sub32(now, p.startDelay) > 10)
  }

  /**
   * In every run a service that finds the sender active sends one datagram, which is
   * counted exactly if the stack takes it; and only an error or the 300 seconds stop it
   * then. Any other service leaves everything as it is.
   */
  lemma {:induction false} ActiveSenderSends(calls: seq<Call>, now: uint32, x: Transfer)
    ensures var s := After(NO_SESSION, calls);
      var s' := Next(s, Service(now, x));
      if Active(s.p, now) then
        && (if x.attempt.Sent? then SentOne(s, s') else SentNone(s, s'))
        && (s'.p.running <==> !x.attempt.Failed? && !Expired(s, x.at))
        && s'.p.startDelay == 0
      else s' == s
  {
    SessionAddsUp(calls);
    var s := After(NO_SESSION, calls);
    if Active(s.p, now) {
      var q := DelayDone(s.p, now);
      assert Serviced(s.p, now, x) == Transferred(q, x);
      TransferKeeps(q, x);
      TransferCounts(s.(p := q), x);
    }
  }

  lemma TransferCounts(s: Session, x: Transfer)
    ensures if x.attempt.Sent? then SentOne(s, Follow(s, x)) else SentNone(s, Follow(s, x))
  {
  }

  /**
   * The datagram sent from 300 seconds on is the last of the session: it is numbered
   * 2^32 - 1 if the stack takes it, and no service after it changes anything. Once it
   * has been offered to the stack, the next session numbers its datagrams from 0.
   */
  lemma {:induction false} ClosingIsLast(calls: seq<Call>, now: uint32, x: Transfer, more: seq<Call>)
    requires var s := After(NO_SESSION, calls); Active(s.p, now) && Expired(s, x.at)
    requires OnlyServices(more)
    ensures var s := After(NO_SESSION, calls);
      var s' := Next(s, Service(now, x));
      && After(s', more) == s' && !s'.p.running
      && (x.attempt.Sent? ==> s'.ids == s.ids + [0xFFFF_FFFF])
      && s'.p.packetId == (if x.attempt in {Sent, Busy, Failed} then 0xFFFF_FFFF else s.p.packetId)
  {
    ActiveSenderSends(calls, now, x);
    var s' := Next(After(NO_SESSION, calls), Service(now, x));
    QuietUntilDue(s', more, |more|);
    assert more[..|more|] == more;
  }

  /** A start clears the counts, tries a first datagram and waits to be run. */
  lemma {:induction false} StartSendsFirst(calls: seq<Call>, now: uint32, statsAt: uint32, x: Transfer)
    ensures var s := After(NO_SESSION, calls);
      var s' := Next(s, Start(now, statsAt, x));
      && !s'.p.running && s'.p.startDelay == now && s'.p.stats.startTime == statsAt
      && |s'.ids| == (if x.attempt.Sent? then 1 else 0)
      && s'.p.stats.datagrams == |s'.ids| && s'.p.stats.totalBytes == 1460 * |s'.ids|
  {
  }

  /** No stop and no new start. */
  ghost predicate OnlyServices(calls: seq<Call>) {
    forall k :: 0 <= k < |calls| ==> calls[k].Service?
  }

  /** Some service finds the sender running, or sets it running. */
  ghost predicate Revives(s: Session, calls: seq<Call>)
    requires OnlyServices(calls)
  {
    exists k :: 0 <= k < |calls| && DelayDone(After(s, calls[..k]).p, calls[k].now).running
  }

  ghost predicate EverDue(p: Perf, calls: seq<Call>)
    requires OnlyServices(calls)
  {
    exists k :: 0 <= k < |calls| && StartDue(p, calls[k].now)
  }

  /**
   * On its own the module does not keep a stopped sender stopped: after a stop it runs
   * again exactly if a start was still pending and a later service comes more than 10 ms
   * after that start.
   */
  lemma {:induction false} RevivedIff(before: Session, calls: seq<Call>)
    requires OnlyServices(calls)
    ensures Revives(Next(before, Stop), calls) <==> EverDue(before.p, calls)
  {
    var s := Next(before, Stop);
    if k :| 0 <= k < |calls| && StartDue(s.p, calls[k].now) {
      var first := FirstDue(s.p, calls, k);
      QuietUntilDue(s, calls, first);
      assert DelayDone(After(s, calls[..first]).p, calls[first].now).running;
    } else {
      forall k | 0 <= k < |calls| ensures !DelayDone(After(s, calls[..k]).p, calls[k].now).running {
        QuietUntilDue(s, calls, k);
      }
    }
  }

  lemma {:induction false} FirstDue(p: Perf, calls: seq<Call>, k: nat) returns (first: nat)
    requires OnlyServices(calls) && k < |calls| && StartDue(p, calls[k].now)
    ensures first <= k && StartDue(p, calls[first].now)
    ensures forall j :: 0 <= j < first ==> !StartDue(p, calls[j].now)
    decreases k
  {
    if j :| 0 <= j < k && StartDue(p, calls[j].now) {
      first := FirstDue(p, calls, j);
    } else {
      first := k;
    }
  }

  lemma {:induction false} QuietUntilDue(s: Session, calls: seq<Call>, k: nat)
    requires !s.p.running && OnlyServices(calls) && k <= |calls|
    requires forall j :: 0 <= j < k ==> !StartDue(s.p, calls[j].now)
    ensures After(s, calls[..k]) == s
    decreases k
  {
    if k > 0 {
      QuietUntilDue(s, calls, k - 1);
      assert calls[..k][..k - 1] == calls[..k - 1];
      assert !StartDue(s.p, calls[k - 1].now);
    }
  }
}
