/**
 * The transmit half of tc6-lwip.c: lwIpOut describes a chain of pbufs by an array of
 * segments, without copying, and holds one reference on the chain until the library
 * calls OnRawTx for it.
 */
module TxPath {
  import opened Words

  const TC6_TX_ETH_MAX_SEGMENTS: int := 8

  /** A pbuf chain: the payload of every link, and an identity for the first one. */
  datatype Packet = Packet(id: nat, chain: seq<seq<byte>>) {
    /** p->tot_len, by the invariant pbuf.h states for packet chains. */
    function TotLen(): nat {
      |Concat(chain)|
    }
  }

  datatype Err = ErrOk | ErrIf | ErrWouldBlock

  /** An entry of the library's transmit queue. */
  datatype Entry = Entry(id: nat, segments: seq<seq<byte>>, totalLen: nat)

  /** `refs` counts the references the driver holds, `leaked` those it can never return. */
  datatype Tx = Tx(queue: seq<Entry>, refs: multiset<nat>, leaked: multiset<nat>)

  /** The segments lwIpOut can describe with an array of `maxSeg`. */
  function Segments(chain: seq<seq<byte>>, maxSeg: nat): seq<seq<byte>> {
    if |chain| <= maxSeg then chain else chain[..maxSeg]
  }

  /** lwIpOut; `accepted` is what TC6_SendRawEthernetSegments returns. */
  function Output(s: Tx, resetComplete: bool, p: Packet, maxSeg: nat, accepted: bool): (Tx, Err) {
    if !resetComplete then (s, ErrIf)
    else if maxSeg == 0 then (s, ErrWouldBlock)
    else
      var held := s.(refs := s.refs + multiset{p.id});
      if accepted then
        (held.(queue := s.queue + [Entry(p.id, Segments(p.chain, maxSeg), p.TotLen())]), ErrOk)
      else
        (held.(leaked := s.leaked + multiset{p.id}), ErrIf)
  }

  /** OnRawTx for the k-th entry of the queue. */
  function Completed(s: Tx, k: nat): Tx
    requires k < |s.queue|
  {
    s.(queue := s.queue[..k] + s.queue[k + 1..], refs := s.refs - multiset{s.queue[k].id})
  }

  class Transmitter {
    const txSeg: array<seq<byte>>
    var queue: seq<Entry>
    ghost var refs: multiset<nat>
    ghost var leaked: multiset<nat>

    ghost function View(): Tx
      reads this
    {
      Tx(queue, refs, leaked)
    }

    constructor ()
      ensures View() == Tx([], multiset{}, multiset{})
      ensures fresh(txSeg) && txSeg.Length == TC6_TX_ETH_MAX_SEGMENTS
    {
      txSeg := new seq<byte>[TC6_TX_ETH_MAX_SEGMENTS];
      queue, refs, leaked := [], multiset{}, multiset{};
    }

    /** `maxSeg` is what TC6_GetRawSegments returns: the whole array or nothing. */
    method LwIpOut(resetComplete: bool, p: Packet, maxSeg: uint8, accepted: bool) returns (result: Err)
      requires p.chain != [] && maxSeg in {0, TC6_TX_ETH_MAX_SEGMENTS}
      requires txSeg.Length == TC6_TX_ETH_MAX_SEGMENTS
      modifies this, txSeg
      ensures (View(), result) == Output(old(View()), resetComplete, p, maxSeg, accepted)
      ensures result == ErrOk <==> |queue| == |old(queue)| + 1
    {
      if !resetComplete {
        result := ErrIf;
      } else if maxSeg != 0 {
        refs := refs + multiset{p.id};
        var seg, c, more := 0, 0, true;
        while seg < maxSeg && more
          invariant 0 <= seg <= maxSeg && seg <= |p.chain|
          invariant more ==> c == seg < |p.chain|
          invariant !more ==> seg == |p.chain|
          invariant txSeg[..seg] == p.chain[..seg]
          invariant queue == old(queue) && leaked == old(leaked) && refs == old(refs) + multiset{p.id}
          decreases maxSeg - seg, more
        {
          txSeg[seg] := p.chain[c];
          seg := seg + 1;
          if c + 1 < |p.chain| {
            c := c + 1;
          } else {
            more := false;
          }
        }
        assert txSeg[..seg] == Segments(p.chain, maxSeg);
        if accepted {
          queue := queue + [Entry(p.id, txSeg[..seg], p.TotLen())];
          result := ErrOk;
        } else {
          leaked := leaked + multiset{p.id};
          result := ErrIf;
        }
      } else {
        result := ErrWouldBlock;
      }
    }

    method OnRawTx(k: nat)
      requires k < |queue|
      modifies this
      ensures View() == Completed(old(View()), k)
    {
      refs := refs - multiset{queue[k].id};
      queue := queue[..k] + queue[k + 1..];
    }
  }

  // ---------------------------------------------------------------------
  // Segments
  // ---------------------------------------------------------------------

  /**
   * The segments carry the whole packet, and add up to the announced length, exactly
   * when every link of the chain beyond the size of the array is empty.
   */
  lemma SegmentsCompleteIff(p: Packet, maxSeg: nat)
    ensures Concat(Segments(p.chain, maxSeg)) == Concat(p.chain)
      <==> forall k :: maxSeg <= k < |p.chain| ==> p.chain[k] == []
    ensures |Concat(Segments(p.chain, maxSeg))| == p.TotLen()
      <==> forall k :: maxSeg <= k < |p.chain| ==> p.chain[k] == []
  {
    if maxSeg < |p.chain| {
      var rest := p.chain[maxSeg..];
      ConcatSplits(p.chain, maxSeg);
      ConcatEmpty(rest);
      assert forall k :: maxSeg <= k < |p.chain| ==> p.chain[k] == rest[k - maxSeg];
      assert forall k :: 0 <= k < |rest| ==> rest[k] == p.chain[maxSeg + k];
    }
  }

  // ---------------------------------------------------------------------
  // References over runs
  // ---------------------------------------------------------------------

  datatype Event =
    | Send(resetComplete: bool, p: Packet, maxSeg: nat, accepted: bool)
    | TxDone(k: nat)

  function Next(s: Tx, e: Event): Tx
    requires e.TxDone? ==> e.k < |s.queue|
  {
    match e
    case Send(resetComplete, p, maxSeg, accepted) => Output(s, resetComplete, p, maxSeg, accepted).0
    case TxDone(k) => Completed(s, k)
  }

  predicate Run(events: seq<Event>)
    decreases |events|, 0
  {
    events == [] ||
    (var k := |events| - 1;
     Run(events[..k]) && (events[k].TxDone? ==> events[k].k < |After(events[..k]).queue|))
  }

  function After(events: seq<Event>): Tx
    requires Run(events)
    decreases |events|, 1
  {
    if events == [] then Tx([], multiset{}, multiset{})
    else var k := |events| - 1; Next(After(events[..k]), events[k])
  }

  function Ids(queue: seq<Entry>): (ids: seq<nat>)
    ensures |ids| == |queue| && forall k :: 0 <= k < |queue| ==> ids[k] == queue[k].id
  {
    seq(|queue|, k requires 0 <= k < |queue| => queue[k].id)
  }

  /** One reference per outstanding entry, plus those that can never come back. */
  ghost predicate Balanced(s: Tx) {
    s.refs == multiset(Ids(s.queue)) + s.leaked
  }

  lemma SendBalances(s: Tx, resetComplete: bool, p: Packet, maxSeg: nat, accepted: bool)
    requires Balanced(s)
    ensures Balanced(Output(s, resetComplete, p, maxSeg, accepted).0)
  {
    var s' := Output(s, resetComplete, p, maxSeg, accepted).0;
    if s'.queue != s.queue {
      assert Ids(s'.queue) == Ids(s.queue) + [p.id];
    }
  }

  lemma CompletionBalances(s: Tx, k: nat)
    requires Balanced(s) && k < |s.queue|
    ensures Balanced(Completed(s, k))
  {
    var ids := Ids(s.queue);
    assert Ids(Completed(s, k).queue) == ids[..k] + ids[k + 1..];
    assert ids == ids[..k] + [ids[k]] + ids[k + 1..];
  }

  /**
   * In every run the driver holds one reference for every entry the library still has,
   * plus one for every send the library refused after handing out segments.
   */
  lemma {:induction false} ReferencesMatchQueue(events: seq<Event>)
    requires Run(events)
    ensures Balanced(After(events))
    decreases |events|
  {
    if events != [] {
      var n := |events| - 1;
      var s := After(events[..n]);
      ReferencesMatchQueue(events[..n]);
      match events[n]
      case Send(resetComplete, p, maxSeg, accepted) => SendBalances(s, resetComplete, p, maxSeg, accepted);
      case TxDone(k) => CompletionBalances(s, k);
    }
  }

  /** The library refuses a send after it has handed out segments. */
  predicate Refused(e: Event) {
    e.Send? && e.resetComplete && e.maxSeg != 0 && !e.accepted
  }

  ghost predicate NeverRefused(events: seq<Event>) {
    forall k :: 0 <= k < |events| ==> !Refused(events[k])
  }

  /** References leak exactly through such sends, and for good. */
  lemma {:induction false} LeakedIffRefused(events: seq<Event>)
    requires Run(events)
    ensures After(events).leaked == multiset{} <==> NeverRefused(events)
    decreases |events|
  {
    if events != [] {
      var n := |events| - 1;
      LeakedIffRefused(events[..n]);
      NeverRefusedSplits(events);
      LeakGrows(After(events[..n]), events[n]);
    }
  }

  lemma NeverRefusedSplits(events: seq<Event>)
    requires events != []
    ensures var n := |events| - 1;
      NeverRefused(events) <==> NeverRefused(events[..n]) && !Refused(events[n])
  {
    var n := |events| - 1;
    assert events == events[..n] + [events[n]];
  }

  lemma LeakGrows(s: Tx, e: Event)
    requires e.TxDone? ==> e.k < |s.queue|
    ensures Next(s, e).leaked == multiset{} <==> s.leaked == multiset{} && !Refused(e)
  {
    if Refused(e) {
      assert e.p.id in Next(s, e).leaked;
    }
  }

  /**
   * The driver holds exactly one reference for every entry the library still has if and
   * only if the library never refused a send after handing out segments.
   */
  lemma {:induction false} NothingLeaksIff(events: seq<Event>)
    requires Run(events)
    ensures After(events).refs == multiset(Ids(After(events).queue)) <==> NeverRefused(events)
  {
    var s := After(events);
    ReferencesMatchQueue(events);
    LeakedIffRefused(events);
    if s.refs == multiset(Ids(s.queue)) {
      assert s.leaked == s.refs - multiset(Ids(s.queue)) == multiset{};
    }
  }

  // ---------------------------------------------------------------------
  // What leaves
  // ---------------------------------------------------------------------

  /** The send reached the library, and the library took it. */
  predicate Taken(e: Event) {
    e.Send? && e.resetComplete && e.maxSeg > 0 && e.accepted
  }

  /** For every entry the library still has, the event that queued it. */
  function Sources(events: seq<Event>): seq<nat>
    requires Run(events)
    ensures |Sources(events)| == |After(events).queue|
    decreases |events|
  {
    if events == [] then []
    else
      var n := |events| - 1;
      var before := Sources(events[..n]);
      match events[n]
      case Send(_, _, _, _) => if Taken(events[n]) then before + [n] else before
      case TxDone(k) => before[..k] + before[k + 1..]
  }

  /** One segment for each link, as many as there is room for, and the length of the whole chain. */
  predicate Describes(q: Entry, p: Packet, maxSeg: nat) {
    && q.id == p.id && q.totalLen == |Concat(p.chain)|
    && |q.segments| == (if |p.chain| < maxSeg then |p.chain| else maxSeg)
    && forall j :: 0 <= j < |q.segments| ==> q.segments[j] == p.chain[j]
  }

  ghost predicate SourceOf(events: seq<Event>, q: Entry, k: nat) {
    k < |events| && Taken(events[k]) && Describes(q, events[k].p, events[k].maxSeg)
  }

  ghost predicate AllSourced(events: seq<Event>, queue: seq<Entry>, sources: seq<nat>)
    requires |queue| == |sources|
  {
    forall i :: 0 <= i < |queue| ==> SourceOf(events, queue[i], sources[i])
  }

  lemma StillSource(events: seq<Event>, q: Entry, k: nat)
    requires events != [] && SourceOf(events[..|events| - 1], q, k)
    ensures SourceOf(events, q, k)
  {
  }

  lemma OutputDescribes(s: Tx, e: Event)
    requires Taken(e)
    ensures |Next(s, e).queue| == |s.queue| + 1 && Next(s, e).queue[..|s.queue|] == s.queue
    ensures Describes(Next(s, e).queue[|s.queue|], e.p, e.maxSeg)
  {
  }

  lemma AllStillSourced(events: seq<Event>, queue: seq<Entry>, sources: seq<nat>)
    requires events != [] && |queue| == |sources| && AllSourced(events[..|events| - 1], queue, sources)
    ensures AllSourced(events, queue, sources)
  {
    forall i | 0 <= i < |queue| ensures SourceOf(events, queue[i], sources[i]) {
      StillSource(events, queue[i], sources[i]);
    }
  }

  lemma RemovalKeepsSources(events: seq<Event>, queue: seq<Entry>, sources: seq<nat>, k: nat)
    requires |queue| == |sources| && k < |queue| && AllSourced(events, queue, sources)
    ensures AllSourced(events, queue[..k] + queue[k + 1..], sources[..k] + sources[k + 1..])
  {
    var q', s' := queue[..k] + queue[k + 1..], sources[..k] + sources[k + 1..];
    forall i | 0 <= i < |q'| ensures SourceOf(events, q'[i], s'[i]) {
      var j := if i < k then i else i + 1;
      assert q'[i] == queue[j] && s'[i] == sources[j];
    }
  }

  lemma {:induction false} EveryEntryIsSourced(events: seq<Event>)
    requires Run(events)
    ensures AllSourced(events, After(events).queue, Sources(events))
    decreases |events|
  {
    if events != [] {
      var n := |events| - 1;
      EveryEntryIsSourced(events[..n]);
      var s, sources := After(events[..n]), Sources(events[..n]);
      AllStillSourced(events, s.queue, sources);
      if events[n].TxDone? {
        RemovalKeepsSources(events, s.queue, sources, events[n].k);
      } else if Taken(events[n]) {
        OutputDescribes(s, events[n]);
        NewIsSourced(events, s.queue, sources, Next(s, events[n]).queue);
      }
    }
  }

  lemma NewIsSourced(events: seq<Event>, queue: seq<Entry>, sources: seq<nat>, queue': seq<Entry>)
    requires |queue| == |sources| && AllSourced(events, queue, sources) && events != []
    requires |queue'| == |queue| + 1 && queue'[..|queue|] == queue
    requires SourceOf(events, queue'[|queue|], |events| - 1)
    ensures AllSourced(events, queue', sources + [|events| - 1])
  {
    forall i | 0 <= i < |queue| ensures queue'[i] == queue[i] {
      assert queue'[..|queue|][i] == queue[i];
    }
  }

  /**
   * In every run each entry of the queue comes from a send of its own that the library
   * took: it announces the length of that packet, and its segments hold the packet if
   * and only if every link beyond the size of the array is empty.
   */
  lemma {:induction false} QueueHoldsPackets(events: seq<Event>, i: nat)
    requires Run(events) && i < |After(events).queue|
    ensures var q, k := After(events).queue[i], Sources(events)[i];
      && k < |events| && Taken(events[k]) && Describes(q, events[k].p, events[k].maxSeg)
      && (Concat(q.segments) == Concat(events[k].p.chain) <==>
            forall j :: events[k].maxSeg <= j < |events[k].p.chain| ==> events[k].p.chain[j] == [])
  {
    EveryEntryIsSourced(events);
    var q, k := After(events).queue[i], Sources(events)[i];
    assert SourceOf(events, q, k);
    DescribedIsComplete(q, events[k].p, events[k].maxSeg);
  }

  lemma DescribedIsComplete(q: Entry, p: Packet, maxSeg: nat)
    requires Describes(q, p, maxSeg)
    ensures Concat(q.segments) == Concat(p.chain) <==> forall j :: maxSeg <= j < |p.chain| ==> p.chain[j] == []
  {
    assert q.segments == Segments(p.chain, maxSeg);
    SegmentsCompleteIff(p, maxSeg);
  }

  ghost predicate Increasing(sources: seq<nat>, end: nat) {
    && (forall i :: 0 <= i < |sources| ==> sources[i] < end)
    && (forall i, j :: 0 <= i < j < |sources| ==> sources[i] < sources[j])
  }

  /** No event queues two entries, and the entries keep the order of their sends. */
  lemma {:induction false} SourcesDiffer(events: seq<Event>)
    requires Run(events)
    ensures Increasing(Sources(events), |events|)
    decreases |events|
  {
    if events != [] {
      var n := |events| - 1;
      SourcesDiffer(events[..n]);
      if events[n].TxDone? { RemovalKeepsOrder(Sources(events[..n]), n, events[n].k); }
    }
  }

  lemma RemovalKeepsOrder(sources: seq<nat>, end: nat, k: nat)
    requires Increasing(sources, end) && k < |sources|
    ensures Increasing(sources[..k] + sources[k + 1..], end + 1)
  {
    var rest := sources[..k] + sources[k + 1..];
    forall i | 0 <= i < |rest| ensures rest[i] == sources[if i < k then i else i + 1] {
    }
  }

  /** What lwIpOut answers: success exactly if it added an entry, "busy" exactly for want of an array. */
  lemma AnswerMeans(s: Tx, resetComplete: bool, p: Packet, maxSeg: nat, accepted: bool)
    ensures var (s', answer) := Output(s, resetComplete, p, maxSeg, accepted);
      && (answer == ErrOk <==> |s'.queue| == |s.queue| + 1)
      && (answer == ErrOk <==> s'.queue != s.queue)
      && (answer == ErrWouldBlock <==> resetComplete && maxSeg == 0)
  {
  }
}
