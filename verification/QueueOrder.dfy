/**
 * First in, first out: what the stages of a ring have passed on, net of what
 * they have taken back.
 */
module QueueOrder {
  import opened Words
  import opened StageQueue

  /** Stage and entry, in the order in which stages passed entries on. */
  type Log = seq<(nat, int)>

  /** Drops the last occurrence of `e`, if there is one. */
  function Remove(log: Log, e: (nat, int)): Log {
    if log == [] then []
    else
      var k := |log| - 1;
      if log[k] == e then log[..k] else Remove(log[..k], e) + [log[k]]
  }

  /** A done step logs the stage's entry; an undo drops the entry before it from the log. */
  function NetStep<T>(log: Log, c: seq<int>, op: Op<T>): Log
    requires op.stage < |c|
  {
    match op
    case Write(_, _) => log
    case Done(i) => log + [(i, c[i])]
    case Undo(i) => Remove(log, (i, c[i] - 1))
  }

  /** What the stages have passed on in a run and not taken back. */
  function Net<T>(c: seq<int>, ops: seq<Op<T>>): Log
    requires Fits(|c|, ops)
  {
    if ops == [] then []
    else var k := |ops| - 1; NetStep(Net(c, ops[..k]), Counts(c, ops[..k]), ops[k])
  }

  /** Every done step of a run, taken back or not. */
  function Passes<T>(c: seq<int>, ops: seq<Op<T>>): Log
    requires Fits(|c|, ops)
  {
    if ops == [] then []
    else
      var k := |ops| - 1;
      Passes(c, ops[..k]) +
      (if ops[k].Done? then [(ops[k].stage, Counts(c, ops[..k])[ops[k].stage])] else [])
  }

  /** A stage takes back only what it has passed on. */
  ghost predicate Grounded<T>(c: seq<int>, ops: seq<Op<T>>)
    requires Fits(|c|, ops)
  {
    forall k :: 0 <= k < |ops| && ops[k].Undo? ==> Counts(c, ops[..k])[ops[k].stage] > 0
  }

  /** No stage passes on an entry before the first. */
  ghost predicate Forward<T>(c: seq<int>, ops: seq<Op<T>>)
    requires Fits(|c|, ops)
  {
    forall k :: 0 <= k < |ops| && ops[k].Done? ==> Counts(c, ops[..k])[ops[k].stage] >= 0
  }

  /** The entries a stage has passed on, in order. */
  function OfStage(log: Log, i: nat): seq<int> {
    if log == [] then []
    else OfStage(log[..|log| - 1], i) +
         (if log[|log| - 1].0 == i then [log[|log| - 1].1] else [])
  }

  function FirstEntries(n: nat): (s: seq<int>)
    ensures |s| == n && forall k :: 0 <= k < n ==> s[k] == k
  {
    seq(n, k => k)
  }

  function AtLeastZero(n: int): nat {
    if n < 0 then 0 else n
  }

  /** Stage i has passed on the entries 0, 1, ..., c[i] - 1, each once and in this order. */
  ghost predicate Fifo(log: Log, c: seq<int>) {
    forall i :: 0 <= i < |c| ==> OfStage(log, i) == FirstEntries(AtLeastZero(c[i]))
  }

  /** Nothing reaches a stage before the previous stage has passed it on. */
  predicate Sequential(log: Log) {
    log == [] ||
    (var k := |log| - 1;
     Sequential(log[..k]) && (log[k].0 > 0 ==> (log[k].0 - 1, log[k].1) in log[..k]))
  }

  ghost predicate StagesBelow(log: Log, n: nat) {
    forall e :: e in log ==> e.0 < n
  }

  ghost predicate InOrder(log: Log, c: seq<int>) {
    Fifo(log, c) && Sequential(log) && StagesBelow(log, |c|)
  }

  // ---------------------------------------------------------------------
  // Passing on
  // ---------------------------------------------------------------------

  lemma PassKeepsFifo(log: Log, c: seq<int>, i: nat)
    requires Fifo(log, c) && i < |c| && c[i] >= 0
    ensures Fifo(log + [(i, c[i])], c[i := c[i] + 1])
  {
    var log', c' := log + [(i, c[i])], c[i := c[i] + 1];
    assert log'[..|log|] == log;
    forall j | 0 <= j < |c'|
      ensures OfStage(log', j) == FirstEntries(AtLeastZero(c'[j]))
    {
      assert OfStage(log, j) == FirstEntries(AtLeastZero(c[j]));
      if j == i { assert FirstEntries(c[i]) + [c[i]] == FirstEntries(c[i] + 1); }
    }
  }

  lemma HasPassed(log: Log, c: seq<int>, i: nat, n: nat)
    requires Fifo(log, c) && i < |c| && n < c[i]
    ensures (i, n) in log
  {
    assert OfStage(log, i) == FirstEntries(c[i]);
    assert FirstEntries(c[i])[n] == n;
    OfStageMeansIn(log, i, n);
  }

  lemma PassKeepsSequence(log: Log, c: seq<int>, i: nat)
    requires Fifo(log, c) && Sequential(log) && i < |c| && c[i] >= 0
    requires i > 0 ==> c[i - 1] > c[i]
    ensures Sequential(log + [(i, c[i])])
  {
    if i > 0 { HasPassed(log, c, i - 1, c[i]); }
    AppendKeepsSequence(log, (i, c[i]));
  }

  lemma AppendKeepsSequence(log: Log, e: (nat, int))
    requires Sequential(log) && (e.0 > 0 ==> (e.0 - 1, e.1) in log)
    ensures Sequential(log + [e])
  {
    assert (log + [e])[..|log|] == log;
  }

  lemma {:induction false} OfStageMeansIn(log: Log, i: nat, n: int)
    ensures n in OfStage(log, i) <==> (i, n) in log
    decreases |log|
  {
    if log != [] {
      var k := |log| - 1;
      OfStageMeansIn(log[..k], i, n);
      assert log == log[..k] + [log[k]];
    }
  }

  // ---------------------------------------------------------------------
  // Taking back
  // ---------------------------------------------------------------------

  lemma {:induction false} RemoveIn(log: Log, e: (nat, int), x: (nat, int))
    ensures x in Remove(log, e) ==> x in log
    ensures x in log && x != e ==> x in Remove(log, e)
    decreases |log|
  {
    if log != [] {
      var k := |log| - 1;
      RemoveIn(log[..k], e, x);
      assert log == log[..k] + [log[k]];
    }
  }

  lemma {:induction false} RemoveAbsent(log: Log, e: (nat, int))
    requires e !in log
    ensures Remove(log, e) == log
    decreases |log|
  {
    if log != [] {
      var k := |log| - 1;
      RemoveAbsent(log[..k], e);
      assert log == log[..k] + [log[k]];
    }
  }

  lemma {:induction false} RemoveOfOtherStage(log: Log, e: (nat, int), j: nat)
    requires j != e.0
    ensures OfStage(Remove(log, e), j) == OfStage(log, j)
    decreases |log|
  {
    if log != [] {
      var k := |log| - 1;
      RemoveOfOtherStage(log[..k], e, j);
      if log[k] != e {
        assert Remove(log, e)[..|Remove(log, e)| - 1] == Remove(log[..k], e);
      }
    }
  }

  lemma {:induction false} RemoveNewest(log: Log, i: nat, n: int, before: seq<int>)
    requires OfStage(log, i) == before + [n]
    ensures OfStage(Remove(log, (i, n)), i) == before
    decreases |log|
  {
    var k := |log| - 1;
    if log[k].0 == i {
      assert (before + [n])[..|before|] == before;
      assert OfStage(log[..k], i) == OfStage(log, i)[..|before|];
    } else {
      RemoveNewest(log[..k], i, n, before);
      assert Remove(log, (i, n))[..|Remove(log, (i, n))| - 1] == Remove(log[..k], (i, n));
    }
  }

  lemma {:induction false} RemoveKeepsSequence(log: Log, e: (nat, int))
    requires Sequential(log) && (e.0 + 1, e.1) !in log
    ensures Sequential(Remove(log, e))
    decreases |log|
  {
    if log != [] {
      var k := |log| - 1;
      if log[k] != e {
        RemoveKeepsSequence(log[..k], e);
        RemoveKeepsReason(log[..k], e, log[k]);
        AppendKeepsSequence(Remove(log[..k], e), log[k]);
      }
    }
  }

  /** The entry that let `x` into the log stays, unless it is `e` itself. */
  lemma RemoveKeepsReason(log: Log, e: (nat, int), x: (nat, int))
    requires (x.0 > 0 ==> (x.0 - 1, x.1) in log) && x != (e.0 + 1, e.1)
    ensures x.0 > 0 ==> (x.0 - 1, x.1) in Remove(log, e)
  {
    if x.0 > 0 {
      RemoveIn(log, e, (x.0 - 1, x.1));
    }
  }

  /** Taking back an entry that was never passed on changes nothing in the log. */
  lemma UndoKeepsFifo(log: Log, c: seq<int>, i: nat)
    requires Fifo(log, c) && i < |c|
    ensures Fifo(Remove(log, (i, c[i] - 1)), c[i := c[i] - 1])
  {
    var log', c' := Remove(log, (i, c[i] - 1)), c[i := c[i] - 1];
    forall j | 0 <= j < |c'|
      ensures OfStage(log', j) == FirstEntries(AtLeastZero(c'[j]))
    {
      assert OfStage(log, j) == FirstEntries(AtLeastZero(c[j]));
      if j != i {
        RemoveOfOtherStage(log, (i, c[i] - 1), j);
      } else if c[i] > 0 {
        assert FirstEntries(c[i]) == FirstEntries(c[i] - 1) + [c[i] - 1];
        RemoveNewest(log, i, c[i] - 1, FirstEntries(c[i] - 1));
      } else {
        OfStageMeansIn(log, i, c[i] - 1);
        RemoveAbsent(log, (i, c[i] - 1));
      }
    }
  }

  /** The entry taken back has not gone further, because the next stage still sees it. */
  lemma NotYetFurther(log: Log, c: seq<int>, i: nat)
    requires Fifo(log, c) && StagesBelow(log, |c|) && i < |c|
    requires i + 1 < |c| ==> c[i] > c[i + 1]
    ensures (i + 1, c[i] - 1) !in log
  {
    if i + 1 < |c| {
      OfStageMeansIn(log, i + 1, c[i] - 1);
      assert OfStage(log, i + 1) == FirstEntries(AtLeastZero(c[i + 1]));
    }
  }

  lemma RemoveKeepsStages(log: Log, e: (nat, int), n: nat)
    requires StagesBelow(log, n)
    ensures StagesBelow(Remove(log, e), n)
  {
    forall x | x in Remove(log, e) ensures x.0 < n {
      RemoveIn(log, e, x);
    }
  }

  // ---------------------------------------------------------------------
  // Runs
  // ---------------------------------------------------------------------

  /** What the guards say about the neighbouring counters. */
  lemma GuardSeparates<T>(r: Ring<T>, c: seq<int>, op: Op<T>)
    requires Tracks(r, c) && op.stage < |c| && Guard(r, op)
    ensures op.Done? && op.stage > 0 ==> c[op.stage - 1] > c[op.stage]
    ensures op.Undo? && op.stage + 1 < |c| ==> c[op.stage] > c[op.stage + 1]
  {
    CodeMeansCounters(r.size, c, if op.Undo? then NextStage(|c|, op.stage) else op.stage);
  }

  lemma PassKeepsOrder(log: Log, c: seq<int>, i: nat)
    requires InOrder(log, c) && i < |c| && c[i] >= 0
    requires i > 0 ==> c[i - 1] > c[i]
    ensures InOrder(log + [(i, c[i])], c[i := c[i] + 1])
  {
    PassKeepsFifo(log, c, i);
    PassKeepsSequence(log, c, i);
  }

  lemma UndoKeepsOrder(log: Log, c: seq<int>, i: nat)
    requires InOrder(log, c) && i < |c|
    requires i + 1 < |c| ==> c[i] > c[i + 1]
    ensures InOrder(Remove(log, (i, c[i] - 1)), c[i := c[i] - 1])
  {
    UndoKeepsFifo(log, c, i);
    NotYetFurther(log, c, i);
    RemoveKeepsSequence(log, (i, c[i] - 1));
    RemoveKeepsStages(log, (i, c[i] - 1), |c|);
  }

  lemma StepKeepsOrder<T>(log: Log, c: seq<int>, op: Op<T>)
    requires InOrder(log, c) && op.stage < |c|
    requires op.Done? ==> c[op.stage] >= 0 && (op.stage > 0 ==> c[op.stage - 1] > c[op.stage])
    requires op.Undo? && op.stage + 1 < |c| ==> c[op.stage] > c[op.stage + 1]
    ensures InOrder(NetStep(log, c, op), Count(c, op))
  {
    var log', c' := NetStep(log, c, op), Count(c, op);
    match op
    case Write(_, _) =>
      assert log' == log && c' == c;
    case Done(i) =>
      PassKeepsOrder(log, c, i);
      assert log' == log + [(i, c[i])] && c' == c[i := c[i] + 1];
    case Undo(i) =>
      UndoKeepsOrder(log, c, i);
      assert log' == Remove(log, (i, c[i] - 1)) && c' == c[i := c[i] - 1];
  }

  lemma {:induction false} RunKeepsOrder<T>(r: Ring<T>, c: seq<int>, ops: seq<Op<T>>)
    requires Tracks(r, c) && Fits(|c|, ops) && Run(r, ops) && c == Zeros(|c|) && Forward(c, ops)
    ensures InOrder(Net(c, ops), Counts(c, ops))
    decreases |ops|
  {
    if ops != [] {
      var k := |ops| - 1;
      ForwardPrefix(c, ops, k);
      RunKeepsOrder(r, c, ops[..k]);
      RunTracks(r, c, ops[..k]);
      GuardSeparates(After(r, ops[..k]), Counts(c, ops[..k]), ops[k]);
      StepKeepsOrder(Net(c, ops[..k]), Counts(c, ops[..k]), ops[k]);
    }
  }

  lemma ForwardPrefix<T>(c: seq<int>, ops: seq<Op<T>>, k: nat)
    requires Fits(|c|, ops) && Forward(c, ops) && k <= |ops|
    ensures Forward(c, ops[..k])
  {
    forall j | 0 <= j < k && ops[..k][j].Done?
      ensures Counts(c, ops[..k][..j])[ops[..k][j].stage] >= 0
    {
      assert ops[..k][..j] == ops[..j] && ops[..k][j] == ops[j];
    }
  }

  /**
   * From an empty queue and in any interleaving of guarded done and undo steps: net of
   * what was taken back, stage i has passed on exactly the entries 0, 1, 2, ... in that
   * order, and each of them only after stage i - 1 had, provided no stage passes on an
   * entry before the first, which takes an undo of something it never passed on.
   */
  lemma EntriesPassInOrder<T>(r: Ring<T>, c: seq<int>, ops: seq<Op<T>>)
    requires Tracks(r, c) && Fits(|c|, ops) && Run(r, ops) && c == Zeros(|c|) && Forward(c, ops)
    ensures Fifo(Net(c, ops), Counts(c, ops))
    ensures Sequential(Net(c, ops))
  {
    RunKeepsOrder(r, c, ops);
  }

  /** Read off the log alone: every stage passed on the first entries, each after the stage before. */
  ghost predicate LogInOrder(log: Log, n: nat) {
    (forall i :: 0 <= i < n ==> OfStage(log, i) == FirstEntries(|OfStage(log, i)|)) && Sequential(log)
  }

  /** The log is in order at this point of a run. */
  ghost predicate InOrderAt<T>(c: seq<int>, ops: seq<Op<T>>, k: nat)
    requires Fits(|c|, ops) && k <= |ops|
  {
    LogInOrder(Net(c, ops[..k]), |c|)
  }

  /** That proviso is exact: the log of a run is in order throughout if and only if it holds. */
  lemma InOrderIffForward<T>(r: Ring<T>, c: seq<int>, ops: seq<Op<T>>)
    requires Tracks(r, c) && Fits(|c|, ops) && Run(r, ops) && c == Zeros(|c|)
    ensures Forward(c, ops) <==> forall k :: 0 <= k <= |ops| ==> InOrderAt(c, ops, k)
  {
    if Forward(c, ops) {
      forall k | 0 <= k <= |ops| ensures InOrderAt(c, ops, k) {
        RunPrefix(r, ops, k);
        ForwardPrefix(c, ops, k);
        RunKeepsOrder(r, c, ops[..k]);
        FifoShows(Net(c, ops[..k]), Counts(c, ops[..k]));
      }
    } else {
      var k :| 0 <= k < |ops| && ops[k].Done? && Counts(c, ops[..k])[ops[k].stage] < 0;
      UptoSplits(ops, k);
      LastBreaks(c, ops[..k + 1]);
      assert !InOrderAt(c, ops, k + 1);
    }
  }

  lemma FifoShows(log: Log, c: seq<int>)
    requires InOrder(log, c)
    ensures LogInOrder(log, |c|)
  {
    forall i | 0 <= i < |c| ensures OfStage(log, i) == FirstEntries(|OfStage(log, i)|) {
      assert OfStage(log, i) == FirstEntries(AtLeastZero(c[i]));
    }
  }

  lemma UptoSplits<T>(ops: seq<Op<T>>, k: nat)
    requires k < |ops|
    ensures ops[..k + 1][..k] == ops[..k] && ops[..k + 1][k] == ops[k]
  {
  }

  lemma LastBreaks<T>(c: seq<int>, ops: seq<Op<T>>)
    requires Fits(|c|, ops) && ops != []
    requires var k := |ops| - 1; ops[k].Done? && Counts(c, ops[..k])[ops[k].stage] < 0
    ensures !LogInOrder(Net(c, ops), |c|)
  {
    var k := |ops| - 1;
    var log, i := Net(c, ops[..k]), ops[k].stage;
    NegativeSpoils(log, i, Counts(c, ops[..k])[i], |c|);
  }

  lemma NegativeSpoils(log: Log, i: nat, n: int, stages: nat)
    requires i < stages && n < 0
    ensures !LogInOrder(log + [(i, n)], stages)
  {
    var log', before := log + [(i, n)], OfStage(log, i);
    assert OfStage(log', i) == before + [n] by {
      assert log'[..|log|] == log;
    }
    NegativeIsNotFirst(before, n);
  }

  lemma NegativeIsNotFirst(out: seq<int>, n: int)
    requires n < 0
    ensures out + [n] != FirstEntries(|out + [n]|)
  {
    assert (out + [n])[|out|] == n;
  }

  /** Every counter is the number of entries its stage has passed on. */
  ghost predicate CountsLog(log: Log, c: seq<int>) {
    forall i :: 0 <= i < |c| ==> c[i] == |OfStage(log, i)|
  }

  ghost predicate CountsLogAt<T>(c: seq<int>, ops: seq<Op<T>>, k: nat)
    requires Fits(|c|, ops) && k <= |ops|
  {
    CountsLog(Net(c, ops[..k]), Counts(c, ops[..k]))
  }

  /**
   * The counters say how many entries were passed on, net, throughout a run if and only
   * if no stage takes back what it never passed on.
   */
  lemma CountedIffGrounded<T>(r: Ring<T>, c: seq<int>, ops: seq<Op<T>>)
    requires Tracks(r, c) && Fits(|c|, ops) && Run(r, ops) && c == Zeros(|c|)
    ensures Grounded(c, ops) <==> forall k :: 0 <= k <= |ops| ==> CountsLogAt(c, ops, k)
  {
    if Grounded(c, ops) {
      forall k | 0 <= k <= |ops| ensures CountsLogAt(c, ops, k) {
        RunPrefix(r, ops, k);
        GroundedPrefix(c, ops, k);
        GroundedIsForward(c, ops[..k]);
        RunKeepsOrder(r, c, ops[..k]);
        FifoCounts(Net(c, ops[..k]), Counts(c, ops[..k]));
      }
    } else {
      var k :| 0 <= k < |ops| && ops[k].Undo? && Counts(c, ops[..k])[ops[k].stage] <= 0;
      CountsStep(c, ops, k);
      assert Counts(c, ops[..k + 1])[ops[k].stage] < 0;
      assert !CountsLogAt(c, ops, k + 1);
    }
  }

  lemma FifoCounts(log: Log, c: seq<int>)
    requires Fifo(log, c) && forall i :: 0 <= i < |c| ==> c[i] >= 0
    ensures CountsLog(log, c)
  {
    forall i | 0 <= i < |c| ensures c[i] == |OfStage(log, i)| {
      assert OfStage(log, i) == FirstEntries(AtLeastZero(c[i]));
    }
  }

  lemma GroundedPrefix<T>(c: seq<int>, ops: seq<Op<T>>, k: nat)
    requires Fits(|c|, ops) && Grounded(c, ops) && k <= |ops|
    ensures Grounded(c, ops[..k])
  {
    forall j | 0 <= j < k && ops[..k][j].Undo?
      ensures Counts(c, ops[..k][..j])[ops[..k][j].stage] > 0
    {
      assert ops[..k][..j] == ops[..j] && ops[..k][j] == ops[j];
    }
  }

  lemma {:induction false} GroundedStaysUp<T>(c: seq<int>, ops: seq<Op<T>>, i: nat)
    requires Fits(|c|, ops) && Grounded(c, ops) && c == Zeros(|c|) && i < |c|
    ensures Counts(c, ops)[i] >= 0
    decreases |ops|
  {
    if ops != [] {
      var k := |ops| - 1;
      GroundedPrefix(c, ops, k);
      GroundedStaysUp(c, ops[..k], i);
    }
  }

  /** A run that takes back only what was passed on never passes on an entry before the first. */
  lemma GroundedIsForward<T>(c: seq<int>, ops: seq<Op<T>>)
    requires Fits(|c|, ops) && Grounded(c, ops) && c == Zeros(|c|)
    ensures Forward(c, ops)
    ensures forall i :: 0 <= i < |c| ==> Counts(c, ops)[i] >= 0
  {
    forall k | 0 <= k < |ops| && ops[k].Done? ensures Counts(c, ops[..k])[ops[k].stage] >= 0 {
      GroundedPrefix(c, ops, k);
      GroundedStaysUp(c, ops[..k], ops[k].stage);
    }
    forall i | 0 <= i < |c| ensures Counts(c, ops)[i] >= 0 {
      GroundedStaysUp(c, ops, i);
    }
  }

  lemma CountsStep<T>(c: seq<int>, ops: seq<Op<T>>, k: nat)
    requires Fits(|c|, ops) && k < |ops|
    ensures Counts(c, ops[..k + 1]) == Count(Counts(c, ops[..k]), ops[k])
  {
    UptoSplits(ops, k);
  }

  /** Only the last stage can violate that: the guard of any other undo already implies it. */
  lemma OnlyLastStageUngrounded<T>(r: Ring<T>, c: seq<int>, op: Op<T>)
    requires Tracks(r, c) && op.stage + 1 < |c| && op.Undo? && Guard(r, op)
    requires c[|c| - 1] >= 0
    ensures c[op.stage] > 0
  {
    CodeMeansCounters(r.size, c, op.stage + 1);
  }

  /** If nothing is taken back, the net log is the log of all done steps. */
  lemma {:induction false} NetWithoutUndo<T>(c: seq<int>, ops: seq<Op<T>>)
    requires Fits(|c|, ops) && forall k :: 0 <= k < |ops| ==> !ops[k].Undo?
    ensures Net(c, ops) == Passes(c, ops) && Grounded(c, ops)
    decreases |ops|
  {
    if ops != [] {
      NetWithoutUndo(c, ops[..|ops| - 1]);
    }
  }

  lemma {:induction false} PassedStageBefore(log: Log, i: nat, n: int)
    requires Sequential(log) && (i, n) in log && i > 0
    ensures (i - 1, n) in log
    decreases |log|
  {
    var k := |log| - 1;
    if log[k] != (i, n) {
      PassedStageBefore(log[..k], i, n);
    }
  }

  /** An entry that has left stage i has been through every stage before it. */
  lemma {:induction false} PassedEveryStage(log: Log, i: nat, n: int, j: nat)
    requires Sequential(log) && (i, n) in log && j <= i
    ensures (j, n) in log
    decreases i
  {
    if j < i {
      PassedStageBefore(log, i, n);
      PassedEveryStage(log, i - 1, n, j);
    }
  }

  // ---------------------------------------------------------------------
  // The three generated queues
  // ---------------------------------------------------------------------

  const QTXETH_STAGES: nat := 2
  const QSPIBUF_STAGES: nat := 3
  const REGOP_STAGES: nat := 7

  const TC6_TX_ETH_QSIZE: uint8 := 4
  const SPI_FULL_BUFFERS: uint8 := 1
  const REG_OP_ARRAY_SIZE: uint8 := 4

  predicate Configured(stages: nat, size: uint8) {
    (stages, size) in {(QTXETH_STAGES, TC6_TX_ETH_QSIZE), (QSPIBUF_STAGES, SPI_FULL_BUFFERS),
                       (REGOP_STAGES, REG_OP_ARRAY_SIZE)}
  }

  lemma ConfiguredIsLegal(stages: nat, size: uint8)
    requires Configured(stages, size)
    ensures stages >= 2 && LegalSize(size)
  {
    assert Pow2(0) == 1 && Pow2(2) == 4;
  }

  /** What left the last stage are the first entries in order, and each has passed every stage. */
  ghost predicate LeavesInOrder(log: Log, stages: nat)
    requires stages > 0
  {
    var out := OfStage(log, stages - 1);
    && out == FirstEntries(|out|)
    && forall n, j :: n in out && 0 <= j < stages ==> (j, n) in log
  }

  lemma OutputInOrder(log: Log, c: seq<int>)
    requires InOrder(log, c) && c != []
    ensures LeavesInOrder(log, |c|)
  {
    var last := |c| - 1;
    assert OfStage(log, last) == FirstEntries(AtLeastZero(c[last]));
    forall n, j | n in OfStage(log, last) && 0 <= j < |c| ensures (j, n) in log {
      OfStageMeansIn(log, last, n);
      PassedEveryStage(log, last, n, j);
    }
  }

  /** Instance for the configured queues, as their init functions leave them. */
  lemma ConfiguredQueuesAreFifo<T>(stages: nat, size: uint8, buffer: seq<T>, ops: seq<Op<T>>)
    requires Configured(stages, size) && |buffer| == size && Fits(stages, ops)
    ensures Fresh(stages, size, buffer).WellFormed()
    ensures Run(Fresh(stages, size, buffer), ops) && Forward(Zeros(stages), ops) ==>
      LeavesInOrder(Net(Zeros(stages), ops), stages)
  {
    ConfiguredIsLegal(stages, size);
    FreshTracks(stages, size, buffer);
    if Run(Fresh(stages, size, buffer), ops) && Forward(Zeros(stages), ops) {
      RunKeepsOrder(Fresh(stages, size, buffer), Zeros(stages), ops);
      OutputInOrder(Net(Zeros(stages), ops), Counts(Zeros(stages), ops));
    }
  }
}
