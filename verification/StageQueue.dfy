/**
 * The generated multi-stage rings of tc6-queue.h.
 *
 * A queue of N stages keeps one wrapping 8-bit counter per stage. Stage 0 fills
 * slots, every later stage works on what the stage before it has passed on, and
 * the slot of a stage is its counter masked with `size - 1`. The main loop and
 * the interrupt handlers drive different stages of the same queue.
 *
 * The three generated queues differ only in N: 2 (qtxeth), 3 (qspibuf) and
 * 7 (regop). Everything here holds for every N >= 2. The order of the entries is
 * the subject of QueueOrder, their data that of QueueData.
 */
module StageQueue {
  import opened Words

  // ---------------------------------------------------------------------
  // Sizes and the slot mask
  // ---------------------------------------------------------------------

  function Pow2(k: nat): (p: nat)
    ensures p > 0
  {
    if k == 0 then 1 else 2 * Pow2(k - 1)
  }

  ghost predicate PowerOfTwo(s: nat) {
    exists k: nat :: s == Pow2(k)
  }

  /** Sizes for which the ring is meant: powers of two that fit a uint8_t. */
  ghost predicate LegalSize(s: nat) {
    s < U8 && PowerOfTwo(s)
  }

  /** The C operator `x & y`, bit by bit. */
  function BitAnd(x: nat, y: nat): (r: nat)
    ensures r <= y
  {
    if x == 0 || y == 0 then 0
    else 2 * BitAnd(x / 2, y / 2) + (if x % 2 == 1 && y % 2 == 1 then 1 else 0)
  }

  /** An odd mask keeps the lowest bit. */
  lemma BitAndOddMask(x: nat, m: nat)
    requires m % 2 == 1
    ensures BitAnd(x, m) == 2 * BitAnd(x / 2, m / 2) + x % 2
  {
    if x == 0 {
      assert BitAnd(x / 2, m / 2) == 0;
    }
  }

  lemma MaskDoubles(x: nat, p: nat)
    requires p > 0
    ensures BitAnd(x, 2 * p - 1) == 2 * BitAnd(x / 2, p - 1) + x % 2
  {
    var m := 2 * p - 1;
    assert m / 2 == p - 1 && m % 2 == 1;
    BitAndOddMask(x, m);
  }

  lemma HalfSplits(x: nat, p: nat, q: nat, b: nat)
    requires x / 2 == p * q + b
    ensures x == 2 * p * q + (2 * b + x % 2)
  {
    assert 2 * p * q == 2 * (p * q);
  }

  lemma {:induction false} MaskSplits(x: nat, k: nat) returns (q: nat, b: nat)
    ensures x == Pow2(k) * q + b && b == BitAnd(x, Pow2(k) - 1)
  {
    if k == 0 {
      q, b := x, 0;
    } else {
      var h;
      q, h := MaskSplits(x / 2, k - 1);
      b := 2 * h + x % 2;
      HalfSplits(x, Pow2(k - 1), q, h);
      assert b == BitAnd(x, Pow2(k) - 1) by {
        MaskDoubles(x, Pow2(k - 1));
      }
    }
  }

  /** For a power of two, masking with `s - 1` is the remainder modulo `s`. */
  lemma MaskIsMod(x: nat, k: nat)
    ensures BitAnd(x, Pow2(k) - 1) == x % Pow2(k)
  {
    var q, b := MaskSplits(x, k);
    DivModUnique(x, Pow2(k), q, b);
  }

  /** For any other size two different entries of one lap share a slot. */
  lemma {:induction false} MaskCollides(s: nat) returns (d: nat)
    requires s > 0 && !PowerOfTwo(s)
    ensures 0 < d < s && BitAnd(d, s - 1) == 0
    decreases s
  {
    assert s != Pow2(0);
    if s % 2 == 1 {
      d := 1;
    } else {
      forall k: nat ensures s / 2 != Pow2(k) {
        assert s != Pow2(k + 1);
      }
      var h := MaskCollides(s / 2);
      d := 2 * h;
      assert (s - 1) / 2 == s / 2 - 1 && d / 2 == h;
    }
  }

  lemma {:induction false} PowersDivide(k: nat, n: nat)
    requires k <= n
    ensures Pow2(n) == Pow2(k) * Pow2(n - k)
    decreases k
  {
    if k > 0 {
      PowersDivide(k - 1, n - 1);
    }
  }

  lemma {:induction false} PowersAround256(k: nat)
    ensures Pow2(8) == U8
    ensures k >= 8 ==> Pow2(k) >= U8
  {
    assert Pow2(2) == 4 && Pow2(4) == 16 && Pow2(6) == 64;
    if k > 8 {
      PowersAround256(k - 1);
    }
  }

  /** A legal size is 2^k with k <= 7, so it divides 256. */
  lemma SizeDividesWrap(s: nat) returns (k: nat, laps: nat)
    requires LegalSize(s)
    ensures s == Pow2(k) && U8 == s * laps && s <= 128
  {
    k :| s == Pow2(k);
    PowersAround256(k);
    PowersDivide(k, 8);
    laps := Pow2(8 - k);
    assert laps == 2 * Pow2(7 - k);
    assert s * laps >= s * 2;
  }

  /** Masking an 8-bit counter picks the slot of the unbounded counter behind it. */
  lemma MaskPicksSlot(x: int, s: nat)
    requires LegalSize(s)
    ensures BitAnd(x % U8, s - 1) == x % s
    ensures s <= 128
  {
    var k, laps := SizeDividesWrap(s);
    MaskIsMod(x % U8, k);
    ModOfMod(x, s, laps);
  }

  lemma ModOfMod(x: int, s: nat, laps: nat)
    requires s > 0 && U8 == s * laps
    ensures (x % U8) % s == x % s
  {
    var q, q' := x / U8, (x % U8) / s;
    assert U8 * q == s * (laps * q);
    assert s * (laps * q + q') == s * (laps * q) + s * q';
    DivModUnique(x, s, laps * q + q', (x % U8) % s);
  }

  // ---------------------------------------------------------------------
  // Unbounded counters: what the queue means
  // ---------------------------------------------------------------------

  /** Entries that stage `i` may take now; `c[i]` counts how many it has passed on. */
  function Capacity(size: nat, c: seq<int>, i: nat): int
    requires i < |c|
  {
    if i == 0 then c[|c| - 1] + size - c[0] else c[i - 1] - c[i]
  }

  predicate Ready(size: nat, c: seq<int>, i: nat)
    requires i < |c|
  {
    Capacity(size, c, i) > 0
  }

  /** No stage overtakes the one before it, and stage 0 is at most one lap ahead of the last. */
  ghost predicate Ordered(size: nat, c: seq<int>) {
    && |c| >= 2
    && (forall i, j :: 0 <= i <= j < |c| ==> c[j] <= c[i])
    && c[0] - c[|c| - 1] <= size
  }

  // ---------------------------------------------------------------------
  // The generated code, on 8-bit counters
  // ---------------------------------------------------------------------

  predicate Ready8(size: uint8, b: seq<uint8>, i: nat)
    requires i < |b|
  {
    if i == 0 then (b[0] - b[|b| - 1]) % U8 < size
    else (b[i - 1] - b[i] - 1) % U8 < size
  }

  function Cap8(size: uint8, b: seq<uint8>, i: nat): uint8
    requires i < |b|
  {
    if i == 0 then (b[|b| - 1] + size - b[0]) % U8 else (b[i - 1] - b[i]) % U8
  }

  function Slot8(size: uint8, b: seq<uint8>, i: nat): nat
    requires i < |b| && size > 0
  {
    BitAnd(b[i], size - 1)
  }

  function Wrapped(c: seq<int>): (b: seq<uint8>)
    ensures |b| == |c| && forall i :: 0 <= i < |c| ==> b[i] == c[i] % U8
  {
    seq(|c|, i requires 0 <= i < |c| => c[i] % U8)
  }

  /**
   * The 8-bit expressions compute exactly what the unbounded counters mean,
   * after any number of wraps.
   */
  lemma CodeMeansCounters(size: uint8, c: seq<int>, i: nat)
    requires LegalSize(size) && Ordered(size, c) && i < |c|
    ensures Ready8(size, Wrapped(c), i) == Ready(size, c, i)
    ensures Cap8(size, Wrapped(c), i) == Capacity(size, c, i)
    ensures Slot8(size, Wrapped(c), i) == c[i] % size
  {
    MaskPicksSlot(c[i], size);
    DifferencesMean(size, c, i);
  }

  lemma DifferencesMean(size: uint8, c: seq<int>, i: nat)
    requires Ordered(size, c) && i < |c| && size <= 128
    ensures Ready8(size, Wrapped(c), i) == Ready(size, c, i)
    ensures Cap8(size, Wrapped(c), i) == Capacity(size, c, i)
  {
    if i == 0 {
      DifferenceWraps(c[0], c[|c| - 1], size);
    } else {
      DifferenceWraps(c[i - 1], c[i], size);
    }
  }

  lemma DifferenceWraps(x: int, y: int, size: nat)
    requires 0 <= x - y <= size <= 128
    ensures (x % U8 - y % U8) % U8 == x - y
    ensures (x % U8 - y % U8 - 1) % U8 < size <==> x > y
    ensures (y % U8 + size - x % U8) % U8 == y + size - x
  {
    var k := x / U8 - y / U8;
    assert x % U8 - y % U8 == x - y - U8 * k;
    assert k == 0 || k == 1;
  }

  /** Any two entries less than one lap apart get different slots from the code. */
  ghost predicate SlotsSeparate(size: uint8)
    requires size > 0
  {
    forall x: nat, y: nat :: x < y < x + size ==> BitAnd(x % U8, size - 1) != BitAnd(y % U8, size - 1)
  }

  /** The mask separates the entries of a lap exactly when the size is a power of two. */
  lemma SlotsSeparateIffPowerOfTwo(size: uint8)
    requires size > 0
    ensures SlotsSeparate(size) <==> PowerOfTwo(size)
  {
    if PowerOfTwo(size) {
      forall x: nat, y: nat | x < y < x + size
        ensures BitAnd(x % U8, size - 1) != BitAnd(y % U8, size - 1)
      {
        SlotsDiffer(x, y, size);
      }
    } else {
      var d := MaskCollides(size);
      assert d % U8 == d;
      assert BitAnd(0 % U8, size - 1) == BitAnd(d % U8, size - 1);
    }
  }

  lemma SlotsDiffer(x: nat, y: nat, size: uint8)
    requires LegalSize(size) && x < y < x + size
    ensures BitAnd(x % U8, size - 1) != BitAnd(y % U8, size - 1)
  {
    MaskPicksSlot(x, size);
    MaskPicksSlot(y, size);
    WithinOneLap(x, y, size);
  }

  lemma WithinOneLap(x: int, y: int, size: nat)
    requires x < y < x + size
    ensures x % size != y % size
  {
    var q := y / size - x / size;
    assert y - x == size * q + (y % size - x % size);
    Multiples(size, q);
  }

  // ---------------------------------------------------------------------
  // Operations and runs
  // ---------------------------------------------------------------------

  /** What a stage does: use its slot, pass the entry on, or take the last entry back. */
  datatype Op<T> = Write(stage: nat, value: T) | Done(stage: nat) | Undo(stage: nat)

  datatype Ring<T> = Ring(size: uint8, counter: seq<uint8>, buffer: seq<T>) {
    ghost predicate WellFormed() {
      LegalSize(size) && |counter| >= 2 && |buffer| == size
    }
  }

  /** The stage that is waiting for the work of stage `i`. */
  function NextStage(n: nat, i: nat): (j: nat)
    requires i < n
    ensures j < n
  {
    if i + 1 == n then 0 else i + 1
  }

  /**
   * The guard of an operation. The generated interface offers `ready` for the use
   * and the done step of a slot. It offers none for undo; the guard here is the one
   * that keeps the counters ordered: the next stage still sees work of this one.
   */
  predicate Guard<T>(r: Ring<T>, op: Op<T>)
    requires r.WellFormed() && op.stage < |r.counter|
  {
    Ready8(r.size, r.counter, if op.Undo? then NextStage(|r.counter|, op.stage) else op.stage)
  }

  /** `++` and `--` on a uint8_t. */
  function Add8(x: uint8, d: int): uint8 {
    (x + d) % U8
  }

  function Exec<T>(r: Ring<T>, op: Op<T>): (r': Ring<T>)
    requires r.WellFormed() && op.stage < |r.counter|
    ensures r'.WellFormed() && |r'.counter| == |r.counter| && r'.size == r.size
  {
    match op
    case Write(i, v) => r.(buffer := r.buffer[Slot8(r.size, r.counter, i) := v])
    case Done(i) => r.(counter := r.counter[i := Add8(r.counter[i], 1)])
    case Undo(i) => r.(counter := r.counter[i := Add8(r.counter[i], -1)])
  }

  predicate Fits<T>(n: nat, ops: seq<Op<T>>) {
    forall k :: 0 <= k < |ops| ==> ops[k].stage < n
  }

  function After<T>(r: Ring<T>, ops: seq<Op<T>>): (r': Ring<T>)
    requires r.WellFormed() && Fits(|r.counter|, ops)
    ensures r'.WellFormed() && |r'.counter| == |r.counter| && r'.size == r.size
  {
    if ops == [] then r else var k := |ops| - 1; Exec(After(r, ops[..k]), ops[k])
  }

  /** An arbitrary interleaving of the stages: every operation finds its guard true. */
  predicate Run<T>(r: Ring<T>, ops: seq<Op<T>>)
    requires r.WellFormed() && Fits(|r.counter|, ops)
  {
    ops == [] || (var k := |ops| - 1; Run(r, ops[..k]) && Guard(After(r, ops[..k]), ops[k]))
  }

  /** The effect of an operation on the unbounded counters. */
  function Count<T>(c: seq<int>, op: Op<T>): (c': seq<int>)
    requires op.stage < |c|
    ensures |c'| == |c|
  {
    match op
    case Write(_, _) => c
    case Done(i) => c[i := c[i] + 1]
    case Undo(i) => c[i := c[i] - 1]
  }

  function Counts<T>(c: seq<int>, ops: seq<Op<T>>): (c': seq<int>)
    requires Fits(|c|, ops)
    ensures |c'| == |c|
  {
    if ops == [] then c else Count(Counts(c, ops[..|ops| - 1]), ops[|ops| - 1])
  }

  function Zeros(n: nat): (c: seq<int>)
    ensures |c| == n && forall i :: 0 <= i < n ==> c[i] == 0
  {
    seq(n, _ => 0)
  }

  /** A queue as its init function leaves it. */
  function Fresh<T>(stages: nat, size: uint8, buffer: seq<T>): Ring<T> {
    Ring(size, Zeros(stages), buffer)
  }

  lemma FreshTracks<T>(stages: nat, size: uint8, buffer: seq<T>)
    requires stages >= 2 && LegalSize(size) && |buffer| == size
    ensures Tracks(Fresh(stages, size, buffer), Zeros(stages))
  {
    assert Wrapped(Zeros(stages)) == Zeros(stages);
  }

  /** A ring whose 8-bit counters are the low bytes of ordered unbounded ones. */
  ghost predicate Tracks<T>(r: Ring<T>, c: seq<int>) {
    r.WellFormed() && r.counter == Wrapped(c) && Ordered(r.size, c)
  }

  lemma WrappedMoves(c: seq<int>, i: nat, d: int)
    requires i < |c|
    ensures Wrapped(c)[i := Add8(Wrapped(c)[i], d)] == Wrapped(c[i := c[i] + d])
  {
    assert c[i] + d == U8 * (c[i] / U8) + (c[i] % U8 + d);
    assert (c[i] % U8 + d) % U8 == (c[i] + d) % U8;
  }

  lemma OrderedMoves<T>(size: nat, c: seq<int>, op: Op<T>)
    requires Ordered(size, c) && op.stage < |c|
    requires Ready(size, c, if op.Undo? then NextStage(|c|, op.stage) else op.stage)
    ensures Ordered(size, Count(c, op))
  {
    var i, c' := op.stage, Count(c, op);
    forall a, b | 0 <= a <= b < |c|
      ensures c'[b] <= c'[a]
    {
      assert c[b] <= c[a];
      if op.Done? && b == i && a < b { assert c[i - 1] <= c[a]; }
      if op.Undo? && a == i && a < b { assert c[b] <= c[i + 1]; }
    }
    assert c[|c| - 1] <= c[i] <= c[0];
  }

  lemma UnguardedBreaksOrder<T>(size: nat, c: seq<int>, op: Op<T>)
    requires Ordered(size, c) && op.stage < |c| && !op.Write?
    requires !Ready(size, c, if op.Undo? then NextStage(|c|, op.stage) else op.stage)
    ensures !Ordered(size, Count(c, op))
  {
    var i, c' := op.stage, Count(c, op);
    if op.Done? && i > 0 {
      assert c'[i - 1] < c'[i];
    } else if op.Undo? && i + 1 < |c| {
      assert c'[i] < c'[i + 1];
    } else {
      assert c'[0] - c'[|c| - 1] > size;
    }
  }

  /** One guarded operation keeps the 8-bit counters in step with ordered unbounded ones. */
  lemma StepTracks<T>(r: Ring<T>, c: seq<int>, op: Op<T>)
    requires Tracks(r, c) && op.stage < |c| && Guard(r, op)
    ensures Tracks(Exec(r, op), Count(c, op))
  {
    var i := op.stage;
    assert Ordered(r.size, Count(c, op)) by {
      CodeMeansCounters(r.size, c, if op.Undo? then NextStage(|c|, i) else i);
      OrderedMoves(r.size, c, op);
    }
    CounterMoves(r, c, op);
  }

  /** And the guards are exact: an operation on the counters without its guard breaks the order. */
  lemma StepTracksIff<T>(r: Ring<T>, c: seq<int>, op: Op<T>)
    requires Tracks(r, c) && op.stage < |c|
    ensures Tracks(Exec(r, op), Count(c, op)) <==> op.Write? || Guard(r, op)
  {
    if Guard(r, op) {
      StepTracks(r, c, op);
    } else if !op.Write? {
      CodeMeansCounters(r.size, c, if op.Undo? then NextStage(|c|, op.stage) else op.stage);
      UnguardedBreaksOrder(r.size, c, op);
    }
  }

  lemma CounterMoves<T>(r: Ring<T>, c: seq<int>, op: Op<T>)
    requires r.WellFormed() && r.counter == Wrapped(c) && op.stage < |c|
    ensures Exec(r, op).counter == Wrapped(Count(c, op))
  {
    if op.Done? { WrappedMoves(c, op.stage, 1); }
    if op.Undo? { WrappedMoves(c, op.stage, -1); }
  }

  lemma {:induction false} RunTracks<T>(r: Ring<T>, c: seq<int>, ops: seq<Op<T>>)
    requires Tracks(r, c) && Fits(|c|, ops) && Run(r, ops)
    ensures Tracks(After(r, ops), Counts(c, ops))
    decreases |ops|
  {
    if ops != [] {
      var k := |ops| - 1;
      RunTracks(r, c, ops[..k]);
      StepTracks(After(r, ops[..k]), Counts(c, ops[..k]), ops[k]);
    }
  }

  /**
   * Every run of guarded done and undo operations, by any stages in any order:
   * the counters stay ordered and within one lap, and the 8-bit code still
   * computes the readiness, capacity and slot of the unbounded counters.
   */
  lemma {:induction false} RunMeansCounters<T>(r: Ring<T>, c: seq<int>, ops: seq<Op<T>>, i: nat)
    requires Tracks(r, c) && Fits(|c|, ops) && Run(r, ops) && i < |c|
    ensures var r', c' := After(r, ops), Counts(c, ops);
      && Ordered(r.size, c')
      && Ready8(r'.size, r'.counter, i) == Ready(r.size, c', i)
      && Cap8(r'.size, r'.counter, i) == Capacity(r.size, c', i)
      && Slot8(r'.size, r'.counter, i) == c'[i] % r.size
  {
    RunTracks(r, c, ops);
    CodeMeansCounters(r.size, Counts(c, ops), i);
  }

  lemma {:induction false} RunPrefix<T>(r: Ring<T>, ops: seq<Op<T>>, k: nat)
    requires r.WellFormed() && Fits(|r.counter|, ops) && Run(r, ops) && k <= |ops|
    ensures Run(r, ops[..k])
    decreases |ops|
  {
    if k < |ops| {
      RunPrefix(r, ops[..|ops| - 1], k);
      assert ops[..|ops| - 1][..k] == ops[..k];
    } else {
      assert ops[..k] == ops;
    }
  }

  /** Two stages that are ready at the same time never work on the same slot. */
  lemma ReadySlotsDiffer<T>(r: Ring<T>, c: seq<int>, i: nat, j: nat)
    requires Tracks(r, c) && i < j < |c|
    requires Ready8(r.size, r.counter, i) && Ready8(r.size, r.counter, j)
    ensures Slot8(r.size, r.counter, i) != Slot8(r.size, r.counter, j)
  {
    CodeMeansCounters(r.size, c, i);
    CodeMeansCounters(r.size, c, j);
    assert c[j] < c[j - 1] <= c[i];
    assert c[i] < c[j] + r.size;
    WithinOneLap(c[j], c[i], r.size);
  }

  lemma StepKeepsReady<T>(r: Ring<T>, c: seq<int>, i: nat, op: Op<T>)
    requires Tracks(r, c) && i < |c| && Ready8(r.size, r.counter, i)
    requires op.stage < |c| && op.stage != i && Guard(r, op)
    requires op.Undo? ==> i != NextStage(|c|, op.stage)
    ensures var r' := Exec(r, op);
      Ready8(r'.size, r'.counter, i) && Slot8(r'.size, r'.counter, i) == Slot8(r.size, r.counter, i)
  {
    StepTracks(r, c, op);
    CodeMeansCounters(r.size, c, i);
    CodeMeansCounters(r.size, Count(c, op), i);
  }

  /** Operations of other stages, none of which takes work of stage i back from it. */
  ghost predicate LeavesAlone<T>(n: nat, i: nat, ops: seq<Op<T>>)
    requires Fits(n, ops)
  {
    forall k :: 0 <= k < |ops| ==> ops[k].stage != i && (ops[k].Undo? ==> i != NextStage(n, ops[k].stage))
  }

  /**
   * A stage that has seen itself ready stays ready, with the same slot, whatever the
   * other stages do in any run, short of the stage before it taking work back.
   */
  lemma {:induction false} ReadyIsStable<T>(r: Ring<T>, c: seq<int>, i: nat, ops: seq<Op<T>>)
    requires Tracks(r, c) && i < |c| && Ready8(r.size, r.counter, i)
    requires Fits(|c|, ops) && Run(r, ops) && LeavesAlone(|c|, i, ops)
    ensures var r' := After(r, ops);
      Ready8(r'.size, r'.counter, i) && Slot8(r'.size, r'.counter, i) == Slot8(r.size, r.counter, i)
    decreases |ops|
  {
    if ops != [] {
      var k := |ops| - 1;
      ReadyIsStable(r, c, i, ops[..k]);
      RunTracks(r, c, ops[..k]);
      StepKeepsReady(After(r, ops[..k]), Counts(c, ops[..k]), i, ops[k]);
    }
  }

  /** The same operation n times. */
  function Times<T>(n: nat, op: Op<T>): (ops: seq<Op<T>>)
    ensures |ops| == n && forall k :: 0 <= k < n ==> ops[k] == op
  {
    seq(n, _ => op)
  }

  lemma {:induction false} DonesInARow<T>(r: Ring<T>, c: seq<int>, i: nat, n: nat)
    requires Tracks(r, c) && i < |c|
    ensures Run(r, Times(n, Op<T>.Done(i))) <==> n <= Capacity(r.size, c, i)
    ensures Counts(c, Times(n, Op<T>.Done(i))) == c[i := c[i] + n]
    decreases n
  {
    var ops := Times(n, Op<T>.Done(i));
    CapacityNotNegative(r.size, c, i);
    if n > 0 {
      assert ops[..n - 1] == Times(n - 1, Op<T>.Done(i));
      DonesInARow(r, c, i, n - 1);
      if Run(r, ops[..n - 1]) {
        RunTracks(r, c, ops[..n - 1]);
        CodeMeansCounters(r.size, Counts(c, ops[..n - 1]), i);
      }
    }
  }

  lemma CapacityNotNegative(size: nat, c: seq<int>, i: nat)
    requires Ordered(size, c) && i < |c|
    ensures Capacity(size, c, i) >= 0
  {
    if i > 0 { assert c[i] <= c[i - 1]; }
  }

  /** What `cap` reports is exactly how many entries the stage can pass on in a row. */
  lemma CapIsExact<T>(r: Ring<T>, c: seq<int>, i: nat, n: nat)
    requires Tracks(r, c) && i < |c|
    ensures Run(r, Times(n, Op<T>.Done(i))) <==> n <= Cap8(r.size, r.counter, i)
  {
    CodeMeansCounters(r.size, c, i);
    DonesInARow(r, c, i, n);
  }

  // ---------------------------------------------------------------------
  // The queue object
  // ---------------------------------------------------------------------

  class Queue<T> {
    const size: uint8
    const buffer: array<T>
    var counter: seq<uint8>
    ghost var count: seq<int>

    ghost function View(): Ring<T>
      reads this, buffer
    {
      Ring(size, counter, buffer[..])
    }

    ghost predicate Valid()
      reads this, buffer
    {
      Tracks(View(), count)
    }

    constructor (stages: nat, size: uint8, buffer: array<T>)
      requires stages >= 2 && LegalSize(size) && buffer.Length == size
      ensures Valid() && this.size == size && this.buffer == buffer
      ensures View() == Fresh(stages, size, buffer[..]) && count == Zeros(stages)
    {
      this.size := size;
      this.buffer := buffer;
      counter := Zeros(stages);
      count := Zeros(stages);
      new;
      FreshTracks(stages, size, buffer[..]);
    }

    predicate IsReady(i: nat): (ready: bool)
      requires Valid() && i < |count|
      reads this, buffer
      ensures ready == Ready(size, count, i)
    {
      CodeMeansCounters(size, count, i);
      Ready8(size, counter, i)
    }

    function Cap(i: nat): (n: uint8)
      requires Valid() && i < |count|
      reads this, buffer
      ensures n == Capacity(size, count, i) && n <= size
    {
      CodeMeansCounters(size, count, i);
      Cap8(size, counter, i)
    }

    function Ptr(i: nat): (slot: nat)
      requires Valid() && i < |count|
      reads this, buffer
      ensures slot < buffer.Length && slot == count[i] % size
    {
      CodeMeansCounters(size, count, i);
      Slot8(size, counter, i)
    }

    /** What a stage does through the pointer that Ptr returns. */
    method Store(i: nat, value: T)
      requires Valid() && i < |count|
      modifies buffer
      ensures Valid() && View() == Exec(old(View()), Write(i, value))
    {
      ghost var r := View();
      StepTracksIff(r, count, Op.Write(i, value));
      buffer[Ptr(i)] := value;
      assert View() == Exec(r, Write(i, value));
    }

    /** Like the code, without a check; the queue stays meaningful exactly if the stage was ready. */
    method Pass(i: nat)
      requires Valid() && i < |count|
      modifies this
      ensures Valid() <==> old(IsReady(i))
      ensures View() == Exec(old(View()), Done(i))
      ensures count == old(count)[i := old(count)[i] + 1]
    {
      ghost var r, c, op := View(), count, Op<T>.Done(i);
      StepTracksIff(r, c, op);
      counter := counter[i := Add8(counter[i], 1)];
      count := Count(c, op);
      assert View() == Exec(r, op);
    }

    /** The same for undo and the stage that waits for this one. */
    method TakeBack(i: nat)
      requires Valid() && i < |count|
      modifies this
      ensures Valid() <==> old(IsReady(NextStage(|count|, i)))
      ensures View() == Exec(old(View()), Undo(i))
      ensures count == old(count)[i := old(count)[i] - 1]
    {
      ghost var r, c, op := View(), count, Op<T>.Undo(i);
      StepTracksIff(r, c, op);
      counter := counter[i := Add8(counter[i], -1)];
      count := Count(c, op);
      assert View() == Exec(r, op);
    }
  }
}
