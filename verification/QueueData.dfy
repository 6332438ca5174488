/** The data in a ring: it behaves like one private cell per entry. */
module QueueData {
  import opened Words
  import opened StageQueue
  import opened QueueOrder

  /** The ideal pipeline: entry n has a cell of its own that no other entry ever uses. */
  datatype Ideal<T> = Ideal(count: seq<int>, cells: map<int, T>)

  /** Nothing written, nothing passed on. */
  function Unwritten<T>(stages: nat): (m: Ideal<T>)
    ensures |m.count| == stages
  {
    Ideal(Zeros(stages), map[])
  }

  function ExecIdeal<T>(m: Ideal<T>, op: Op<T>): (m': Ideal<T>)
    requires op.stage < |m.count|
    ensures |m'.count| == |m.count|
  {
    Ideal(Count(m.count, op),
          if op.Write? then m.cells[m.count[op.stage] := op.value] else m.cells)
  }

  function AfterIdeal<T>(m: Ideal<T>, ops: seq<Op<T>>): (m': Ideal<T>)
    requires Fits(|m.count|, ops)
    ensures |m'.count| == |m.count|
  {
    if ops == [] then m else ExecIdeal(AfterIdeal(m, ops[..|ops| - 1]), ops[|ops| - 1])
  }

  /** Entry n has been written, and no later entry has been written to the same slot. */
  ghost predicate Newest<T>(cells: map<int, T>, size: nat, n: int)
    requires size > 0
  {
    n in cells && forall k :: k in cells && k > n ==> k % size != n % size
  }

  ghost predicate WithinLap<T>(cells: map<int, T>, end: int) {
    forall n :: n in cells ==> n < end
  }

  ghost predicate SlotsHoldNewest<T>(buffer: seq<T>, size: nat, cells: map<int, T>)
    requires |buffer| == size > 0
  {
    forall n :: Newest(cells, size, n) ==> buffer[n % size] == cells[n]
  }

  /** Every slot holds the cell of the newest entry that was written to it. */
  ghost predicate Represents<T>(r: Ring<T>, m: Ideal<T>) {
    && Tracks(r, m.count)
    && WithinLap(m.cells, m.count[|m.count| - 1] + r.size)
    && SlotsHoldNewest(r.buffer, r.size, m.cells)
  }

  /**
   * The last stage takes back only what it has passed on, and only while stage 0 has
   * not written to the freed slot.
   */
  predicate Harmless<T>(size: nat, m: Ideal<T>, op: Op<T>)
    requires m.count != []
  {
    op.Undo? && op.stage + 1 == |m.count| ==>
      m.count[op.stage] > 0 && m.count[op.stage] - 1 + size !in m.cells
  }

  /** Stage 0 fills an entry before it passes it on. */
  predicate FillsFirst<T>(m: Ideal<T>, op: Op<T>)
    requires m.count != []
  {
    op == Done(0) ==> m.count[0] in m.cells
  }

  /** Exactly entries from 0 on have been written, among them all that stage 0 has passed on. */
  ghost predicate Filled<T>(m: Ideal<T>)
    requires m.count != []
  {
    && m.count[|m.count| - 1] >= 0
    && (forall n :: n in m.cells ==> n >= 0)
    && (forall n :: 0 <= n < m.count[0] ==> n in m.cells)
  }

  // ---------------------------------------------------------------------
  // Steps
  // ---------------------------------------------------------------------

  lemma CurrentIsNewest<T>(r: Ring<T>, m: Ideal<T>, n: int)
    requires Represents(r, m) && n in m.cells && m.count[|m.count| - 1] <= n
    ensures Newest(m.cells, r.size, n)
  {
    forall k | k in m.cells && k > n ensures k % r.size != n % r.size {
      WithinOneLap(n, k, r.size);
    }
  }

  lemma StepRepresents<T>(r: Ring<T>, m: Ideal<T>, op: Op<T>)
    requires Represents(r, m) && op.stage < |m.count| && Guard(r, op) && Harmless(r.size, m, op)
    ensures Represents(Exec(r, op), ExecIdeal(m, op))
  {
    StepTracks(r, m.count, op);
    if op.Write? {
      CodeMeansCounters(r.size, m.count, op.stage);
      WriteRepresents(r, m, op.stage, op.value);
    }
  }

  lemma WriteRepresents<T>(r: Ring<T>, m: Ideal<T>, i: nat, v: T)
    requires Represents(r, m) && i < |m.count| && Ready(r.size, m.count, i)
    ensures var r', m' := Exec(r, Write(i, v)), ExecIdeal(m, Write(i, v));
      WithinLap(m'.cells, m'.count[|m'.count| - 1] + r.size) && SlotsHoldNewest(r'.buffer, r.size, m'.cells)
  {
    CodeMeansCounters(r.size, m.count, i);
    StoreKeepsNewest(r.buffer, r.size, m.cells, m.count[i], m.count[|m.count| - 1], v);
  }

  lemma StoreKeepsNewest<T>(buffer: seq<T>, size: nat, cells: map<int, T>, e: int, first: int, v: T)
    requires |buffer| == size > 0 && SlotsHoldNewest(buffer, size, cells)
    requires WithinLap(cells, first + size) && first <= e < first + size
    ensures SlotsHoldNewest(buffer[e % size := v], size, cells[e := v])
    ensures WithinLap(cells[e := v], first + size)
  {
    forall n | Newest(cells[e := v], size, n)
      ensures buffer[e % size := v][n % size] == cells[e := v][n]
    {
      if n != e {
        assert e in cells[e := v];
        if n > e { WithinOneLap(e, n, size); }
        assert n % size != e % size;
        assert Newest(cells, size, n) by {
          assert forall k :: k in cells ==> k in cells[e := v];
        }
      }
    }
  }

  lemma StepFills<T>(size: nat, m: Ideal<T>, op: Op<T>)
    requires Ordered(size, m.count) && Filled(m) && op.stage < |m.count|
    requires Harmless(size, m, op) && FillsFirst(m, op)
    ensures Filled(ExecIdeal(m, op))
  {
    assert m.count[|m.count| - 1] <= m.count[op.stage];
  }

  // ---------------------------------------------------------------------
  // Runs
  // ---------------------------------------------------------------------

  predicate HarmlessRun<T>(size: nat, m: Ideal<T>, ops: seq<Op<T>>)
    requires m.count != [] && Fits(|m.count|, ops)
  {
    ops == [] || (var k := |ops| - 1;
                  HarmlessRun(size, m, ops[..k]) && Harmless(size, AfterIdeal(m, ops[..k]), ops[k]))
  }

  predicate FillsFirstRun<T>(m: Ideal<T>, ops: seq<Op<T>>)
    requires m.count != [] && Fits(|m.count|, ops)
  {
    ops == [] || (var k := |ops| - 1;
                  FillsFirstRun(m, ops[..k]) && FillsFirst(AfterIdeal(m, ops[..k]), ops[k]))
  }

  lemma {:induction false} RunKeepsCells<T>(r: Ring<T>, m: Ideal<T>, ops: seq<Op<T>>)
    requires Represents(r, m) && Fits(|m.count|, ops) && Run(r, ops) && HarmlessRun(r.size, m, ops)
    ensures Represents(After(r, ops), AfterIdeal(m, ops))
    decreases |ops|
  {
    if ops != [] {
      var k := |ops| - 1;
      RunKeepsCells(r, m, ops[..k]);
      StepRepresents(After(r, ops[..k]), AfterIdeal(m, ops[..k]), ops[k]);
    }
  }

  lemma {:induction false} RunFills<T>(r: Ring<T>, m: Ideal<T>, ops: seq<Op<T>>)
    requires Represents(r, m) && Fits(|m.count|, ops) && Run(r, ops) && HarmlessRun(r.size, m, ops)
    requires Filled(m) && FillsFirstRun(m, ops)
    ensures Filled(AfterIdeal(m, ops))
    decreases |ops|
  {
    if ops != [] {
      var k := |ops| - 1;
      RunFills(r, m, ops[..k]);
      RunKeepsCells(r, m, ops[..k]);
      StepFills(r.size, AfterIdeal(m, ops[..k]), ops[k]);
    }
  }

  /** The slot of stage i holds what was last written for its current entry. */
  ghost predicate FindsOwn<T>(r: Ring<T>, m: Ideal<T>, i: nat)
    requires r.WellFormed() && |m.count| == |r.counter| && i < |m.count|
  {
    m.count[i] in m.cells && r.buffer[Slot8(r.size, r.counter, i)] == m.cells[m.count[i]]
  }

  lemma SeesOwnCell<T>(r: Ring<T>, m: Ideal<T>, i: nat)
    requires Represents(r, m) && i < |m.count| && m.count[i] in m.cells
    ensures FindsOwn(r, m, i)
  {
    CodeMeansCounters(r.size, m.count, i);
    CurrentIsNewest(r, m, m.count[i]);
  }

  /**
   * In every interleaving of slot writes, done steps and undo steps in which stage 0
   * fills an entry before it passes it on, every later stage that is ready finds in its
   * slot what was last written for that very entry, provided the last stage undoes
   * nothing it never passed on and nothing whose slot stage 0 has already written to.
   */
  lemma RunRepresents<T>(r: Ring<T>, m: Ideal<T>, ops: seq<Op<T>>, i: nat)
    requires Represents(r, m) && Filled(m) && Fits(|m.count|, ops) && Run(r, ops)
    requires HarmlessRun(r.size, m, ops) && FillsFirstRun(m, ops)
    requires 0 < i < |m.count| && Ready8(r.size, After(r, ops).counter, i)
    ensures FindsOwn(After(r, ops), AfterIdeal(m, ops), i)
  {
    RunKeepsCells(r, m, ops);
    RunFills(r, m, ops);
    ReadyIsFilled(After(r, ops), AfterIdeal(m, ops), i);
    SeesOwnCell(After(r, ops), AfterIdeal(m, ops), i);
  }

  lemma ReadyIsFilled<T>(r: Ring<T>, m: Ideal<T>, i: nat)
    requires Represents(r, m) && Filled(m) && 0 < i < |m.count| && Ready8(r.size, r.counter, i)
    ensures m.count[i] in m.cells
  {
    CodeMeansCounters(r.size, m.count, i);
    assert m.count[|m.count| - 1] <= m.count[i] < m.count[i - 1] <= m.count[0];
  }

  /** What is true of a queue as its init function leaves it. */
  lemma FreshRepresents<T>(stages: nat, size: uint8, buffer: seq<T>)
    requires stages >= 2 && LegalSize(size) && |buffer| == size
    ensures var m := Unwritten<T>(stages);
      Represents(Fresh(stages, size, buffer), m) && Filled(m)
  {
    FreshTracks(stages, size, buffer);
  }

  /** Instance for the configured queues. */
  lemma ConfiguredQueuesKeepData<T>(stages: nat, size: uint8, buffer: seq<T>, ops: seq<Op<T>>, i: nat)
    requires Configured(stages, size) && |buffer| == size && Fits(stages, ops) && 0 < i < stages
    ensures var r, m := Fresh(stages, size, buffer), Unwritten<T>(stages);
      && r.WellFormed()
      && (&& Run(r, ops) && HarmlessRun(size, m, ops) && FillsFirstRun(m, ops)
          && Ready8(size, After(r, ops).counter, i)
          ==> FindsOwn(After(r, ops), AfterIdeal(m, ops), i))
  {
    var r, m := Fresh(stages, size, buffer), Unwritten<T>(stages);
    ConfiguredIsLegal(stages, size);
    FreshRepresents(stages, size, buffer);
    if && Run(r, ops) && HarmlessRun(size, m, ops) && FillsFirstRun(m, ops)
       && Ready8(size, After(r, ops).counter, i) {
      RunRepresents(r, m, ops, i);
    }
  }

  // ---------------------------------------------------------------------
  // Undo of the last stage
  // ---------------------------------------------------------------------

  /**
   * The guards alone are not enough there. After an undo the last stage finds an entry
   * of its own exactly if it had passed one on and stage 0 has not written to the slot
   * since, or has written the same.
   */
  lemma LastUndoRightIff<T>(r: Ring<T>, m: Ideal<T>, last: nat, e: int)
    requires Represents(r, m) && Filled(m) && last == |m.count| - 1 && Guard(r, Undo(last))
    requires e == m.count[last] - 1
    ensures FindsOwn(Exec(r, Undo(last)), ExecIdeal(m, Undo(last)), last) <==>
      e >= 0 && !Overwritten(m.cells, r.size, e)
  {
    FreedSlot(r, m, e);
    UndoFinds(r, m, last, e);
  }

  /** Stage 0 has written other data for the entry that shares the slot of `e` one lap on. */
  ghost predicate Overwritten<T>(cells: map<int, T>, size: nat, e: int) {
    e in cells && e + size in cells && cells[e + size] != cells[e]
  }

  lemma UndoFinds<T>(r: Ring<T>, m: Ideal<T>, last: nat, e: int)
    requires Tracks(r, m.count) && last == |m.count| - 1 && Guard(r, Undo(last)) && e == m.count[last] - 1
    ensures FindsOwn(Exec(r, Undo(last)), ExecIdeal(m, Undo(last)), last) <==>
      e in m.cells && r.buffer[e % r.size] == m.cells[e]
  {
    var undo := Op<T>.Undo(last);
    StepTracks(r, m.count, undo);
    CodeMeansCounters(r.size, Count(m.count, undo), last);
    assert Count(m.count, undo)[last] == e;
  }

  lemma FreedSlot<T>(r: Ring<T>, m: Ideal<T>, e: int)
    requires Represents(r, m) && Filled(m) && e == m.count[|m.count| - 1] - 1
    ensures e in m.cells && r.buffer[e % r.size] == m.cells[e] <==>
      e >= 0 && !Overwritten(m.cells, r.size, e)
  {
    FilledMeans(r.size, m, e);
    if e in m.cells {
      FreedSlotHolds(r.buffer, r.size, m.cells, e);
    }
  }

  lemma FilledMeans<T>(size: nat, m: Ideal<T>, e: int)
    requires Ordered(size, m.count) && Filled(m) && e < m.count[|m.count| - 1]
    ensures e in m.cells <==> e >= 0
  {
    assert m.count[|m.count| - 1] <= m.count[0];
  }

  lemma FreedSlotHolds<T>(buffer: seq<T>, size: nat, cells: map<int, T>, e: int)
    requires |buffer| == size > 0 && SlotsHoldNewest(buffer, size, cells)
    requires WithinLap(cells, e + 1 + size) && e in cells
    ensures buffer[e % size] == cells[e] <==> !Overwritten(cells, size, e)
  {
    OneLapOn(e, size);
    var n := if e + size in cells then e + size else e;
    assert Newest(cells, size, n) by {
      forall k | k in cells && k > n ensures k % size != n % size {
        WithinOneLap(e, k, size);
      }
    }
  }

  /**
   * Both ways of going wrong do happen with all guards true. In an empty fresh ring the
   * undo leaves the last stage ready for a slot that nobody has filled.
   */
  lemma LastUndoOnFreshRing<T>(stages: nat, size: uint8, buffer: seq<T>)
    requires stages >= 2 && LegalSize(size) && |buffer| == size
    ensures var r, last: nat := Fresh(stages, size, buffer), stages - 1;
      && Guard(r, Undo(last))
      && var r' := Exec(r, Undo(last));
      && Ready8(r'.size, r'.counter, last)
      && !FindsOwn(r', ExecIdeal(Unwritten<T>(stages), Undo(last)), last)
  {
    var r, c, undo := Fresh(stages, size, buffer), Zeros(stages), Op<T>.Undo(stages - 1);
    FreshTracks(stages, size, buffer);
    CodeMeansCounters(size, c, 0);
    StepTracks(r, c, undo);
    CodeMeansCounters(size, Count(c, undo), stages - 1);
  }

  /**
   * And the slot of the last stage has already been offered to stage 0: in every full
   * ring the last stage can pass on an entry, stage 0 write to the freed slot and the
   * last stage take its entry back, and it then finds the new entry's data in its slot.
   */
  lemma LastUndoMixesEntries<T>(r: Ring<T>, c: seq<int>, value: T)
    requires Tracks(r, c) && Capacity(r.size, c, 0) == 0 && Ready(r.size, c, |c| - 1)
    ensures var last: nat := |c| - 1;
      && Guard(r, Done(last))
      && var r1 := Exec(r, Done(last));
      && Guard(r1, Write(0, value))
      && var r2 := Exec(r1, Write(0, value));
      && Guard(r2, Undo(last))
      && var r3 := Exec(r2, Undo(last));
      && Ready8(r3.size, r3.counter, last)
      && r3.buffer[Slot8(r3.size, r3.counter, last)] == value
  {
    var r1 := FreesSlot(r, c);
    CodeMeansCounters(r.size, c, |c| - 1);
    ReturnsToFull(r, c, Exec(r1, Write(0, value)));
  }

  lemma ReturnsToFull<T>(r: Ring<T>, c: seq<int>, r2: Ring<T>)
    requires Tracks(r, c) && r2.WellFormed() && r2.size == r.size
    requires r2.counter == Wrapped(c[|c| - 1 := c[|c| - 1] + 1])
    ensures Exec(r2, Undo(|c| - 1)).counter == r.counter
  {
    var last := |c| - 1;
    CounterMoves(r2, c[last := c[last] + 1], Op<T>.Undo(last));
    assert c[last := c[last] + 1][last := c[last]] == c;
  }

  lemma FreesSlot<T>(r: Ring<T>, c: seq<int>) returns (r1: Ring<T>)
    requires Tracks(r, c) && Capacity(r.size, c, 0) == 0 && Ready(r.size, c, |c| - 1)
    ensures r1 == Exec(r, Done(|c| - 1)) && r1.counter == Wrapped(c[|c| - 1 := c[|c| - 1] + 1])
    ensures Ready8(r1.size, r1.counter, 0)
    ensures Slot8(r1.size, r1.counter, 0) == c[|c| - 1] % r.size
  {
    var last := |c| - 1;
    var c1 := c[last := c[last] + 1];
    r1 := Exec(r, Op<T>.Done(last));
    CodeMeansCounters(r.size, c, last);
    StepTracks(r, c, Op<T>.Done(last));
    CodeMeansCounters(r1.size, c1, 0);
    assert c1[0] == c[last] + r.size;
    OneLapOn(c[last], r.size);
  }

  lemma OneLapOn(x: int, size: nat)
    requires size > 0
    ensures (x + size) % size == x % size
  {
    DivModUnique(x + size, size, x / size + 1, x % size);
  }

  // ---------------------------------------------------------------------
  // Data and order together
  // ---------------------------------------------------------------------

  lemma HarmlessUndoIsGrounded<T>(r: Ring<T>, m: Ideal<T>, op: Op<T>)
    requires Tracks(r, m.count) && op.stage < |m.count| && Guard(r, op) && Harmless(r.size, m, op)
    requires m.count[|m.count| - 1] >= 0
    ensures op.Undo? ==> m.count[op.stage] > 0
    ensures Count(m.count, op)[|m.count| - 1] >= 0
  {
    if op.Undo? && op.stage + 1 < |m.count| {
      OnlyLastStageUngrounded(r, m.count, op);
    }
  }

  /** A run that keeps the data also keeps the order of QueueOrder. */
  lemma {:induction false} HarmlessIsGrounded<T>(r: Ring<T>, m: Ideal<T>, ops: seq<Op<T>>)
    requires Tracks(r, m.count) && Fits(|m.count|, ops) && Run(r, ops) && HarmlessRun(r.size, m, ops)
    requires m.count[|m.count| - 1] >= 0
    ensures Grounded(m.count, ops)
    ensures AfterIdeal(m, ops).count == Counts(m.count, ops)
    ensures Counts(m.count, ops)[|m.count| - 1] >= 0
    decreases |ops|
  {
    if ops != [] {
      var k := |ops| - 1;
      HarmlessIsGrounded(r, m, ops[..k]);
      RunTracks(r, m.count, ops[..k]);
      HarmlessUndoIsGrounded(After(r, ops[..k]), AfterIdeal(m, ops[..k]), ops[k]);
      GroundedExtends(m.count, ops);
    }
  }

  lemma GroundedExtends<T>(c: seq<int>, ops: seq<Op<T>>)
    requires Fits(|c|, ops) && ops != [] && Grounded(c, ops[..|ops| - 1])
    requires var k := |ops| - 1; ops[k].Undo? ==> Counts(c, ops[..k])[ops[k].stage] > 0
    ensures Grounded(c, ops)
  {
    var front := ops[..|ops| - 1];
    forall j | 0 <= j < |ops| && ops[j].Undo? ensures Counts(c, ops[..j])[ops[j].stage] > 0 {
      if j < |front| { assert front[..j] == ops[..j] && front[j] == ops[j]; }
    }
  }
}
