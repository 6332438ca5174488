/**
 * Starting and completing SPI transfers: the busy flag of tc6-stub.c on top of the
 * busy flag of dmaspi.c.
 *
 * The main loop claims the stub, then the DMA, then starts the hardware. The DMA
 * interrupt may come as soon as the hardware runs, in particular before the start
 * call has returned; its handler gives both flags back and may start the next
 * transfer on the spot.
 */
module SpiHandshake {
  import opened Words

  const DMA_AVAILABLE: uint8 := 0
  const DMA_BUSY: uint8 := 0x55
  const STUB_BUSY: uint8 := 1

  datatype Flags = Flags(stub: uint8, dma: uint8, txonly: uint8)

  /** dmaSpiStartTransaction; `tx` and `rx` say which buffers are given. */
  function StartDma(f: Flags, tx: bool, rx: bool): (Flags, uint8) {
    if f.dma == DMA_AVAILABLE && (tx || rx) then
      (f.(dma := DMA_BUSY, txonly := if tx && !rx then 1 else 0), DMA_BUSY)
    else
      (f, DMA_AVAILABLE)
  }

  /** TC6Stub_SpiTransaction, if nothing interrupts it. */
  function Transaction(f: Flags, isOpen: bool, tx: bool, rx: bool): (Flags, bool) {
    if isOpen && f.stub == 0 then
      var (g, result) := StartDma(f.(stub := STUB_BUSY), tx, rx);
      if result == DMA_AVAILABLE then (g.(stub := 0), false) else (g, true)
    else
      (f, false)
  }

  /** DMA0_Callback on a finished transfer. */
  function Dma0(f: Flags): Flags {
    if f.txonly == 1 then f.(txonly := 0, dma := DMA_AVAILABLE) else f
  }

  /** DMA1_Callback on a finished transfer, up to and including TC6_SpiTransaction_status. */
  function Dma1(f: Flags): Flags {
    f.(dma := DMA_AVAILABLE, stub := DMA_AVAILABLE)
  }

  class Spi {
    var isOpen: bool
    var stubBusy: uint8
    var dmaBusy: uint8
    var txonly: uint8

    function View(): Flags
      reads this
    {
      Flags(stubBusy, dmaBusy, txonly)
    }

    constructor ()
      ensures isOpen && View() == Flags(0, 0, 0)
    {
      isOpen, stubBusy, dmaBusy, txonly := true, 0, 0, 0;
    }

    method DmaSpiStartTransaction(tx: bool, rx: bool) returns (result: uint8)
      modifies this`dmaBusy, this`txonly
      ensures (View(), result) == StartDma(old(View()), tx, rx)
    {
      result := DMA_AVAILABLE;
      if dmaBusy == 0 && (tx || rx) {
        dmaBusy := DMA_BUSY;
        txonly := 0;
        if tx && rx {
        } else if !tx {
        } else {
          txonly := 1;
        }
        result := DMA_BUSY;
      }
    }

    method SpiTransaction(tx: bool, rx: bool) returns (success: bool)
      modifies this`stubBusy, this`dmaBusy, this`txonly
      ensures (View(), success) == Transaction(old(View()), isOpen, tx, rx)
    {
      success := false;
      if isOpen && stubBusy == 0 {
        stubBusy := STUB_BUSY;
        var result := DmaSpiStartTransaction(tx, rx);
        if result == DMA_AVAILABLE {
          stubBusy := 0;
        } else {
          success := true;
        }
      }
    }

    method Dma0Callback(transferDone: bool)
      modifies this`dmaBusy, this`txonly
      ensures View() == if transferDone then Dma0(old(View())) else old(View())
    {
      if transferDone && txonly == 1 {
        txonly := 0;
        dmaBusy := DMA_AVAILABLE;
      }
    }

    /** The completion handler runs after the DMA is free, because it asks for the status. */
    method Dma1Callback(transferDone: bool)
      modifies this`dmaBusy, this`stubBusy
      ensures View() == if transferDone then Dma1(old(View())) else old(View())
    {
      if transferDone {
        dmaBusy := DMA_AVAILABLE;
        TransactionDone();
      }
    }

    method TransactionDone()
      modifies this`stubBusy
      ensures View() == old(View()).(stub := dmaBusy)
    {
      stubBusy := dmaBusy;
    }
  }

  // ---------------------------------------------------------------------
  // Interleavings
  // ---------------------------------------------------------------------

  /** How far the main loop is inside TC6Stub_SpiTransaction. */
  datatype Pc = Idle | Checked | Claimed | DmaChecked | DmaClaimed | Started

  /**
   * `tx` and `rx` are the buffers of the call under way. `running`: the hardware is
   * transferring. `done`: the completion flag of the receive channel, cleared by the
   * interrupt routine after the callback, so `done && inIsr` has been handled.
   */
  datatype State = State(flags: Flags, pc: Pc, tx: bool, rx: bool, running: bool, done: bool, inIsr: bool,
                         starts: nat, completions: nat, accepted: nat) {
    /** A started transfer whose completion has not been handled yet. */
    predicate Outstanding() {
      running || (done && !inIsr)
    }
  }

  const BOOT: State := State(Flags(0, 0, 0), Idle, false, false, false, false, false, 0, 0, 0)

  /**
   * Main: one step of the main loop; `tx` and `rx` matter where a call begins.
   * TxDone: the interrupt of the transmit channel. HardwareDone: the receive channel
   * finishes. Isr, IsrEnd: its interrupt routine up to and after the callback, from
   * which the library may start the next transfer.
   */
  datatype Step = Main(tx: bool, rx: bool) | TxDone | HardwareDone | Isr(startsNext: bool, tx: bool, rx: bool) | IsrEnd

  /** Interrupt routines do not nest; only a transfer that receives ends on the receive channel. */
  predicate Enabled(s: State, a: Step) {
    match a
    case Main(_, _) => !s.inIsr
    case TxDone => s.running && !s.inIsr
    case HardwareDone => s.running && s.flags.txonly == 0
    case Isr(_, _, _) => s.done && !s.inIsr
    case IsrEnd => s.inIsr
  }

  function MainStep(s: State, tx: bool, rx: bool): State {
    match s.pc
    case Idle => if s.flags.stub == 0 then s.(pc := Checked, tx := tx, rx := rx) else s
    case Checked => s.(flags := s.flags.(stub := STUB_BUSY), pc := Claimed)
    case Claimed =>
      if s.flags.dma == DMA_AVAILABLE && (s.tx || s.rx) then s.(pc := DmaChecked)
      else s.(flags := s.flags.(stub := 0), pc := Idle)
    case DmaChecked =>
      s.(flags := s.flags.(dma := DMA_BUSY, txonly := if s.tx && !s.rx then 1 else 0), pc := DmaClaimed)
    case DmaClaimed => s.(running := true, starts := s.starts + 1, pc := Started)
    case Started => s.(accepted := s.accepted + 1, pc := Idle)
  }

  function IsrStep(s: State, startsNext: bool, tx: bool, rx: bool): State {
    var s' := s.(flags := Dma1(s.flags), completions := s.completions + 1, inIsr := true);
    var (f, ok) := Transaction(s'.flags, true, tx, rx);
    if startsNext && ok then
      s'.(flags := f, running := true, starts := s'.starts + 1, accepted := s'.accepted + 1)
    else s'
  }

  function Next(s: State, a: Step): State {
    match a
    case Main(tx, rx) => MainStep(s, tx, rx)
    case TxDone => s.(flags := Dma0(s.flags), running := s.running && s.flags.txonly == 0)
    case HardwareDone => s.(running := false, done := true)
    case Isr(startsNext, tx, rx) => IsrStep(s, startsNext, tx, rx)
    case IsrEnd => s.(done := false, inIsr := false)
  }

  function After(steps: seq<Step>): State {
    if steps == [] then BOOT else var k := |steps| - 1; Next(After(steps[..k]), steps[k])
  }

  predicate Run(steps: seq<Step>) {
    steps == [] || (var k := |steps| - 1; Run(steps[..k]) && Enabled(After(steps[..k]), steps[k]))
  }

  /**
   * The two ways in which the stub never hears of a completion: a transmit-only
   * transfer, whose interrupt frees the DMA alone, and a transfer that finishes inside
   * the interrupt routine that started it, before the routine clears its flag.
   */
  predicate Loses(s: State, a: Step) {
    (a.TxDone? && s.flags.txonly == 1) || (a.HardwareDone? && s.inIsr)
  }

  predicate NothingLost(steps: seq<Step>) {
    steps == [] || (var k := |steps| - 1; NothingLost(steps[..k]) && !Loses(After(steps[..k]), steps[k]))
  }

  /** Neither flag is stuck and neither has been cleared too early. */
  predicate FlagsAgree(s: State) {
    (s.flags.stub != 0) == s.Outstanding() && (s.flags.dma != 0) == s.Outstanding()
  }

  predicate InCall(s: State) {
    s.pc != Idle && s.pc != Started
  }

  /**
   * At most one transfer is outstanding, every start has one completion, and while no
   * start call is under way both flags say whether a transfer is outstanding.
   */
  predicate Healthy(s: State) {
    && s.starts == s.completions + (if s.Outstanding() then 1 else 0)
    && s.starts == s.accepted + (if s.pc == Started then 1 else 0)
    && (!InCall(s) ==> FlagsAgree(s))
  }

  /** The stub is busy although nothing is outstanding. */
  predicate Stuck(s: State) {
    && !s.running && (s.done ==> s.inIsr) && !InCall(s)
    && s.flags.stub != 0 && s.starts == s.completions + 1
  }

  predicate Inv(s: State) {
    && Healthy(s)
    && !(s.running && s.done && !s.inIsr)
    && (s.inIsr ==> s.done)
    && s.flags.txonly <= 1
    && (InCall(s) ==> !s.Outstanding() && !s.inIsr)
    && match s.pc
       case Idle => s.flags.txonly == 0 || s.running
       case Started => s.flags.txonly == 0 || s.running
       case Checked => s.flags == Flags(0, 0, 0)
       case Claimed => s.flags == Flags(STUB_BUSY, 0, 0)
       case DmaChecked => s.flags == Flags(STUB_BUSY, 0, 0) && (s.tx || s.rx)
       case DmaClaimed => s.flags.stub == STUB_BUSY && s.flags.dma == DMA_BUSY
  }

  lemma StepKeepsInv(s: State, a: Step)
    requires Inv(s) && Enabled(s, a)
    ensures if Loses(s, a) then Stuck(Next(s, a)) else Inv(Next(s, a))
  {
  }

  lemma StuckStays(s: State, a: Step)
    requires Stuck(s) && Enabled(s, a)
    ensures Stuck(Next(s, a)) && Next(s, a).starts == s.starts && !Loses(s, a)
  {
  }

  lemma {:induction false} RunKeepsInv(steps: seq<Step>)
    requires Run(steps)
    ensures NothingLost(steps) ==> Inv(After(steps))
    ensures !NothingLost(steps) ==> Stuck(After(steps))
    decreases |steps|
  {
    if steps != [] {
      var k := |steps| - 1;
      RunKeepsInv(steps[..k]);
      if NothingLost(steps[..k]) {
        StepKeepsInv(After(steps[..k]), steps[k]);
      } else {
        StuckStays(After(steps[..k]), steps[k]);
      }
    }
  }

  /**
   * Every interleaving, for transfers of every kind: the handshake is healthy at all
   * times exactly as long as no completion has been lost in one of the two ways.
   */
  lemma {:induction false} OneCompletionPerStart(steps: seq<Step>)
    requires Run(steps)
    ensures Healthy(After(steps)) <==> NothingLost(steps)
  {
    RunKeepsInv(steps);
  }

  /** And once one has been lost no transfer is ever started again. */
  lemma {:induction false} LostIsForEver(steps: seq<Step>, k: nat)
    requires Run(steps) && k <= |steps| && !NothingLost(steps[..k])
    ensures Stuck(After(steps)) && After(steps).starts == After(steps[..k]).starts
    decreases |steps|
  {
    var n := |steps| - 1;
    if k == |steps| {
      assert steps[..k] == steps;
      RunKeepsInv(steps);
    } else {
      assert steps[..n][..k] == steps[..k];
      LostIsForEver(steps[..n], k);
      StuckStays(After(steps[..n]), steps[n]);
    }
  }

  lemma {:induction false} Push(steps: seq<Step>, a: Step) returns (more: seq<Step>)
    requires Run(steps) && Enabled(After(steps), a)
    ensures Run(more) && After(more) == Next(After(steps), a) && more == steps + [a]
  {
    more := steps + [a];
    assert more[..|steps|] == steps;
  }

  /** A first transfer of the given kind, as far as the hardware running. */
  lemma {:induction false} FirstTransfer(tx: bool, rx: bool) returns (steps: seq<Step>)
    requires tx || rx
    ensures Run(steps)
    ensures After(steps) ==
      State(Flags(STUB_BUSY, DMA_BUSY, if rx then 0 else 1), Idle, tx, rx, true, false, false, 1, 0, 1)
  {
    steps := [];
    for k := 0 to 6
      invariant Run(steps)
      invariant After(steps) == match k
        case 0 => BOOT
        case 1 => BOOT.(pc := Checked, tx := tx, rx := rx)
        case 2 => BOOT.(pc := Claimed, tx := tx, rx := rx, flags := Flags(STUB_BUSY, 0, 0))
        case 3 => BOOT.(pc := DmaChecked, tx := tx, rx := rx, flags := Flags(STUB_BUSY, 0, 0))
        case 4 => BOOT.(pc := DmaClaimed, tx := tx, rx := rx, flags := Flags(STUB_BUSY, DMA_BUSY, if rx then 0 else 1))
        case 5 => State(Flags(STUB_BUSY, DMA_BUSY, if rx then 0 else 1), Started, tx, rx, true, false, false, 1, 0, 0)
        case _ => State(Flags(STUB_BUSY, DMA_BUSY, if rx then 0 else 1), Idle, tx, rx, true, false, false, 1, 0, 1)
    {
      steps := Push(steps, Main(tx, rx));
    }
  }

  /** Both losses do happen, the second with transfers that receive. */
  lemma LossesHappen() returns (transmitOnly: seq<Step>, insideHandler: seq<Step>)
    ensures Run(transmitOnly) && Stuck(After(transmitOnly)) && After(transmitOnly).flags.dma == DMA_AVAILABLE
    ensures Run(insideHandler) && Stuck(After(insideHandler)) && After(insideHandler).flags.dma == DMA_BUSY
  {
    transmitOnly := FirstTransfer(true, false);
    transmitOnly := Push(transmitOnly, TxDone);
    insideHandler := FirstTransfer(true, true);
    insideHandler := Push(insideHandler, HardwareDone);
    insideHandler := Push(insideHandler, Isr(true, true, true));
    insideHandler := Push(insideHandler, HardwareDone);
  }

  /** Left alone, the six steps of the main loop are exactly one TC6Stub_SpiTransaction call. */
  lemma UninterruptedCall(s: State, tx: bool, rx: bool)
    requires s.pc == Idle && s.flags.stub == 0
    ensures var (f, ok) := Transaction(s.flags, true, tx, rx);
      var s3 := MainStep(MainStep(MainStep(s, tx, rx), tx, rx), tx, rx);
      if ok then
        MainStep(MainStep(MainStep(s3, tx, rx), tx, rx), tx, rx) ==
          s.(flags := f, tx := tx, rx := rx, running := true, starts := s.starts + 1, accepted := s.accepted + 1)
      else
        s3 == s.(flags := f, tx := tx, rx := rx)
  {
  }

  /**
   * What a transfer request answers: it starts one exactly if the stub is open, both
   * flags are free and a buffer is given, and then both flags are busy; otherwise
   * nothing changes.
   */
  lemma TransactionMeans(f: Flags, isOpen: bool, tx: bool, rx: bool)
    ensures var (g, ok) := Transaction(f, isOpen, tx, rx);
      && (ok <==> isOpen && f.stub == 0 && f.dma == 0 && (tx || rx))
      && g == (if ok then Flags(1, 0x55, if rx then 0 else 1) else f)
  {
  }

  /**
   * As long as nothing was lost, the completion handler finds both flags free, so that
   * the transfer it asks for, if any, is started.
   */
  lemma {:induction false} HandlerStartsNext(steps: seq<Step>, startsNext: bool, tx: bool, rx: bool)
    requires Run(steps) && NothingLost(steps) && Enabled(After(steps), Isr(startsNext, tx, rx))
    ensures var s, s' := After(steps), Next(After(steps), Isr(startsNext, tx, rx));
      && s'.completions == s.completions + 1
      && s'.starts == s.starts + (if startsNext && (tx || rx) then 1 else 0)
      && s'.accepted - s.accepted == s'.starts - s.starts
  {
    RunKeepsInv(steps);
  }
}
