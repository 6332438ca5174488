/**
 * Waking the main loop: the interrupt counters of tc6-stub.c and the need-service
 * flag of tc6-lwip.c, with the pin interrupt of pins.c that feeds them.
 *
 * The MAC-PHY pulls its pin low when it wants service. A falling edge sets the
 * change flag; the interrupt routine calls IntHandler, which increments intIn, and
 * only afterwards clears the flag. TC6LwIP_Service compares intIn with intOut,
 * services the chip and, if it reads the pin high again, copies the reported count
 * to intOut. Pin edges and interrupts may fall between any two of these steps.
 */
module Wakeup {
  import opened Words

  // ---------------------------------------------------------------------
  // The interrupt counters
  // ---------------------------------------------------------------------

  datatype Ints = Ints(intIn: uint8, intOut: uint8, intReported: uint8)

  function Handled(v: Ints): Ints {
    v.(intIn := (v.intIn + 1) % U8)
  }

  function Report(v: Ints): Ints {
    v.(intReported := v.intIn)
  }

  predicate Active(v: Ints) {
    v.intReported != v.intOut
  }

  function Release(v: Ints, pinHigh: bool): Ints {
    if pinHigh then v.(intOut := v.intReported) else v
  }

  /** The interrupt part of Stub_Local_t. */
  class Stub {
    var intIn: uint8
    var intOut: uint8
    var intReported: uint8

    function View(): Ints
      reads this
    {
      Ints(intIn, intOut, intReported)
    }

    constructor ()
      ensures View() == Ints(0, 0, 0)
    {
      intIn, intOut, intReported := 0, 0, 0;
    }

    method IntHandler()
      modifies this`intIn
      ensures View() == Handled(old(View()))
    {
      intIn := (intIn + 1) % U8;
    }

    method IntActive() returns (active: bool)
      modifies this`intReported
      ensures View() == Report(old(View())) && active == Active(View())
    {
      intReported := intIn;
      active := intReported != intOut;
    }

    method ReleaseInt(pinHigh: bool)
      modifies this`intOut
      ensures View() == Release(old(View()), pinHigh)
    {
      if pinHigh {
        intOut := intReported;
      }
    }
  }

  // ---------------------------------------------------------------------
  // Interleavings
  // ---------------------------------------------------------------------

  /** Where TC6LwIP_Service is; each value is one atomic step away from the next. */
  datatype Pc = Top | Servicing | ReadPin | WriteOut | CheckNeed | ClearNeed | ServiceNeed

  /**
   * `flag` is the change flag of the pin, `inIsr` is set between IntHandler and the
   * clearing of that flag. `raised` counts edges handled so far, `reported` and
   * `released` are the unbounded values behind intReported and intOut; `unserved`
   * says that a need-service request came after the last service call started.
   */
  datatype State = State(ints: Ints, needService: bool, pc: Pc,
                         asserted: bool, flag: bool, inIsr: bool,
                         raised: nat, reported: nat, released: nat, unserved: bool, services: nat)

  const BOOT: State := State(Ints(0, 0, 0), false, Top, false, false, false, 0, 0, 0, false, 0)

  datatype Step =
    | PinFalls
    | PinRises
    | IsrHandler
    | IsrClear
    | NeedServiceRaised
    | Main(workDone: bool)

  predicate Enabled(s: State, a: Step) {
    match a
    case PinFalls => !s.asserted
    case PinRises => s.asserted
    case IsrHandler => s.flag && !s.inIsr
    case IsrClear => s.inIsr
    case NeedServiceRaised => true
    case Main(_) => !s.inIsr
  }

  function Serve(s: State): State {
    s.(unserved := false, services := s.services + 1)
  }

  /** One step of TC6LwIP_Service; `workDone` is what TC6_Service returns. */
  function MainStep(s: State, workDone: bool): State {
    match s.pc
    case Top =>
      var v := Report(s.ints);
      s.(ints := v, reported := s.raised, pc := if Active(v) then Servicing else CheckNeed)
    case Servicing => Serve(s).(pc := if workDone then ReadPin else Top)
    case ReadPin => s.(pc := if s.asserted then Top else WriteOut)
    case WriteOut => s.(ints := Release(s.ints, true), released := s.reported, pc := Top)
    case CheckNeed => s.(pc := if s.needService then ClearNeed else Top)
    case ClearNeed => s.(needService := false, pc := ServiceNeed)
    case ServiceNeed => Serve(s).(pc := Top)
  }

  function Next(s: State, a: Step): State {
    match a
    case PinFalls => s.(asserted := true, flag := true)
    case PinRises => s.(asserted := false)
    case IsrHandler => s.(ints := Handled(s.ints), raised := s.raised + 1, inIsr := true)
    case IsrClear => s.(flag := false, inIsr := false)
    case NeedServiceRaised => s.(needService := true, unserved := true)
    case Main(workDone) => MainStep(s, workDone)
  }

  function After(steps: seq<Step>): State {
    if steps == [] then BOOT else var k := |steps| - 1; Next(After(steps[..k]), steps[k])
  }

  /** Any interleaving of pin edges, interrupts, requests and main-loop steps. */
  predicate Run(steps: seq<Step>) {
    steps == [] || (var k := |steps| - 1; Run(steps[..k]) && Enabled(After(steps[..k]), steps[k]))
  }

  ghost predicate Inv(s: State) {
    && s.ints == Ints(s.raised % U8, s.released % U8, s.reported % U8)
    && s.released <= s.reported <= s.raised
    && (s.inIsr ==> s.raised > s.reported)
    && (s.asserted ==> s.flag || s.raised > (if s.pc == WriteOut then s.reported else s.released))
    && (s.unserved ==> s.needService || s.pc == ServiceNeed)
    && (s.pc == Servicing ==> s.reported > s.released)
  }

  lemma StepKeepsInv(s: State, a: Step)
    requires Inv(s) && Enabled(s, a)
    ensures Inv(Next(s, a))
  {
    match a
    case IsrHandler =>
      var x := s.raised % U8 + 1;
      DivModUnique(s.raised + 1, U8, s.raised / U8 + x / U8, x % U8);
    case Main(workDone) => MainKeepsInv(s, workDone);
    case _ =>
  }

  lemma MainKeepsInv(s: State, workDone: bool)
    requires Inv(s) && !s.inIsr
    ensures Inv(MainStep(s, workDone))
  {
    var v, s' := Report(s.ints), MainStep(s, workDone);
    match s.pc
    case Top =>
      assert v == Ints(s.raised % U8, s.released % U8, s.raised % U8);
      assert s.raised == s.released ==> !Active(v);
    case WriteOut =>
      assert s'.ints == Ints(s.raised % U8, s.reported % U8, s.reported % U8);
    case _ => assert s'.ints == s.ints;
  }

  lemma {:induction false} RunKeepsInv(steps: seq<Step>)
    requires Run(steps)
    ensures Inv(After(steps))
    decreases |steps|
  {
    if steps != [] {
      var k := |steps| - 1;
      RunKeepsInv(steps[..k]);
      StepKeepsInv(After(steps[..k]), steps[k]);
    }
  }

  lemma CountersDiffer(a: nat, b: nat)
    requires b <= a
    ensures a % U8 == b % U8 <==> (a - b) % U8 == 0
    ensures 0 < a - b < U8 ==> a % U8 != b % U8
  {
    var d := a - b;
    assert a % U8 == b % U8 ==> d == U8 * (a / U8 - b / U8);
    if d % U8 == 0 {
      DivModUnique(a, U8, b / U8 + d / U8, b % U8);
    }
  }

  /** An edge that has not been served is pending or visible in the counters. */
  ghost predicate Awake(s: State) {
    && s.released <= s.raised
    && (s.asserted && !s.flag ==> s.raised > s.released)
    && (s.ints.intIn == s.ints.intOut <==> (s.raised - s.released) % U8 == 0)
    && (s.asserted && s.raised - s.released < U8 ==> s.flag || s.ints.intIn != s.ints.intOut)
  }

  lemma InvIsAwake(s: State)
    requires Inv(s)
    ensures Awake(s)
  {
    CountersDiffer(s.raised, s.released);
  }

  /**
   * No lost wakeup, in every interleaving: while the pin is asserted, an interrupt is
   * pending, or intIn differs from intOut and the next pass will service the chip.
   * The only gap is the width of the counters, a multiple of 256 unreleased edges.
   */
  lemma {:induction false} NoLostInterrupt(steps: seq<Step>)
    requires Run(steps)
    ensures Awake(After(steps))
  {
    RunKeepsInv(steps);
    InvIsAwake(After(steps));
  }

  lemma {:induction false} Push(steps: seq<Step>, a: Step) returns (more: seq<Step>)
    requires Run(steps) && Enabled(After(steps), a)
    ensures Run(more) && After(more) == Next(After(steps), a)
  {
    more := steps + [a];
    assert more[..|steps|] == steps;
  }

  /** A run of `n` edges during which the main loop never gets to run. */
  lemma {:induction false} EdgesUnseen(n: nat) returns (steps: seq<Step>)
    ensures Run(steps) && After(steps) == Unseen(n, false)
    decreases n, 0
  {
    if n == 0 {
      steps := [];
    } else {
      var up := EdgeUnseen(n - 1);
      PinBackUp(n);
      steps := Push(up, PinRises);
    }
  }

  function Unseen(n: nat, asserted: bool): State {
    BOOT.(ints := Ints(n % U8, 0, 0), raised := n, asserted := asserted)
  }

  lemma PinBackUp(n: nat)
    ensures Enabled(Unseen(n, true), PinRises) && Next(Unseen(n, true), PinRises) == Unseen(n, false)
  {
  }

  lemma OneEdge(n: nat)
    ensures var s := Unseen(n, false);
      var s1 := Next(s, PinFalls);
      var s2 := Next(s1, IsrHandler);
      && Enabled(s, PinFalls) && Enabled(s1, IsrHandler) && Enabled(s2, IsrClear)
      && Next(s2, IsrClear) == Unseen(n + 1, true)
  {
    var x := n % U8 + 1;
    DivModUnique(n + 1, U8, n / U8 + x / U8, x % U8);
  }

  lemma {:induction false} EdgeUnseen(n: nat) returns (steps: seq<Step>)
    ensures Run(steps) && After(steps) == Unseen(n + 1, true)
    decreases n, 1
  {
    steps := EdgesUnseen(n);
    OneEdge(n);
    steps := Push(steps, PinFalls);
    steps := Push(steps, IsrHandler);
    steps := Push(steps, IsrClear);
  }

  /** The 256-edge gap is real: the pin is asserted and nothing shows it. */
  lemma GapAt256() returns (steps: seq<Step>)
    ensures Run(steps)
    ensures var s := After(steps);
      s.asserted && !s.flag && s.ints.intIn == s.ints.intOut && s.raised - s.released == U8
  {
    steps := EdgeUnseen(255);
  }

  /** What the pin, its interrupt routine and requests do before the main loop goes on. */
  function Meanwhile(s: State, steps: seq<Step>): State {
    if steps == [] then s else var k := |steps| - 1; Next(Meanwhile(s, steps[..k]), steps[k])
  }

  /** Steps that can happen then, none of them of the main loop, which afterwards can go on. */
  predicate Interlude(s: State, steps: seq<Step>) {
    && (forall k :: 0 <= k < |steps| ==> !steps[k].Main? && Enabled(Meanwhile(s, steps[..k]), steps[k]))
    && !Meanwhile(s, steps).inIsr
  }

  /** What nothing but the main loop changes. */
  predicate SamePass(s: State, s': State) {
    && s'.pc == s.pc && s'.services == s.services
    && s'.reported == s.reported && s'.released == s.released && s.raised <= s'.raised
    && (s.needService ==> s'.needService)
  }

  lemma {:induction false} MeanwhileKeepsPass(s: State, steps: seq<Step>)
    requires forall k :: 0 <= k < |steps| ==> !steps[k].Main?
    ensures SamePass(s, Meanwhile(s, steps))
    decreases |steps|
  {
    if steps != [] {
      MeanwhileKeepsPass(s, steps[..|steps| - 1]);
    }
  }

  /**
   * From there the next pass of the loop services the chip, whatever the pin, the
   * interrupt routine and further requests do between its steps (`pause1` to `pause3`);
   * and it gives up the interrupts reported at its start, and no others, exactly if it
   * then reads the pin high.
   */
  lemma {:induction false} AssertedPinIsServiced(steps: seq<Step>, pause1: seq<Step>, workDone: bool,
                                                 pause2: seq<Step>, pause3: seq<Step>)
    requires Run(steps)
    requires var s := After(steps);
      s.pc == Top && !s.inIsr && s.asserted && !s.flag && s.raised - s.released < U8
    ensures var s := After(steps);
      var s1 := MainStep(s, true);
      Interlude(s1, pause1) ==>
        var s2 := MainStep(Meanwhile(s1, pause1), workDone);
        && s2.services == s.services + 1 && s2.released == s.released
        && s2.pc == (if workDone then ReadPin else Top)
        && (workDone && Interlude(s2, pause2) ==>
              var now := Meanwhile(s2, pause2);
              var s3 := MainStep(now, true);
              && s3.released == s.released && s3.pc == (if now.asserted then Top else WriteOut)
              && (!now.asserted && Interlude(s3, pause3) ==>
                    Released(s, MainStep(Meanwhile(s3, pause3), true))))
  {
    var s := After(steps);
    var s1 := MainStep(s, true);
    StartsService(steps);
    if Interlude(s1, pause1) {
      MeanwhileKeepsPass(s1, pause1);
      var s2 := MainStep(Meanwhile(s1, pause1), workDone);
      if workDone && Interlude(s2, pause2) {
        MeanwhileKeepsPass(s2, pause2);
        var now := Meanwhile(s2, pause2);
        if !now.asserted { ReleaseFollows(s, s1, now, MainStep(now, true), pause3); }
      }
    }
  }

  /** The interrupts counted by the start of the pass are given up, and the pass is over. */
  predicate Released(s: State, s': State) {
    s'.pc == Top && s'.released == s.raised && s'.services == s.services + 1
  }

  lemma ReleaseFollows(s: State, s1: State, now: State, s3: State, pause: seq<Step>)
    requires s1.reported == s.raised == now.reported && now.pc == ReadPin && !now.asserted
    requires now.services == s.services + 1 && s3 == MainStep(now, true)
    ensures Interlude(s3, pause) ==> Released(s, MainStep(Meanwhile(s3, pause), true))
  {
    if Interlude(s3, pause) { MeanwhileKeepsPass(s3, pause); }
  }

  lemma {:induction false} StartsService(steps: seq<Step>)
    requires Run(steps)
    requires var s := After(steps);
      s.pc == Top && s.asserted && !s.flag && s.raised - s.released < U8
    ensures var s, s1 := After(steps), MainStep(After(steps), true);
      && s1.pc == Servicing && s1.services == s.services
      && s1.released == s.released && s1.reported == s.raised
  {
    NoLostInterrupt(steps);
    RunKeepsInv(steps);
  }

  /**
   * A need-service request is never dropped: until a service call starts after it,
   * the flag is set or that call is the very next step of the main loop.
   */
  lemma {:induction false} NoLostRequest(steps: seq<Step>)
    requires Run(steps)
    ensures var s := After(steps);
      s.unserved ==> s.needService || (s.pc == ServiceNeed && !MainStep(s, true).unserved)
  {
    RunKeepsInv(steps);
  }

  /**
   * And a pass that starts without an unreleased interrupt serves it: with the flag set
   * when it is looked at, the pass clears it and then calls the service once; without,
   * it ends there. Pin edges, interrupts and requests may fall between its steps.
   */
  lemma {:induction false} RequestIsServed(steps: seq<Step>, pause1: seq<Step>, pause2: seq<Step>, pause3: seq<Step>)
    requires Run(steps)
    requires var s := After(steps); s.pc == Top && !s.inIsr && s.ints.intIn == s.ints.intOut
    ensures var s := After(steps);
      var s1 := MainStep(s, true);
      Interlude(s1, pause1) ==>
        var look := Meanwhile(s1, pause1);
        && (s.needService ==> look.needService)
        && (if !look.needService then MainStep(look, true).pc == Top && MainStep(look, true).services == s.services
            else Interlude(MainStep(look, true), pause2) ==>
              Serves(s, MainStep(Meanwhile(MainStep(look, true), pause2), true), pause3))
  {
    var s := After(steps);
    var s1 := MainStep(s, true);
    if Interlude(s1, pause1) {
      MeanwhileKeepsPass(s1, pause1);
      var s2 := MainStep(Meanwhile(s1, pause1), true);
      if s2.pc == ClearNeed && Interlude(s2, pause2) {
        MeanwhileKeepsPass(s2, pause2);
        var s3 := MainStep(Meanwhile(s2, pause2), true);
        if Interlude(s3, pause3) { MeanwhileKeepsPass(s3, pause3); }
      }
    }
  }

  /** At s3 the flag has been cleared, and the next step of the main loop is the service call. */
  predicate Serves(s: State, s3: State, pause: seq<Step>) {
    !s3.needService &&
    (Interlude(s3, pause) ==>
       var s4 := MainStep(Meanwhile(s3, pause), true);
       s4.services == s.services + 1 && !s4.unserved && s4.pc == Top)
  }
}
