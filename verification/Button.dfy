/**
 * The push button of app.c: debouncing, short presses reported on release and long
 * presses reported while held.
 */
module Button {
  import opened Words

  const DEBOUNCE_MS: int := 20

  datatype Btn = Btn(lastState: bool, debounced: bool, lastDebounceTime: uint32,
                     wasPressed: bool, pressStart: uint32, longDetected: bool)

  const RELEASED: Btn := Btn(false, false, 0, false, 0, false)

  /** debounce_button, called with the reported time `now` and the raw level. */
  function Debounce(b: Btn, now: uint32, raw: bool): Btn {
    var flipTime := if raw != b.lastState then now else b.lastDebounceTime;
    var settled := Sub32(now, flipTime) > DEBOUNCE_MS;
    var press := settled && !b.debounced && raw;
    var release := settled && b.debounced && !raw;
    Btn(raw,
        if settled then raw else b.debounced,
        flipTime,
        b.wasPressed || (release && !b.longDetected),
        if press then now else b.pressStart,
        b.longDetected && !press)
  }

  /** APP_Button_LongPress. */
  function LongPress(b: Btn, now: uint32, hold: uint32): (Btn, bool) {
    if b.debounced && !b.longDetected && Sub32(now, b.pressStart) >= hold then
      (b.(longDetected := true), true)
    else
      (b, false)
  }

  /** APP_Button_WasPressed. */
  function TakePress(b: Btn): (Btn, bool) {
    (b.(wasPressed := false), b.wasPressed)
  }

  class PushButton {
    var lastState: bool
    var debounced: bool
    var lastDebounceTime: uint32
    var wasPressed: bool
    var pressStart: uint32
    var longDetected: bool

    function View(): Btn
      reads this
    {
      Btn(lastState, debounced, lastDebounceTime, wasPressed, pressStart, longDetected)
    }

    constructor ()
      ensures View() == RELEASED
    {
      lastState, debounced, lastDebounceTime := false, false, 0;
      wasPressed, pressStart, longDetected := false, 0, false;
    }

    method Task(now: uint32, rawState: bool)
      modifies this
      ensures View() == Debounce(old(View()), now, rawState)
    {
      if rawState != lastState {
        lastDebounceTime := now;
      }
      if Sub32(now, lastDebounceTime) > DEBOUNCE_MS {
        if !debounced && rawState {
          pressStart := now;
          longDetected := false;
        }
        if debounced && !rawState {
          if !longDetected {
            wasPressed := true;
          }
        }
        debounced := rawState;
      }
      lastState := rawState;
    }

    method WasPressed() returns (pressed: bool)
      modifies this`wasPressed
      ensures (View(), pressed) == TakePress(old(View()))
    {
      pressed := false;
      if wasPressed {
        wasPressed := false;
        pressed := true;
      }
    }

    method IsLongPress(now: uint32, hold: uint32) returns (long: bool)
      modifies this`longDetected
      ensures (View(), long) == LongPress(old(View()), now, hold)
    {
      long := false;
      if debounced && !longDetected {
        if Sub32(now, pressStart) >= hold {
          longDetected := true;
          long := true;
        }
      }
    }
  }

  // ---------------------------------------------------------------------
  // Runs, against an unbounded clock
  // ---------------------------------------------------------------------

  datatype Action = Poll(raw: bool) | AskLong(hold: uint32) | AskPress

  datatype Event = Event(at: nat, action: Action)

  /**
   * The button together with what an observer has seen: the unbounded times behind
   * the 32-bit fields, the times of all debounced level changes, and how many presses,
   * releases, long reports and short events there have been; of the short ones, how
   * many were taken and how many came while another still waited to be taken.
   */
  datatype Traced = Traced(b: Btn, t: nat, flipAt: nat, pressAt: nat, changes: seq<nat>,
                           presses: nat, releases: nat, shorts: nat, longs: nat, taken: nat, missed: nat)

  const START: Traced := Traced(RELEASED, 0, 0, 0, [], 0, 0, 0, 0, 0, 0)

  function Polled(x: Traced, at: nat, raw: bool): Traced {
    var b' := Debounce(x.b, at % U32, raw);
    var press, release := !x.b.debounced && b'.debounced, x.b.debounced && !b'.debounced;
    var short := release && !x.b.longDetected;
    x.(b := b', t := at,
       flipAt := if raw != x.b.lastState then at else x.flipAt,
       pressAt := if press then at else x.pressAt,
       changes := if b'.debounced != x.b.debounced then x.changes + [at] else x.changes,
       presses := x.presses + (if press then 1 else 0),
       releases := x.releases + (if release then 1 else 0),
       shorts := x.shorts + (if short then 1 else 0),
       missed := x.missed + (if short && x.b.wasPressed then 1 else 0))
  }

  function AskedLong(x: Traced, at: nat, hold: uint32): (Traced, bool) {
    var (b', long) := LongPress(x.b, at % U32, hold);
    (x.(b := b', t := at, longs := x.longs + (if long then 1 else 0)), long)
  }

  function AskedPress(x: Traced, at: nat): (Traced, bool) {
    var (b', pressed) := TakePress(x.b);
    (x.(b := b', t := at, taken := x.taken + (if pressed then 1 else 0)), pressed)
  }

  function Next(x: Traced, e: Event): Traced {
    match e.action
    case Poll(raw) => Polled(x, e.at, raw)
    case AskLong(hold) => AskedLong(x, e.at, hold).0
    case AskPress => AskedPress(x, e.at).0
  }

  function After(events: seq<Event>): Traced {
    if events == [] then START else var k := |events| - 1; Next(After(events[..k]), events[k])
  }

  /** Polls and questions at any times, as long as reported time does not decrease. */
  predicate Run(events: seq<Event>) {
    events == [] || (var k := |events| - 1; Run(events[..k]) && After(events[..k]).t <= events[k].at)
  }

  ghost predicate Spaced(changes: seq<nat>) {
    forall i, j :: 0 <= i < j < |changes| ==> changes[j] > changes[i] + 20
  }

  ghost predicate TimesKnown(x: Traced) {
    && x.b.lastDebounceTime == x.flipAt % U32 && x.flipAt <= x.t
    && x.b.pressStart == x.pressAt % U32 && x.pressAt <= x.t
  }

  ghost predicate ChangesApart(x: Traced) {
    && Spaced(x.changes)
    && (x.changes != [] ==>
          && x.changes[|x.changes| - 1] <= x.t
          && (x.b.lastState != x.b.debounced ==> x.changes[|x.changes| - 1] <= x.flipAt))
  }

  ghost predicate EventsCounted(x: Traced) {
    && x.presses == x.releases + (if x.b.debounced then 1 else 0)
    && x.shorts + x.longs == x.releases + (if x.b.debounced && x.b.longDetected then 1 else 0)
    && x.taken + x.missed + (if x.b.wasPressed then 1 else 0) == x.shorts
  }

  ghost predicate Inv(x: Traced) {
    TimesKnown(x) && ChangesApart(x) && EventsCounted(x)
  }

  lemma StartIsSound()
    ensures Inv(START)
  {
  }

  lemma PollKeepsInv(x: Traced, at: nat, raw: bool)
    requires Inv(x) && x.t <= at
    ensures Inv(Polled(x, at, raw))
  {
    var x' := Polled(x, at, raw);
    ElapsedWord(x'.flipAt, at);
    if x'.changes != x.changes {
      assert at - x'.flipAt > DEBOUNCE_MS;
      assert raw == x.b.lastState;
    }
  }

  lemma AskKeepsInv(x: Traced, at: nat, hold: uint32)
    requires Inv(x) && x.t <= at
    ensures Inv(AskedLong(x, at, hold).0) && Inv(AskedPress(x, at).0)
  {
  }

  lemma StepKeepsInv(x: Traced, e: Event)
    requires Inv(x) && x.t <= e.at
    ensures Inv(Next(x, e)) && Next(x, e).t == e.at
  {
    match e.action
    case Poll(raw) => PollKeepsInv(x, e.at, raw);
    case AskLong(hold) => AskKeepsInv(x, e.at, hold);
    case AskPress => AskKeepsInv(x, e.at, 0);
  }

  lemma {:induction false} RunKeepsInv(events: seq<Event>)
    requires Run(events)
    ensures Inv(After(events))
    decreases |events|
  {
    if events != [] {
      var k := |events| - 1;
      RunKeepsInv(events[..k]);
      StepKeepsInv(After(events[..k]), events[k]);
    }
  }

  /** Debounced level changes are always more than 20 reported ms apart. */
  lemma {:induction false} ChangesAreSpaced(events: seq<Event>)
    requires Run(events)
    ensures Spaced(After(events).changes)
  {
    RunKeepsInv(events);
  }

  /**
   * Every debounced press yields exactly one event by the time it is released, either
   * one long-press report or one short press, and at most one before. Every short press
   * waits until it is taken, and is missed only if the one before it still waits.
   */
  ghost predicate OneEventEach(x: Traced) {
    && (if x.b.debounced then x.presses - 1 <= x.shorts + x.longs <= x.presses
        else x.shorts + x.longs == x.presses)
    && x.taken + x.missed + (if x.b.wasPressed then 1 else 0) == x.shorts
  }

  lemma CountedIsOneEach(x: Traced)
    requires EventsCounted(x)
    ensures OneEventEach(x)
  {
  }

  lemma {:induction false} OneEventPerPress(events: seq<Event>)
    requires Run(events)
    ensures OneEventEach(After(events))
  {
    RunKeepsInv(events);
    CountedIsOneEach(After(events));
  }

  /** A long press is reported only after the level has been down for the asked time. */
  lemma {:induction false} LongPressWasHeld(events: seq<Event>, at: nat, hold: uint32)
    requires Run(events) && After(events).t <= at
    requires AskedLong(After(events), at, hold).1
    ensures var x := After(events);
      x.b.debounced && at - x.pressAt >= hold && (x.changes != [] ==> x.changes[|x.changes| - 1] <= at)
  {
    RunKeepsInv(events);
    ElapsedWord(After(events).pressAt, at);
  }

  /** And it is reported as soon as it is asked for after that time. */
  lemma {:induction false} HeldIsReported(events: seq<Event>, at: nat, hold: uint32)
    requires Run(events) && After(events).t <= at
    requires var x := After(events);
      x.b.debounced && !x.b.longDetected && hold <= at - x.pressAt < U32
    ensures AskedLong(After(events), at, hold).1
  {
    RunKeepsInv(events);
    ElapsedWord(After(events).pressAt, at);
  }

  /** A level that has been seen unchanged for more than 20 ms is the debounced level. */
  lemma {:induction false} StableLevelIsSeen(events: seq<Event>, at: nat, raw: bool)
    requires Run(events)
    requires var x := After(events);
      raw == x.b.lastState && 20 < at - x.flipAt < U32
    ensures Polled(After(events), at, raw).b.debounced == raw
  {
    assert TimesKnown(After(events)) by { RunKeepsInv(events); }
    ElapsedWord(After(events).flipAt, at);
  }
}
