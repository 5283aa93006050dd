/**
 The motor driver's speed levels and its PD regulator, in the 16-bit arithmetic of the processor.
 Each motor is set by commands and counts impulses; a timer interrupt regulates it.
 */
module MotorDriver {
  import Protocol

  type Byte = Protocol.Byte
  type Word = x: int | 0 <= x < 0x1_0000
  type Short = x: int | -0x8000 <= x < 0x8000

  // Impulses per interval of each level, and the PWM values the motors start it with.
  const LEVELS: nat := 12
  const REF_SPEEDS: seq<Byte> := [0, 10, 20, 28, 36, 46, 54, 66, 74, 84, 92, 255]
  const M1_SPEEDS: seq<Byte> := [0, 40, 50, 60, 75, 100, 130, 160, 180, 200, 230, 255]
  const M2_SPEEDS: seq<Byte> := [0, 65, 75, 90, 100, 125, 150, 170, 190, 215, 240, 255]
  const FIXED_DRIVE_CYCLES: Byte := 3

  // Two letters that a debug build, as configured, takes for the lowest and the highest level.
  const LETTER_0: Byte := 48
  const LETTER_M: Byte := 109

  const MOTOR1: Byte := 0
  const SET_SPEED: Byte := 2
  const SET_DIRECTION: Byte := 4
  const BRAKE: Byte := 5

  datatype Direction = Stop | Forward | Backward

  function DirectionOf(b: Byte): Direction { if b == 1 then Forward else if b == 2 then Backward else Stop }

  /** `hold`: timer interrupts for which the PWM value is still fixed. `output`: whether the PWM signal
      reaches its pin. `forward`, `backward`: the pins of the bridge; both high brakes. */
  datatype MotorState = MotorState(
    direction: Direction, refSpeed: Byte, counter: Word, prevError: Short, hold: Byte,
    pwm: Byte, output: bool, forward: bool, backward: bool)

  // ---- 16-bit arithmetic ----

  /** The 16-bit value that two's complement wraps an integer to. */
  function ToShort(x: int): (s: Short)
    ensures Representable(x) ==> s == x
    decreases if x < 0 then -2 * x else 2 * x + 1
  {
    if x < -0x8000 then ToShort(x + 0x1_0000) else if x > 0x7FFF then ToShort(x - 0x1_0000) else x
  }

  lemma {:induction false} WrapsModulo(x: int)
    ensures (x - ToShort(x)) % 0x1_0000 == 0
    decreases if x < 0 then -2 * x else 2 * x + 1
  {
    if x < -0x8000 {
      WrapsModulo(x + 0x1_0000);
    } else if x > 0x7FFF {
      WrapsModulo(x - 0x1_0000);
    }
  }

  predicate Representable(x: int) { -0x8000 <= x < 0x8000 }

  /** C's division truncates. */
  function Hundredth(x: int): int { if x >= 0 then x / 100 else -(-x / 100) }

  function Limit(x: int): Byte { if x < 0 then 0 else if x > 255 then 255 else x }

  function Error(m: MotorState): Short { ToShort(m.counter - m.refSpeed) }

  // The gains of the regulator are 60 and 30 percent.
  function Proportional(error: int): int { 60 * error }

  function Derivative(change: int): int { 30 * change }

  /** What the regulator takes off the power. */
  function Correction(m: MotorState): int {
    var error := Error(m);
    var change := ToShort(error - m.prevError);
    Hundredth(ToShort(Proportional(error))) + Hundredth(ToShort(Derivative(change)))
  }

  function Regulated(m: MotorState): Byte { Limit(ToShort(m.pwm - Correction(m))) }

  // ---- Commands and interrupts on one motor ----

  function RefOf(speed: Byte): Byte {
    if speed == LETTER_0 then REF_SPEEDS[0]
    else if speed == LETTER_M then REF_SPEEDS[LEVELS - 1]
    else REF_SPEEDS[speed % LEVELS]
  }

  function FirstFrom(i: nat, ref: Byte): (k: nat)
    ensures k < LEVELS
    decreases LEVELS - i
  {
    if i >= LEVELS then 0 else if REF_SPEEDS[i] == ref then i else FirstFrom(i + 1, ref)
  }

  function AfterSpeed(m: MotorState, levels: seq<Byte>, speed: Byte): MotorState
    requires |levels| == LEVELS
  {
    if RefOf(speed) == m.refSpeed then m
    else m.(pwm := levels[speed % LEVELS], hold := FIXED_DRIVE_CYCLES, refSpeed := RefOf(speed))
  }

  function AfterDirection(m: MotorState, levels: seq<Byte>, direction: Byte): MotorState
    requires |levels| == LEVELS
  {
    var d := DirectionOf(direction);
    if d == m.direction then m.(output := d != Stop)
    else m.(output := d != Stop, pwm := levels[FirstFrom(0, m.refSpeed)], hold := FIXED_DRIVE_CYCLES, direction := d,
            counter := 0, forward := d != Backward, backward := d != Forward)
  }

  function AfterImpulse(m: MotorState): MotorState { m.(counter := (m.counter + 1) % 0x1_0000) }

  function AfterTimer(m: MotorState): MotorState {
    if m.hold > 0 then m.(hold := m.hold - 1)
    else if m.direction == Stop then m.(prevError := 0, pwm := 0)
    else m.(pwm := Regulated(m), prevError := Error(m), counter := 0)
  }

  class Motor {
    const levels: seq<Byte>
    var direction: Direction
    var refSpeed: Byte
    var counter: Word
    var prevError: Short
    var hold: Byte
    var pwm: Byte
    var output: bool
    var forward: bool
    var backward: bool

    function State(): MotorState
      reads this
    {
      MotorState(direction, refSpeed, counter, prevError, hold, pwm, output, forward, backward)
    }

    constructor (levels: seq<Byte>)
      ensures this.levels == levels && State() == START
    {
      this.levels := levels;
      direction, refSpeed, counter, prevError, hold := Stop, 0, 0, 0, 0;
      pwm, output, forward, backward := 0, false, false, false;
    }

    method SetSpeed(speed: Byte)
      requires |levels| == LEVELS
      modifies this
      ensures State() == AfterSpeed(old(State()), levels, speed)
    {
      var newRefSpeed := REF_SPEEDS[speed % LEVELS];
      if speed == LETTER_0 {
        newRefSpeed := REF_SPEEDS[0];
      } else if speed == LETTER_M {
        newRefSpeed := REF_SPEEDS[LEVELS - 1];
      }
      if newRefSpeed != refSpeed {
        pwm := levels[speed % LEVELS];
        hold := FIXED_DRIVE_CYCLES;
        refSpeed := newRefSpeed;
      }
    }

    method SetDirection(raw: Byte)
      requires |levels| == LEVELS
      modifies this
      ensures State() == AfterDirection(old(State()), levels, raw)
    {
      var newDirection := DirectionOf(raw);
      output := newDirection != Stop;
      var index, i := 0, 0;
      while i < LEVELS
        invariant i <= LEVELS && index == 0 && FirstFrom(0, refSpeed) == FirstFrom(i, refSpeed)
      {
        if REF_SPEEDS[i] == refSpeed {
          index := i;
          break;
        }
        i := i + 1;
      }
      if newDirection != direction {
        pwm := levels[index];
        hold := FIXED_DRIVE_CYCLES;
        direction := newDirection;
        counter := 0;
        forward, backward := newDirection != Backward, newDirection != Forward;
      }
    }

    /** The encoder interrupt. */
    method Impulse()
      modifies this`counter
      ensures State() == AfterImpulse(old(State()))
    {
      counter := (counter + 1) % 0x1_0000;
    }

    method Regulate() returns (power: Byte)
      modifies this`prevError, this`counter
      ensures direction == Stop ==> power == 0 && prevError == 0 && counter == old(counter)
      ensures direction != Stop ==> power == Regulated(old(State())) && prevError == Error(old(State())) && counter == 0
    {
      if direction == Stop {
        prevError := 0;
        return 0;
      }
      var error: int := ToShort(counter - refSpeed);
      var change: int := ToShort(error - prevError);
      var result := ToShort(pwm - (Hundredth(ToShort(60 * error)) + Hundredth(ToShort(30 * change))));
      prevError := error;
      counter := 0;
      power := Limit(result);
    }

    /** This motor's half of the timer interrupt. */
    method Timer()
      modifies this
      ensures State() == AfterTimer(old(State()))
    {
      if hold == 0 {
        pwm := Regulate();
      } else {
        hold := hold - 1;
      }
    }
  }

  /** After a reset all fields are zero, and `init` finds both motors stopped already. */
  const START: MotorState := MotorState(Stop, 0, 0, 0, 0, 0, false, false, false)

  class Driver {
    const motor1: Motor
    const motor2: Motor

    ghost predicate Valid() { motor1 != motor2 && motor1.levels == M1_SPEEDS && motor2.levels == M2_SPEEDS }

    constructor ()
      ensures Valid() && fresh(motor1) && fresh(motor2)
      ensures motor1.State() == START && motor2.State() == START
    {
      var first := new Motor(M1_SPEEDS);
      var second := new Motor(M2_SPEEDS);
      first.SetDirection(0);
      second.SetDirection(0);
      motor1, motor2 := first, second;
    }

    /** What the main loop does for a message in the receive buffer. */
    method Execute(message: seq<Byte>)
      requires Valid() && |message| >= 3
      modifies motor1, motor2
      ensures motor1.State() == AfterMessage(old(motor1.State()), M1_SPEEDS, message, message[1] == MOTOR1)
      ensures motor2.State() == AfterMessage(old(motor2.State()), M2_SPEEDS, message, message[1] != MOTOR1)
      ensures message[0] == BRAKE ==> motor1.direction == Stop && !motor1.output && motor2.direction == Stop && !motor2.output
    {
      var motor := if message[1] == MOTOR1 then motor1 else motor2;
      if message[0] == BRAKE {
        motor1.SetDirection(0);
        motor2.SetDirection(0);
      } else if message[0] == SET_SPEED {
        motor.SetSpeed(message[2]);
      } else if message[0] == SET_DIRECTION {
        motor.SetDirection(message[2]);
      }
    }

    method TimerIsr()
      requires Valid()
      modifies motor1, motor2
      ensures motor1.State() == AfterTimer(old(motor1.State())) && motor2.State() == AfterTimer(old(motor2.State()))
    {
      motor1.Timer();
      motor2.Timer();
    }
  }

  function AfterMessage(m: MotorState, levels: seq<Byte>, message: seq<Byte>, addressed: bool): MotorState
    requires |message| >= 3 && |levels| == LEVELS
  {
    if message[0] == BRAKE then AfterDirection(m, levels, 0)
    else if message[0] == SET_SPEED && addressed then AfterSpeed(m, levels, message[2])
    else if message[0] == SET_DIRECTION && addressed then AfterDirection(m, levels, message[2])
    else m
  }

  // ---- The regulator's arithmetic ----

  /** No intermediate value of the regulator leaves the 16-bit range. */
  predicate Exact(m: MotorState) {
    var e := m.counter - m.refSpeed;
    && Representable(e) && Representable(Proportional(e))
    && Representable(e - m.prevError) && Representable(Derivative(e - m.prevError))
  }

  /** The PD formula over the integers, divisions truncating, clamped to a byte. */
  function Ideal(pwm: Byte, error: int, previous: int): Byte {
    Limit(pwm - (Hundredth(Proportional(error)) + Hundredth(Derivative(error - previous))))
  }

  /** The division rounds towards zero, the clamping picks the nearest byte. */
  lemma HundredthTruncates(x: int)
    ensures x >= 0 ==> 100 * Hundredth(x) <= x < 100 * Hundredth(x) + 100
    ensures x <= 0 ==> 100 * Hundredth(x) - 100 < x <= 100 * Hundredth(x)
  {
  }

  lemma LimitNearest(x: int, b: Byte)
    ensures x <= Limit(x) ==> Limit(x) - x <= b - x || b < x
    ensures x >= Limit(x) ==> x - Limit(x) <= x - b || b > x
    ensures Limit(b) == b
  {
  }

  lemma HundredthSmall(x: int)
    requires Representable(x)
    ensures -328 < Hundredth(x) < 328
  {
  }

  /** The arithmetic is exact exactly if the count is at most 546 off and the error moved by at most
      1092; ... */
  lemma ExactIff(m: MotorState)
    ensures Exact(m)
       <==> -546 <= m.counter - m.refSpeed <= 546 && -1092 <= m.counter - m.refSpeed - m.prevError <= 1092
  {
  }

  /** ... the regulator then computes the PD formula. */
  lemma ExactIsIdeal(m: MotorState)
    requires Exact(m)
    ensures Error(m) == m.counter - m.refSpeed
    ensures Regulated(m) == Ideal(m.pwm, m.counter - m.refSpeed, m.prevError)
  {
    RegulatesIdeally(m, m.counter - m.refSpeed);
  }

  lemma RegulatesIdeally(m: MotorState, e: int)
    requires Exact(m) && e == m.counter - m.refSpeed
    ensures Error(m) == e && Regulated(m) == Ideal(m.pwm, e, m.prevError)
  {
    var p, d := Proportional(e), Derivative(e - m.prevError);
    HundredthSmall(p);
    HundredthSmall(d);
  }

  lemma HundredthMonotone(a: int, b: int)
    requires a <= b
    ensures Hundredth(a) <= Hundredth(b)
  {
  }

  /** More impulses never get more power, within that range ... */
  lemma MoreImpulsesLessPower(m: MotorState, more: Word)
    requires m.counter <= more && Exact(m) && Exact(m.(counter := more))
    ensures Regulated(m) >= Regulated(m.(counter := more))
  {
    var e, f := m.counter - m.refSpeed, more - m.refSpeed;
    RegulatesIdeally(m, e);
    RegulatesIdeally(m.(counter := more), f);
    IdealFalls(m.pwm, e, f, m.prevError);
  }

  lemma IdealFalls(pwm: Byte, e: int, f: int, previous: int)
    requires e <= f
    ensures Ideal(pwm, e, previous) >= Ideal(pwm, f, previous)
  {
    HundredthMonotone(Proportional(e), Proportional(f));
    HundredthMonotone(Derivative(e - previous), Derivative(f - previous));
  }

  /** ... but one impulse beyond it, far too many, gets full power. */
  lemma OneImpulseTooMany(m: MotorState)
    requires m.refSpeed == 0 && m.prevError == 0 && m.pwm == 100
    ensures Regulated(m.(counter := 546)) == 0 && Regulated(m.(counter := 547)) == 255
  {
  }

  // ---- Runs of one motor ----

  datatype Event = Speed(speed: Byte) | Direct(direction: Byte) | Impulse | Timer

  function Next(m: MotorState, levels: seq<Byte>, e: Event): MotorState
    requires |levels| == LEVELS
  {
    match e
    case Speed(speed) => AfterSpeed(m, levels, speed)
    case Direct(direction) => AfterDirection(m, levels, direction)
    case Impulse => AfterImpulse(m)
    case Timer => AfterTimer(m)
  }

  function After(m: MotorState, levels: seq<Byte>, events: seq<Event>): MotorState
    requires |levels| == LEVELS
    decreases |events|
  {
    if events == [] then m else After(Next(m, levels, events[0]), levels, events[1..])
  }

  predicate Regulates(m: MotorState, e: Event) { e.Timer? && m.hold == 0 && m.direction != Stop }

  /** A predicate of every state in which the run regulates. */
  ghost predicate Throughout(m: MotorState, levels: seq<Byte>, events: seq<Event>, p: MotorState -> bool)
    requires |levels| == LEVELS
    decreases |events|
  {
    events == [] ||
    (&& (Regulates(m, events[0]) ==> p(m))
     && Throughout(Next(m, levels, events[0]), levels, events[1..], p))
  }

  predicate Near(m: MotorState) { -546 <= m.counter - m.refSpeed <= 546 }

  /** In every run the derivative term overflows only after the proportional one has: all arithmetic is
      exact exactly if every count regulated is at most 546 off. */
  lemma {:induction false} RunExactIff(m: MotorState, levels: seq<Byte>, events: seq<Event>)
    requires |levels| == LEVELS && -546 <= m.prevError <= 546
    ensures Throughout(m, levels, events, Exact) <==> Throughout(m, levels, events, Near)
    decreases |events|
  {
    if events != [] {
      ExactIff(m);
      if !Regulates(m, events[0]) || Near(m) {
        RunExactIff(Next(m, levels, events[0]), levels, events[1..]);
      }
    }
  }

  // ---- The tables ----

  lemma TableIncreases(i: nat, j: nat)
    requires i < j < LEVELS
    ensures REF_SPEEDS[i] < REF_SPEEDS[j]
  {
  }

  lemma {:induction false} FirstIsIndex(i: nat, k: nat)
    requires i <= k < LEVELS
    ensures FirstFrom(i, REF_SPEEDS[k]) == k
    decreases k - i
  {
    if i < k {
      TableIncreases(i, k);
      FirstIsIndex(i + 1, k);
    }
  }

  /** The reference is a level of the table, and while the PWM value is fixed it is that level's. */
  ghost predicate OnLevel(m: MotorState, levels: seq<Byte>)
    requires |levels| == LEVELS
  {
    && m.refSpeed in REF_SPEEDS && m.hold <= FIXED_DRIVE_CYCLES
    && (m.hold > 0 ==> m.pwm == levels[FirstFrom(0, m.refSpeed)])
  }

  lemma RefInTable(speed: Byte)
    ensures RefOf(speed) in REF_SPEEDS
    ensures speed != LETTER_M ==> FirstFrom(0, RefOf(speed)) == speed % LEVELS
    ensures FirstFrom(0, RefOf(LETTER_M)) == LEVELS - 1 && LETTER_M % LEVELS == 1
  {
    FirstIsIndex(0, speed % LEVELS);
    FirstIsIndex(0, LEVELS - 1);
  }

  lemma NextOnLevel(m: MotorState, levels: seq<Byte>, e: Event)
    requires |levels| == LEVELS && OnLevel(m, levels) && e != Speed(LETTER_M)
    ensures OnLevel(Next(m, levels, e), levels)
  {
    if e.Speed? {
      RefInTable(e.speed);
    }
  }

  lemma NextInTable(m: MotorState, levels: seq<Byte>, e: Event)
    requires |levels| == LEVELS && m.refSpeed in REF_SPEEDS && m.hold <= FIXED_DRIVE_CYCLES
    ensures Next(m, levels, e).refSpeed in REF_SPEEDS && Next(m, levels, e).hold <= FIXED_DRIVE_CYCLES
  {
    if e.Speed? {
      RefInTable(e.speed);
    }
  }

  /** In every run, whatever bytes are sent for a speed, the reference is a level of the table and the
      fixed phase at most three interrupts long ... */
  lemma {:induction false} RunInTable(m: MotorState, levels: seq<Byte>, events: seq<Event>)
    requires |levels| == LEVELS && m.refSpeed in REF_SPEEDS && m.hold <= FIXED_DRIVE_CYCLES
    ensures After(m, levels, events).refSpeed in REF_SPEEDS && After(m, levels, events).hold <= FIXED_DRIVE_CYCLES
    decreases |events|
  {
    if events != [] {
      NextInTable(m, levels, events[0]);
      RunInTable(Next(m, levels, events[0]), levels, events[1..]);
    }
  }

  /** ... so a new direction always finds the one index of the reference and fixes the PWM value listed
      there. */
  lemma RunDirectionOnLevel(m: MotorState, levels: seq<Byte>, events: seq<Event>, raw: Byte) returns (k: nat)
    requires |levels| == LEVELS && m.refSpeed in REF_SPEEDS && m.hold <= FIXED_DRIVE_CYCLES
    requires DirectionOf(raw) != After(m, levels, events).direction
    ensures k < LEVELS && forall j | 0 <= j < LEVELS :: REF_SPEEDS[j] == After(m, levels, events).refSpeed <==> j == k
    ensures var t := AfterDirection(After(m, levels, events), levels, raw);
      t.pwm == levels[k] && t.hold == FIXED_DRIVE_CYCLES && t.refSpeed == REF_SPEEDS[k]
  {
    var t := After(m, levels, events);
    RunInTable(m, levels, events);
    k :| 0 <= k < LEVELS && REF_SPEEDS[k] == t.refSpeed;
    FirstIsIndex(0, k);
    forall j | 0 <= j < LEVELS && REF_SPEEDS[j] == t.refSpeed ensures j == k { IndexUnique(j, k); }
  }

  /** Unless the letter m is sent for a speed, every fixed PWM value of a run is the one listed for the
      reference. */
  lemma {:induction false} RunOnLevel(m: MotorState, levels: seq<Byte>, events: seq<Event>)
    requires |levels| == LEVELS && OnLevel(m, levels) && Speed(LETTER_M) !in events
    ensures OnLevel(After(m, levels, events), levels)
    decreases |events|
  {
    if events != [] {
      NextOnLevel(m, levels, events[0]);
      RunOnLevel(Next(m, levels, events[0]), levels, events[1..]);
    }
  }

  lemma IndexUnique(i: nat, j: nat)
    requires i < LEVELS && j < LEVELS && REF_SPEEDS[i] == REF_SPEEDS[j]
    ensures i == j
  {
    FirstIsIndex(0, i);
    FirstIsIndex(0, j);
  }

  /** The letter m is the only byte that sets a reference and a PWM value of different levels. */
  lemma SpeedOnLevelIff(m: MotorState, levels: seq<Byte>, speed: Byte)
    requires |levels| == LEVELS && levels[1] != levels[LEVELS - 1] && RefOf(speed) != m.refSpeed
    ensures OnLevel(AfterSpeed(m, levels, speed), levels) <==> speed != LETTER_M
  {
    RefInTable(speed);
  }

  // ---- The fixed phase ----

  function Timers(events: seq<Event>): nat {
    if events == [] then 0 else (if events[0].Timer? then 1 else 0) + Timers(events[1..])
  }

  function Impulses(events: seq<Event>): nat {
    if events == [] then 0 else (if events[0].Impulse? then 1 else 0) + Impulses(events[1..])
  }

  ghost predicate NoCommands(events: seq<Event>) {
    forall k | 0 <= k < |events| :: events[k].Impulse? || events[k].Timer?
  }

  lemma CountsOn(counter: Word, more: nat)
    ensures ((counter + 1) % 0x1_0000 + more) % 0x1_0000 == (counter + (1 + more)) % 0x1_0000
  {
  }

  /** Without commands the PWM value is held while the fixed phase lasts, and impulses go on being
      counted. */
  lemma {:induction false} HeldThroughThree(m: MotorState, levels: seq<Byte>, events: seq<Event>)
    requires |levels| == LEVELS && NoCommands(events) && Timers(events) <= m.hold
    ensures After(m, levels, events)
         == m.(hold := m.hold - Timers(events), counter := (m.counter + Impulses(events)) % 0x1_0000)
    decreases |events|
  {
    if events != [] {
      CountsOn(m.counter, Impulses(events[1..]));
      HeldThroughThree(Next(m, levels, events[0]), levels, events[1..]);
    }
  }

  /** Set to a speed or direction that is new to it, the motor keeps the PWM value through three timer
      interrupts and is regulated by the fourth: on the impulses of four intervals, after a change of
      speed on those before it too, and against a reference for one interval. */
  lemma RegulatedFromFourthOn(m: MotorState, levels: seq<Byte>, command: Event, events: seq<Event>)
    requires |levels| == LEVELS && NoCommands(events) && !command.Impulse? && !command.Timer?
    requires Next(m, levels, command).(output := m.output) != m
    requires Next(m, levels, command).direction != Stop && Timers(events) <= 3
    ensures var t := After(Next(m, levels, command), levels, events);
      && t.pwm == Next(m, levels, command).pwm
      && (Regulates(t, Timer) <==> Timers(events) == 3)
      && t.counter == ((if command.Speed? then m.counter else 0) + Impulses(events)) % 0x1_0000
  {
    HeldThroughThree(Next(m, levels, command), levels, events);
  }

  /** What a regulation takes for the speed is the number of impulses since the one before. */
  lemma CountsOneInterval(m: MotorState, levels: seq<Byte>, events: seq<Event>)
    requires |levels| == LEVELS && Regulates(m, Timer) && NoCommands(events) && Timers(events) == 0
    ensures var t := After(Next(m, levels, Timer), levels, events);
      Regulates(t, Timer) && t.counter == Impulses(events) % 0x1_0000 && t.prevError == Error(m)
  {
    HeldThroughThree(Next(m, levels, Timer), levels, events);
  }

  /** A motor left stopped has no power once its fixed phase is over, and the regulator will start
      without a remembered error. */
  lemma {:induction false} StoppedLosesPower(m: MotorState, levels: seq<Byte>, events: seq<Event>)
    requires |levels| == LEVELS && NoCommands(events) && m.direction == Stop
    requires Timers(events) > m.hold || (m.hold == 0 && m.pwm == 0 && m.prevError == 0)
    ensures var t := After(m, levels, events); t.direction == Stop && t.pwm == 0 && t.prevError == 0
    decreases |events|
  {
    if events != [] {
      StoppedLosesPower(Next(m, levels, events[0]), levels, events[1..]);
    }
  }

  /** The regulator leaves the power alone exactly if its correction is zero, or only pushes further what
      is at its limit already. */
  lemma LeavesPowerIff(m: MotorState)
    ensures Regulated(m) == m.pwm
       <==> Correction(m) == 0 || (m.pwm == 0 && Correction(m) > 0) || (m.pwm == 255 && Correction(m) < 0)
  {
    var error := Error(m);
    HundredthSmall(ToShort(Proportional(error)));
    HundredthSmall(ToShort(Derivative(ToShort(error - m.prevError))));
  }

  /** `setSpeed` stores the PWM value first, then the length of the fixed phase, then the reference; here
      a timer interrupt comes after the first store, ... */
  function AfterTornSpeed(m: MotorState, levels: seq<Byte>, speed: Byte): MotorState
    requires |levels| == LEVELS
  {
    AfterTimer(m.(pwm := levels[speed % LEVELS])).(hold := FIXED_DRIVE_CYCLES, refSpeed := RefOf(speed))
  }

  /** ... and here after the second. */
  function AfterTornReference(m: MotorState, levels: seq<Byte>, speed: Byte): MotorState
    requires |levels| == LEVELS
  {
    AfterTimer(m.(pwm := levels[speed % LEVELS], hold := FIXED_DRIVE_CYCLES)).(refSpeed := RefOf(speed))
  }

  /** After the first store it leaves the level's value in place exactly if a fixed phase was still
      running, or a stopped motor is set to no power, or the correction for the old reference has no
      effect on that value. */
  lemma TornSpeedOnLevelIff(m: MotorState, levels: seq<Byte>, speed: Byte)
    requires |levels| == LEVELS && RefOf(speed) != m.refSpeed && speed != LETTER_M
    ensures var level, correction := levels[speed % LEVELS], Correction(m);
      OnLevel(AfterTornSpeed(m, levels, speed), levels)
      <==> (m.hold > 0 || (if m.direction == Stop then level == 0
                           else correction == 0 || (level == 0 && correction > 0) || (level == 255 && correction < 0)))
  {
    RefInTable(speed);
    var n := m.(pwm := levels[speed % LEVELS]);
    LeavesPowerIff(n);
    assert Correction(n) == Correction(m);
  }

  /** After the second the level's value stays, but the motor is regulated by the third interrupt from
      then on instead of the fourth. */
  lemma TornReferenceHoldsTwo(m: MotorState, levels: seq<Byte>, speed: Byte, events: seq<Event>)
    requires |levels| == LEVELS && RefOf(speed) != m.refSpeed && speed != LETTER_M && m.direction != Stop
    requires NoCommands(events) && Timers(events) <= 2
    ensures var t := AfterTornReference(m, levels, speed);
      && OnLevel(t, levels) && After(t, levels, events).pwm == levels[speed % LEVELS]
      && (Regulates(After(t, levels, events), Timer) <==> Timers(events) == 2)
  {
    RefInTable(speed);
    HeldThroughThree(AfterTornReference(m, levels, speed), levels, events);
  }

  // ---- Direction pins ----

  ghost predicate PinsAgree(m: MotorState) {
    && (m.forward <==> m.direction != Backward) && (m.backward <==> m.direction != Forward)
    && m.output == (m.direction != Stop)
  }

  /** From the first change of direction on, the pins say what the direction field says ... */
  lemma {:induction false} PinsStayAgreed(m: MotorState, levels: seq<Byte>, events: seq<Event>)
    requires |levels| == LEVELS && PinsAgree(m)
    ensures PinsAgree(After(m, levels, events))
    decreases |events|
  {
    if events != [] {
      PinsStayAgreed(Next(m, levels, events[0]), levels, events[1..]);
    }
  }

  /** ... but before it, braking a motor that was never driven leaves its bridge open: a brake command
      brakes exactly if the motor was driven, or braked before. */
  lemma BrakeBrakesIff(m: MotorState, levels: seq<Byte>)
    requires |levels| == LEVELS
    ensures var t := AfterDirection(m, levels, 0);
      (t.forward && t.backward) <==> (m.direction != Stop || (m.forward && m.backward))
  {
  }
}
