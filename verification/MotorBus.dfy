/**
 The motor driver as a whole: bus, interrupts and main loop on one side, the two motors on the other.
 */
module MotorBus {
  import Protocol
  import UsiSlave
  import MotorDriver

  type Byte = Protocol.Byte
  type Motor = MotorDriver.MotorState

  function DirectionCode(d: MotorDriver.Direction): Byte { match d case Stop => 0 case Forward => 1 case Backward => 2 }

  datatype System = System(bus: UsiSlave.Sys, motor1: Motor, motor2: Motor)

  datatype Event =
    | Bus(event: UsiSlave.Event)   // anything but the main loop
    | Loop                         // one step of the main loop
    | Impulse(first: bool)
    | Timer

  ghost predicate Enabled(s: System, e: Event) {
    e.Bus? ==> !e.event.Main? && UsiSlave.Enabled(s.bus, e.event)
  }

  /** What `getSpeed` and `getDirection` would return now. */
  function Shown(s: System): UsiSlave.Motors {
    UsiSlave.Motors(s.motor1.pwm, s.motor2.pwm, DirectionCode(s.motor1.direction), DirectionCode(s.motor2.direction))
  }

  /** The main loop's `switch` on its receive buffer, whatever of it was received. */
  function Executed(buffer: seq<Byte>, motor1: Motor, motor2: Motor): (Motor, Motor)
    requires |buffer| == UsiSlave.SIZE
  {
    (MotorDriver.AfterMessage(motor1, MotorDriver.M1_SPEEDS, buffer, buffer[1] == MotorDriver.MOTOR1),
     MotorDriver.AfterMessage(motor2, MotorDriver.M2_SPEEDS, buffer, buffer[1] != MotorDriver.MOTOR1))
  }

  function Next(s: System, e: Event): System
    requires UsiSlave.InRange(s.bus.usi)
  {
    match e
    case Bus(b) => s.(bus := UsiSlave.Next(s.bus, b))
    case Loop =>
      var t := s.(bus := UsiSlave.Next(s.bus, UsiSlave.Main(Shown(s))));
      if !s.bus.main.Handling? then t
      else
        var motors := Executed(s.bus.usi.wrbuf, s.motor1, s.motor2);
        t.(motor1 := motors.0, motor2 := motors.1)
    case Impulse(first) =>
      if first then s.(motor1 := MotorDriver.AfterImpulse(s.motor1)) else s.(motor2 := MotorDriver.AfterImpulse(s.motor2))
    case Timer => s.(motor1 := MotorDriver.AfterTimer(s.motor1), motor2 := MotorDriver.AfterTimer(s.motor2))
  }

  lemma NextInv(s: System, e: Event)
    requires UsiSlave.Inv(s.bus) && Enabled(s, e)
    ensures UsiSlave.Inv(Next(s, e).bus)
  {
    match e
    case Bus(b) => UsiSlave.NextInv(s.bus, b);
    case Loop => UsiSlave.NextInv(s.bus, UsiSlave.Main(Shown(s)));
    case _ =>
  }

  ghost predicate IsRun(s: System, events: seq<Event>, t: System)
    requires UsiSlave.Inv(s.bus)
    decreases |events|
  {
    if events == [] then t == s
    else Enabled(s, events[0]) && (NextInv(s, events[0]); IsRun(Next(s, events[0]), events[1..], t))
  }

  lemma {:induction false} RunInv(s: System, events: seq<Event>, t: System)
    requires UsiSlave.Inv(s.bus) && IsRun(s, events, t)
    ensures UsiSlave.Inv(t.bus)
    decreases |events|
  {
    if events != [] {
      NextInv(s, events[0]);
      RunInv(Next(s, events[0]), events[1..], t);
    }
  }

  // ---- Once each ----

  /** The messages a run executes. */
  ghost function Executions(s: System, events: seq<Event>): nat
    requires UsiSlave.Inv(s.bus)
    decreases |events|
  {
    if events == [] || !Enabled(s, events[0]) then 0
    else
      NextInv(s, events[0]);
      (if events[0].Loop? && s.bus.main.Handling? then 1 else 0) + Executions(Next(s, events[0]), events[1..])
  }

  lemma {:induction false} DoneCounts(s: System, events: seq<Event>, t: System)
    requires UsiSlave.Inv(s.bus) && IsRun(s, events, t)
    ensures t.bus.done == s.bus.done + Executions(s, events)
    decreases |events|
  {
    if events != [] {
      NextInv(s, events[0]);
      DoneStep(s, events[0]);
      DoneCounts(Next(s, events[0]), events[1..], t);
    }
  }

  lemma DoneStep(s: System, e: Event)
    requires UsiSlave.InRange(s.bus.usi) && Enabled(s, e)
    ensures Next(s, e).bus.done == s.bus.done + if e.Loop? && s.bus.main.Handling? then 1 else 0
  {
  }

  /** Over every run: each accepted write that brought a byte is executed exactly once, except the one
      that still waits; and none is accepted while one waits. */
  lemma ExecutedOnce(u: UsiSlave.Usi, m: UsiSlave.Motors, motor1: Motor, motor2: Motor, events: seq<Event>, t: System)
    requires UsiSlave.InRange(u) && u.state.Stopped? && !u.overflowOn && u.wrlen == 0 && u.rdlen == 0
    requires UsiSlave.Inv(UsiSlave.StartSys(u, m))
    requires IsRun(System(UsiSlave.StartSys(u, m), motor1, motor2), events, t)
    ensures var s := System(UsiSlave.StartSys(u, m), motor1, motor2);
      t.bus.begun == Executions(s, events) + if t.bus.usi.wrlen > 0 then 1 else 0
    ensures forall byte: Byte | t.bus.usi.state.CheckAddress? && t.bus.usi.wrlen > 0 && UsiSlave.InRange(t.bus.usi) ::
      !UsiSlave.ShiftStep(t.bus, byte).usi.state.RequestData?
  {
    var s := System(UsiSlave.StartSys(u, m), motor1, motor2);
    RunInv(s, events, t);
    DoneCounts(s, events, t);
    forall byte: Byte | t.bus.usi.state.CheckAddress? && t.bus.usi.wrlen > 0
      ensures !UsiSlave.ShiftStep(t.bus, byte).usi.state.RequestData?
    {
      UsiSlave.WriteAcceptedIff(t.bus, byte);
    }
  }

  // ---- As sent ----

  /** The bytes a command needs. */
  function Needs(command: Byte): nat {
    if command == MotorDriver.SET_SPEED || command == MotorDriver.SET_DIRECTION then 3 else 1
  }

  predicate Starts(bytes: seq<Byte>, buffer: seq<Byte>) { |buffer| == UsiSlave.SIZE && bytes <= buffer }

  /** What is executed depends on the bytes alone, not on what was in the buffer behind them. */
  ghost predicate AsSent(bytes: seq<Byte>) {
    forall a, b, motor1, motor2 | Starts(bytes, a) && Starts(bytes, b) ::
      Executed(a, motor1, motor2) == Executed(b, motor1, motor2)
  }

  lemma LongEnough(bytes: seq<Byte>, a: seq<Byte>, b: seq<Byte>, motor1: Motor, motor2: Motor)
    requires bytes != [] && |bytes| >= Needs(bytes[0]) && Starts(bytes, a) && Starts(bytes, b)
    ensures Executed(a, motor1, motor2) == Executed(b, motor1, motor2)
  {
    assert a[0] == bytes[0] == b[0];
    if |bytes| >= 3 {
      assert a[1] == bytes[1] == b[1] && a[2] == bytes[2] == b[2];
    }
  }

  /** Otherwise the last byte needed is left over from before, and matters. */
  lemma TooShort(bytes: seq<Byte>) returns (a: seq<Byte>, b: seq<Byte>)
    requires 1 <= |bytes| < Needs(bytes[0])
    ensures Starts(bytes, a) && Starts(bytes, b)
    ensures Executed(a, MotorDriver.START, MotorDriver.START) != Executed(b, MotorDriver.START, MotorDriver.START)
  {
    a, b := bytes + [0, 0, 0][|bytes| - 1..], bytes + [0, 0, 0][|bytes| - 1..];
    a, b := a[2 := 1], b[2 := 0];
    assert MotorDriver.RefOf(1) == 10 && MotorDriver.RefOf(0) == 0;
  }

  /** A message is executed as it was sent, whatever the buffer held before and whatever the motors do,
      exactly if it has the bytes its command needs. */
  lemma ExecutedAsSentIff(bytes: seq<Byte>)
    requires 1 <= |bytes| <= UsiSlave.SIZE
    ensures AsSent(bytes) <==> |bytes| >= Needs(bytes[0])
  {
    if |bytes| >= Needs(bytes[0]) {
      forall a, b, motor1, motor2 | Starts(bytes, a) && Starts(bytes, b)
        ensures Executed(a, motor1, motor2) == Executed(b, motor1, motor2)
      {
        LongEnough(bytes, a, b, motor1, motor2);
      }
    } else {
      var a, b := TooShort(bytes);
      assert Starts(bytes, a) && Starts(bytes, b);
    }
  }

  /** In every run, what the main loop executes is what the master sent, its first four bytes at most,
      over what the buffer held when the write was accepted. */
  lemma ExecutesSent(u: UsiSlave.Usi, m: UsiSlave.Motors, motor1: Motor, motor2: Motor, events: seq<Event>, t: System)
    requires UsiSlave.InRange(u) && u.state.Stopped? && !u.overflowOn && u.wrlen == 0 && u.rdlen == 0
    requires UsiSlave.Inv(UsiSlave.StartSys(u, m))
    requires IsRun(System(UsiSlave.StartSys(u, m), motor1, motor2), events, t) && t.bus.main.Handling?
    ensures UsiSlave.Inv(t.bus)
    ensures var bytes := UsiSlave.FirstFour(t.bus.sent);
      && 1 <= |bytes| && Starts(bytes, t.bus.usi.wrbuf)
      && (Next(t, Loop).motor1, Next(t, Loop).motor2) == Executed(t.bus.usi.wrbuf, t.motor1, t.motor2)
      && t.bus.usi.wrbuf == UsiSlave.Over(bytes, t.bus.before)
  {
    RunInv(System(UsiSlave.StartSys(u, m), motor1, motor2), events, t);
  }

  // ---- A message too short ----

  lemma RunCons(s: System, e: Event, tail: seq<Event>, t: System)
    requires UsiSlave.Inv(s.bus) && Enabled(s, e) && UsiSlave.Inv(Next(s, e).bus) && IsRun(Next(s, e), tail, t)
    ensures IsRun(s, [e] + tail, t)
  {
    assert ([e] + tail)[1..] == tail;
  }

  lemma {:induction false} RunAppend(s: System, first: seq<Event>, u: System, second: seq<Event>, t: System)
    requires UsiSlave.Inv(s.bus) && UsiSlave.Inv(u.bus) && IsRun(s, first, u) && IsRun(u, second, t)
    ensures IsRun(s, first + second, t)
    decreases |first|
  {
    if first == [] {
      assert first + second == second;
    } else {
      NextInv(s, first[0]);
      RunAppend(Next(s, first[0]), first[1..], u, second, t);
      RunCons(s, first[0], first[1..] + second, t);
      assert first + second == [first[0]] + (first[1..] + second);
    }
  }

  /** A run of the bus alone leaves the motors as they are. */
  lemma {:induction false} BusOnly(s: System, bus: seq<UsiSlave.Event>, t: UsiSlave.Sys) returns (events: seq<Event>)
    requires UsiSlave.Inv(s.bus) && UsiSlave.IsRun(s.bus, bus, t) && forall k | 0 <= k < |bus| :: !bus[k].Main?
    ensures IsRun(s, events, s.(bus := t))
    decreases |bus|
  {
    if bus == [] {
      events := [];
    } else {
      UsiSlave.NextInv(s.bus, bus[0]);
      assert !bus[0].Main?;
      var rest := BusOnly(s.(bus := UsiSlave.Next(s.bus, bus[0])), bus[1..], t);
      events := [Bus(bus[0])] + rest;
      RunCons(s, Bus(bus[0]), rest, s.(bus := t));
    }
  }

  /** The slave accepted a write and the main loop is at its start. */
  ghost predicate Receiving(s: System) {
    UsiSlave.Inv(s.bus) && s.bus.busOpen && s.bus.usi.state.RequestData? && s.bus.main.AtReply?
  }

  lemma ReceivesOne(s: System, byte: Byte) returns (events: seq<Event>, t: System)
    requires Receiving(s) && s.bus.usi.wrlen < UsiSlave.SIZE
    ensures IsRun(s, events, t) && Receiving(t) && t == s.(bus := t.bus)
    ensures t.bus.sent == s.bus.sent + [byte] && t.bus.before == s.bus.before && t.bus.usi.wrlen == s.bus.usi.wrlen + 1
  {
    var u, write := UsiSlave.WriteOne(s.bus, byte);
    events := BusOnly(s, write, u);
    t := s.(bus := u);
  }

  lemma {:induction false} Receives(s: System, bytes: seq<Byte>) returns (events: seq<Event>, t: System)
    requires Receiving(s) && s.bus.usi.wrlen + |bytes| <= UsiSlave.SIZE
    ensures IsRun(s, events, t) && Receiving(t) && t == s.(bus := t.bus)
    ensures t.bus.sent == s.bus.sent + bytes && t.bus.before == s.bus.before && t.bus.usi.wrlen == s.bus.usi.wrlen + |bytes|
    decreases |bytes|
  {
    if bytes == [] {
      events, t := [], s;
    } else {
      var first, u := ReceivesOne(s, bytes[0]);
      var rest;
      rest, t := Receives(u, bytes[1..]);
      RunAppend(s, first, u, rest, t);
      events := first + rest;
      assert s.bus.sent + bytes == s.bus.sent + [bytes[0]] + bytes[1..];
    }
  }

  lemma Opens(s: System) returns (events: seq<Event>, t: System)
    requires UsiSlave.Inv(s.bus) && s.bus.usi.wrlen == 0 && s.bus.main.AtReply?
    ensures IsRun(s, events, t) && Receiving(t) && t == s.(bus := t.bus)
    ensures t.bus.sent == [] && t.bus.before == s.bus.usi.wrbuf && t.bus.usi.wrlen == 0
  {
    var u, bus := UsiSlave.WriteOpened(s.bus);
    events := BusOnly(s, bus, u);
    t := s.(bus := u);
  }

  /** The main loop's way through a message that has come to its stop condition. */
  lemma Finishes(s: System) returns (events: seq<Event>, t: System)
    requires Receiving(s) && s.bus.usi.wrlen > 0
    ensures IsRun(s, events, t) && UsiSlave.Inv(t.bus) && t.bus.main.AtReply? && t.bus.usi.wrlen == 0
    ensures t.bus.usi.wrbuf == s.bus.usi.wrbuf && (t.motor1, t.motor2) == Executed(s.bus.usi.wrbuf, s.motor1, s.motor2)
    ensures t.bus.sent == s.bus.sent
  {
    var a := Next(s, Bus(UsiSlave.Stop));
    NextInv(s, Bus(UsiSlave.Stop));
    var b := Next(a, Loop);
    NextInv(a, Loop);
    var c := Next(b, Loop);
    NextInv(b, Loop);
    var d := Next(c, Loop);
    NextInv(c, Loop);
    assert d.bus.main.Handling?;
    t := Next(d, Loop);
    NextInv(d, Loop);
    RunCons(d, Loop, [], t);
    RunCons(c, Loop, [Loop] + [], t);
    RunCons(b, Loop, [Loop] + ([Loop] + []), t);
    RunCons(a, Loop, [Loop] + ([Loop] + ([Loop] + [])), t);
    events := [Bus(UsiSlave.Stop)] + ([Loop] + ([Loop] + ([Loop] + ([Loop] + []))));
    RunCons(s, Bus(UsiSlave.Stop), [Loop] + ([Loop] + ([Loop] + ([Loop] + []))), t);
  }

  /** No message waits, and the main loop is at its start. */
  ghost predicate AtRest(s: System) {
    UsiSlave.Inv(s.bus) && s.bus.usi.wrlen == 0 && s.bus.main.AtReply?
  }

  /** A whole message of one to four bytes, received and executed over what the buffer held. */
  lemma MessageRun(s: System, bytes: seq<Byte>) returns (events: seq<Event>, t: System)
    requires AtRest(s) && 1 <= |bytes| <= UsiSlave.SIZE
    ensures IsRun(s, events, t) && AtRest(t) && t.bus.sent == bytes
    ensures t.bus.usi.wrbuf == UsiSlave.Over(bytes, s.bus.usi.wrbuf)
    ensures (t.motor1, t.motor2) == Executed(UsiSlave.Over(bytes, s.bus.usi.wrbuf), s.motor1, s.motor2)
  {
    var first, a := Opens(s);
    var second, b := Receives(a, bytes);
    var third;
    third, t := Finishes(b);
    assert b.bus.sent == bytes;
    RunAppend(a, second, b, third, t);
    RunAppend(s, first, a, second + third, t);
    events := first + (second + third);
  }

  /** From reset: SET_SPEED for motor 1 with speed 1, then SET_DIRECTION for motor 1 without a direction.
      The motor drives forward, by the 1 left over. */
  lemma LeftOverDrives(u: UsiSlave.Usi, m: UsiSlave.Motors) returns (events: seq<Event>, t: System)
    requires UsiSlave.InRange(u) && u.state.Stopped? && !u.overflowOn && u.wrlen == 0 && u.rdlen == 0
    requires UsiSlave.Inv(UsiSlave.StartSys(u, m))
    ensures IsRun(System(UsiSlave.StartSys(u, m), MotorDriver.START, MotorDriver.START), events, t)
    ensures t.motor1.direction == MotorDriver.Forward && t.motor1.refSpeed == 10 && t.motor1.forward && !t.motor1.backward
  {
    var s := System(UsiSlave.StartSys(u, m), MotorDriver.START, MotorDriver.START);
    var first, a := MessageRun(s, [MotorDriver.SET_SPEED, MotorDriver.MOTOR1, 1]);
    var second;
    second, t := MessageRun(a, [MotorDriver.SET_DIRECTION, MotorDriver.MOTOR1]);
    events := first + second;
    RunAppend(s, first, a, second, t);
    assert a.motor1 == MotorDriver.AfterSpeed(MotorDriver.START, MotorDriver.M1_SPEEDS, 1);
    assert t.motor1 == MotorDriver.AfterDirection(a.motor1, MotorDriver.M1_SPEEDS, 1);
    assert MotorDriver.RefOf(1) == 10;
  }

  // ---- What each message does ----

  function Addressed(motor1: Motor, motor2: Motor, id: Byte): Motor { if id == MotorDriver.MOTOR1 then motor1 else motor2 }

  function Other(motor1: Motor, motor2: Motor, id: Byte): Motor { if id == MotorDriver.MOTOR1 then motor2 else motor1 }

  /** The PWM values of the addressed motor's own table. */
  function LevelsOf(id: Byte): seq<Byte> { if id == MotorDriver.MOTOR1 then MotorDriver.M1_SPEEDS else MotorDriver.M2_SPEEDS }

  predicate Braked(a: Motor, b: Motor) {
    b.direction == MotorDriver.Stop && !b.output && b.refSpeed == a.refSpeed
  }

  /** Set to one of the twelve levels: the reference is that level's, and a new one starts from the PWM
      value of the level and holds it for three interrupts. */
  predicate SpeedSet(a: Motor, b: Motor, levels: seq<Byte>, speed: Byte)
    requires |levels| == MotorDriver.LEVELS
  {
    && b.direction == a.direction && b.output == a.output && b.forward == a.forward && b.backward == a.backward
    && (speed < MotorDriver.LEVELS ==> b.refSpeed == MotorDriver.REF_SPEEDS[speed])
    && if b.refSpeed == a.refSpeed then b == a
       else b.hold == 3 && (speed < MotorDriver.LEVELS ==> b.pwm == levels[speed])
  }

  /** Turned the way the code says: 1 is forward, 2 backward, anything else stops. */
  predicate Turned(a: Motor, b: Motor, code: Byte) {
    && (b.direction == MotorDriver.Forward <==> code == 1) && (b.direction == MotorDriver.Backward <==> code == 2)
    && (b.output <==> code == 1 || code == 2) && b.refSpeed == a.refSpeed
    && if b.direction == a.direction then b == a.(output := b.output)
       else (b.forward <==> code != 2) && (b.backward <==> code != 1) && b.hold == 3
  }

  predicate Obeyed(bytes: seq<Byte>, motor1: Motor, motor2: Motor, after1: Motor, after2: Motor)
    requires bytes != [] && |bytes| >= Needs(bytes[0])
  {
    if bytes[0] == MotorDriver.BRAKE then Braked(motor1, after1) && Braked(motor2, after2)
    else if bytes[0] == MotorDriver.SET_SPEED then
      && SpeedSet(Addressed(motor1, motor2, bytes[1]), Addressed(after1, after2, bytes[1]), LevelsOf(bytes[1]), bytes[2])
      && Other(after1, after2, bytes[1]) == Other(motor1, motor2, bytes[1])
    else if bytes[0] == MotorDriver.SET_DIRECTION then
      && Turned(Addressed(motor1, motor2, bytes[1]), Addressed(after1, after2, bytes[1]), bytes[2])
      && Other(after1, after2, bytes[1]) == Other(motor1, motor2, bytes[1])
    else after1 == motor1 && after2 == motor2
  }

  lemma SpeedSets(m: Motor, levels: seq<Byte>, speed: Byte)
    requires |levels| == MotorDriver.LEVELS
    ensures SpeedSet(m, MotorDriver.AfterSpeed(m, levels, speed), levels, speed)
  {
    assert speed < MotorDriver.LEVELS ==> speed % MotorDriver.LEVELS == speed;
  }

  lemma DirectionTurns(m: Motor, levels: seq<Byte>, code: Byte)
    requires |levels| == MotorDriver.LEVELS
    ensures Turned(m, MotorDriver.AfterDirection(m, levels, code), code)
    ensures code == 0 ==> Braked(m, MotorDriver.AfterDirection(m, levels, code))
  {
  }

  lemma ExecutedObeys(bytes: seq<Byte>, buffer: seq<Byte>, motor1: Motor, motor2: Motor)
    requires bytes != [] && |bytes| >= Needs(bytes[0]) && Starts(bytes, buffer)
    ensures var after := Executed(buffer, motor1, motor2); Obeyed(bytes, motor1, motor2, after.0, after.1)
  {
    assert buffer[0] == bytes[0];
    if bytes[0] == MotorDriver.BRAKE {
      DirectionTurns(motor1, MotorDriver.M1_SPEEDS, 0);
      DirectionTurns(motor2, MotorDriver.M2_SPEEDS, 0);
    } else if |bytes| >= 3 {
      assert buffer[1] == bytes[1] && buffer[2] == bytes[2];
      SpeedSets(motor1, MotorDriver.M1_SPEEDS, bytes[2]);
      SpeedSets(motor2, MotorDriver.M2_SPEEDS, bytes[2]);
      DirectionTurns(motor1, MotorDriver.M1_SPEEDS, bytes[2]);
      DirectionTurns(motor2, MotorDriver.M2_SPEEDS, bytes[2]);
    }
  }

  /** In every run a message with the bytes it needs is obeyed: BRAKE by both motors, SET_SPEED and
      SET_DIRECTION by the motor it names alone, anything else by none. */
  lemma MessagesObeyed(u: UsiSlave.Usi, m: UsiSlave.Motors, motor1: Motor, motor2: Motor, events: seq<Event>, t: System)
    requires UsiSlave.InRange(u) && u.state.Stopped? && !u.overflowOn && u.wrlen == 0 && u.rdlen == 0
    requires UsiSlave.Inv(UsiSlave.StartSys(u, m))
    requires IsRun(System(UsiSlave.StartSys(u, m), motor1, motor2), events, t) && t.bus.main.Handling?
    requires t.bus.sent != [] && |t.bus.sent| >= Needs(t.bus.sent[0])
    ensures UsiSlave.Inv(t.bus)
    ensures Obeyed(t.bus.sent, t.motor1, t.motor2, Next(t, Loop).motor1, Next(t, Loop).motor2)
  {
    ExecutesSent(u, m, motor1, motor2, events, t);
    var bytes := UsiSlave.FirstFour(t.bus.sent);
    ExecutedObeys(bytes, t.bus.usi.wrbuf, t.motor1, t.motor2);
    assert bytes[0] == t.bus.sent[0];
    if |t.bus.sent| >= 3 {
      assert bytes[1] == t.bus.sent[1] && bytes[2] == t.bus.sent[2];
    }
  }

  /** The same from rest, as a run of its own. */
  lemma MessageObeyed(s: System, bytes: seq<Byte>) returns (events: seq<Event>, t: System)
    requires AtRest(s) && 1 <= |bytes| <= UsiSlave.SIZE && |bytes| >= Needs(bytes[0])
    ensures IsRun(s, events, t) && AtRest(t) && t.bus.sent == bytes
    ensures Obeyed(bytes, s.motor1, s.motor2, t.motor1, t.motor2)
  {
    events, t := MessageRun(s, bytes);
    ExecutedObeys(bytes, UsiSlave.Over(bytes, s.bus.usi.wrbuf), s.motor1, s.motor2);
  }

  // ---- What a question is answered ----

  /** The reply phase answers with the power or the direction of the motor the question names. */
  lemma ShowsAskedMotor(s: System)
    requires UsiSlave.Inv(s.bus) && s.bus.main.AtReply? && UsiSlave.ReplyReady(s.bus.usi)
    ensures var asked, u := s.bus.usi.wrbuf, Next(s, Loop).bus.usi;
      var motor := Addressed(s.motor1, s.motor2, asked[1]);
      && u.rdlen == 1
      && if asked[0] == UsiSlave.GET_SPEED then u.rdbuf[0] == motor.pwm
         else MotorDriver.DirectionOf(u.rdbuf[0]) == motor.direction
  {
  }

  /** From rest: the master asks for the power of a motor and reads that motor's. */
  lemma SpeedAnswered(s: System, id: Byte) returns (events: seq<Event>, t: System)
    requires AtRest(s)
    ensures IsRun(s, events, t) && t.bus.sent == [UsiSlave.GET_SPEED, id]
    ensures t.bus.stream == [Addressed(s.motor1, s.motor2, id).pwm] && t.motor1 == s.motor1 && t.motor2 == s.motor2
  {
    var first, a := Opens(s);
    var second, b := Receives(a, [UsiSlave.GET_SPEED, id]);
    assert b.bus.sent == [UsiSlave.GET_SPEED, id];
    QuestionStored(b, [UsiSlave.GET_SPEED, id]);
    ShowsAskedMotor(b);
    var c := Next(b, Loop);
    NextInv(b, Loop);
    var third, bus := UsiSlave.ReadOne(c.bus);
    var fourth := BusOnly(c, third, bus);
    t := c.(bus := bus);
    RunCons(b, Loop, fourth, t);
    RunAppend(a, second, b, [Loop] + fourth, t);
    RunAppend(s, first, a, second + ([Loop] + fourth), t);
    events := first + (second + ([Loop] + fourth));
  }

  lemma QuestionStored(s: System, bytes: seq<Byte>)
    requires Receiving(s) && s.bus.sent == bytes && |bytes| == 2
    ensures UsiSlave.ReplyReady(s.bus.usi) && s.bus.usi.wrbuf[0] == bytes[0] && s.bus.usi.wrbuf[1] == bytes[1]
  {
    assert s.bus.usi.wrbuf == UsiSlave.Over(UsiSlave.FirstFour(s.bus.sent), s.bus.before);
  }
}
