/**
 The arm's joints: direction permissions, limit switches with a debounce counter, position counting
 and positional mode, all in one table shared by the timer interrupt, the command interrupt and the
 calibration routine. Speeds are not modelled.
 */
module ArmJoints {
  import Protocol

  type Byte = Protocol.Byte

  datatype Direction = Stop | Forward | Backward | Both
  datatype Mode = Free | Positional | Calibrating

  /** `pressed` and `counter`: the debounced limit switch. `pin`: what the bridge of the joint's motor
      is told; braking counts as `Stop`. */
  datatype Joint = Joint(
    position: Byte, target: Byte, maximum: Byte,
    allowed: Direction, current: Direction,
    calibrated: bool, mode: Mode,
    counter: Byte, pressed: bool,
    encoder: bool, previousEncoder: bool,
    pin: Direction)

  // Indices of the table and ids of the motors; entry 3 is spare.
  const SHOULDER: Byte := 0
  const ELBOW: Byte := 1
  const GRIPPER: Byte := 2
  const TABLE_SIZE: nat := 4

  const DEBOUNCE: Byte := 5

  function IndexOf(motor: Byte): nat { if motor == SHOULDER then 0 else if motor == GRIPPER then 2 else 1 }

  function MotorOf(index: nat): Byte { if index == 0 then SHOULDER else if index == 2 then GRIPPER else ELBOW }

  /** Ids the pin switch of `setDirection` knows. */
  predicate Wired(motor: Byte) { motor <= GRIPPER }

  function Opposite(d: Direction): Direction {
    match d case Forward => Backward case Backward => Forward case _ => d
  }

  predicate Driving(d: Direction) { d == Forward || d == Backward }

  function Wire(d: Direction): Direction { if Driving(d) then d else Stop }

  predicate Permitted(allowed: Direction, d: Direction) {
    (Driving(d) && allowed == Both) || allowed == d
  }

  // ---- Commands on one joint ----

  function Directed(j: Joint, d: Direction, wired: bool): Joint {
    var current := if Permitted(j.allowed, d) then d else Stop;
    j.(mode := if j.mode.Positional? then Free else j.mode, current := current,
       pin := if wired then Wire(current) else j.pin)
  }

  function Positioned(j: Joint, index: nat, position: Byte, wired: bool): Joint {
    if !j.calibrated || j.maximum < position then j
    else
      var target := if index == 2 && position > 0 then j.maximum else position;
      var aimed := j.(target := target);
      if j.position < target then Directed(aimed, Forward, wired).(mode := Positional)
      else if j.position > target then Directed(aimed, Backward, wired).(mode := Positional)
      else Directed(aimed, Stop, wired).(mode := Free)
  }

  // ---- The timer interrupt on one joint ----

  function Debounced(j: Joint, index: nat, switch: bool): Joint {
    if switch && !j.pressed then
      if j.counter == DEBOUNCE then
        var reached :=
          if j.current == Backward then j.(calibrated := true, allowed := Forward, position := 0)
          else if j.current == Forward then j.(calibrated := true, allowed := Backward, position := j.maximum)
          else j.(calibrated := true);
        Directed(reached, Stop, true).(pressed := true, counter := 0)
      else j.(counter := (j.counter + 1) % 256)
    else if !switch && j.pressed then
      if j.counter == DEBOUNCE then
        j.(allowed := Both, position := if index == 2 then j.maximum else j.position, pressed := false, counter := 0)
      else j.(counter := (j.counter + 1) % 256)
    else j
  }

  function Moved(j: Joint): Joint {
    if j.current == Forward then j.(position := if j.position >= j.maximum then j.maximum else j.position + 1)
    else if j.current == Backward then j.(position := if j.position == 0 then 0 else j.position - 1)
    else j
  }

  /** Only shoulder and elbow have a position encoder. */
  function Sampled(j: Joint, index: nat, encoder: bool): Joint {
    j.(previousEncoder := j.encoder, encoder := if index <= 1 then encoder else j.encoder)
  }

  function EdgeCounted(j: Joint, index: nat): Joint {
    if j.previousEncoder == j.encoder || index == 2 then j
    else if j.mode.Positional? && j.target == j.position then Moved(Directed(j, Stop, true).(mode := Free))
    else Moved(j)
  }

  /** What the pins show at a tick. */
  datatype Inputs = Inputs(switches: map<nat, bool>, encoders: map<nat, bool>)

  function Level(m: map<nat, bool>, index: nat): bool { index in m && m[index] }

  /** The spare entry has no switch: it always reads released. */
  function Switch(inputs: Inputs, index: nat): bool { index < 3 && Level(inputs.switches, index) }

  function Ticked(j: Joint, index: nat, inputs: Inputs): Joint {
    EdgeCounted(Sampled(Debounced(j, index, Switch(inputs, index)), index, Level(inputs.encoders, index)), index)
  }

  // ---- The table ----

  type Table = js: seq<Joint> | |js| == TABLE_SIZE witness seq(TABLE_SIZE, _ => BLANK)

  const BLANK := Joint(0, 0, 0, Stop, Stop, false, Free, 0, false, false, false, Stop)

  function WithDirection(js: Table, motor: Byte, d: Direction): Table {
    js[IndexOf(motor) := Directed(js[IndexOf(motor)], d, Wired(motor))]
  }

  function WithPosition(js: Table, motor: Byte, position: Byte): Table {
    js[IndexOf(motor) := Positioned(js[IndexOf(motor)], IndexOf(motor), position, Wired(motor))]
  }

  /** `brake`: all table entries in turn; the spare one brakes the elbow again. */
  function BrakedFrom(js: Table, i: nat): Table
    requires i <= TABLE_SIZE
    decreases TABLE_SIZE - i
  {
    if i == TABLE_SIZE then js else BrakedFrom(WithDirection(js, MotorOf(i), Stop), i + 1)
  }

  function TableTicked(js: Table, inputs: Inputs): Table {
    seq(TABLE_SIZE, i requires 0 <= i < TABLE_SIZE => Ticked(js[i], i, inputs))
  }

  // ---- The whole driver ----

  datatype Arm = Arm(
    joints: Table,
    calibrated: bool, interrupt: bool, start: bool,
    oneShot: bool, notClear: bool, timerOn: bool)

  datatype Command =
    | SetSpeed
    | SetDirection(motor: Byte, direction: Direction)
    | SetPosition(motor: Byte, position: Byte)
    | Brake
    | Calibrate
    | Get

  function AfterCommand(a: Arm, c: Command): Arm {
    match c
    case SetSpeed => a.(interrupt := true)
    case SetDirection(m, d) => a.(interrupt := true, joints := WithDirection(a.joints, m, d))
    case SetPosition(m, p) => a.(interrupt := true, joints := WithPosition(a.joints, m, p))
    case Brake => a.(interrupt := true, joints := BrakedFrom(a.joints, 0))
    case Calibrate => a.(interrupt := true, start := true)
    case Get => a
  }

  function AfterTick(a: Arm, inputs: Inputs): Arm {
    if a.oneShot then a.(timerOn := false, notClear := false)
    else a.(joints := TableTicked(a.joints, inputs))
  }

  class ArmDriver {
    const joints: array<Joint>
    var calibrated: bool
    var interruptCalibration: bool
    var startCalibration: bool
    var timerOneShot: bool
    var timerNotClear: bool
    var timerOn: bool

    ghost predicate Valid() { joints.Length == TABLE_SIZE }

    function State(): Arm
      requires Valid()
      reads this, joints
    {
      Arm(joints[..], calibrated, interruptCalibration, startCalibration, timerOneShot, timerNotClear, timerOn)
    }

    method SetDirection(motor: Byte, direction: Direction)
      requires Valid()
      modifies joints
      ensures joints[..] == WithDirection(old(joints[..]), motor, direction)
    {
      var idx := IndexOf(motor);
      var j := joints[idx];
      if j.mode.Positional? {
        j := j.(mode := Free);
      }
      if ((direction == Forward || direction == Backward) && j.allowed == Both) || j.allowed == direction {
        j := j.(current := direction);
      } else {
        j := j.(current := Stop);
      }
      if Wired(motor) {
        if j.current == Forward || j.current == Backward {
          j := j.(pin := j.current);
        } else {
          j := j.(pin := Stop);
        }
      }
      assert j == Directed(old(joints[idx]), direction, Wired(motor));
      joints[idx] := j;
      assert joints[..] == old(joints[..])[idx := j];
    }

    method SetPosition(motor: Byte, position: Byte)
      requires Valid()
      modifies joints
      ensures joints[..] == WithPosition(old(joints[..]), motor, position)
    {
      var idx := IndexOf(motor);
      if !joints[idx].calibrated || joints[idx].maximum < position {
        return;
      }
      var target := position;
      if idx == 2 && position > 0 {
        target := joints[2].maximum;
      }
      joints[idx] := joints[idx].(target := target);
      if joints[idx].position < target {
        SetDirection(motor, Forward);
        joints[idx] := joints[idx].(mode := Positional);
      } else if joints[idx].position > target {
        SetDirection(motor, Backward);
        joints[idx] := joints[idx].(mode := Positional);
      } else {
        SetDirection(motor, Stop);
        joints[idx] := joints[idx].(mode := Free);
      }
    }

    method BrakeAll()
      requires Valid()
      modifies joints
      ensures joints[..] == BrakedFrom(old(joints[..]), 0)
    {
      for i := 0 to TABLE_SIZE
        invariant BrakedFrom(joints[..], i) == BrakedFrom(old(joints[..]), 0)
      {
        SetDirection(MotorOf(i), Stop);
      }
    }

    /** `processCommands`, within the I2C interrupt. */
    method ProcessCommand(c: Command)
      requires Valid()
      modifies this`interruptCalibration, this`startCalibration, joints
      ensures State() == AfterCommand(old(State()), c)
    {
      if c != Get {
        interruptCalibration := true;
      }
      match c {
        case SetDirection(m, d) => SetDirection(m, d);
        case SetPosition(m, p) => SetPosition(m, p);
        case Brake => BrakeAll();
        case Calibrate => startCalibration := true;
        case _ =>
      }
    }

    method DebounceSwitch(idx: nat, switch: bool)
      requires Valid() && idx < TABLE_SIZE && (switch ==> idx < 3)
      modifies joints
      ensures joints[..] == old(joints[..])[idx := Debounced(old(joints[..])[idx], idx, switch)]
    {
      if switch && !joints[idx].pressed {
        if joints[idx].counter == DEBOUNCE {
          joints[idx] := joints[idx].(calibrated := true);
          if joints[idx].current == Backward {
            joints[idx] := joints[idx].(allowed := Forward, position := 0);
          } else if joints[idx].current == Forward {
            joints[idx] := joints[idx].(allowed := Backward, position := joints[idx].maximum);
          }
          SetDirection(MotorOf(idx), Stop);
          joints[idx] := joints[idx].(pressed := true, counter := 0);
        } else {
          joints[idx] := joints[idx].(counter := (joints[idx].counter + 1) % 256);
        }
      } else if !switch && joints[idx].pressed {
        if joints[idx].counter == DEBOUNCE {
          joints[idx] := joints[idx].(allowed := Both);
          if idx == 2 {
            joints[idx] := joints[idx].(position := joints[idx].maximum);
          }
          joints[idx] := joints[idx].(pressed := false, counter := 0);
        } else {
          joints[idx] := joints[idx].(counter := (joints[idx].counter + 1) % 256);
        }
      }
    }

    method CountEdge(i: nat)
      requires Valid() && i < TABLE_SIZE && i != 2
      requires i == 3 ==> joints[i].previousEncoder == joints[i].encoder
      modifies joints
      ensures joints[..] == old(joints[..])[i := EdgeCounted(old(joints[..])[i], i)]
    {
      if joints[i].previousEncoder != joints[i].encoder {
        if joints[i].mode.Positional? {
          if joints[i].target == joints[i].position {
            SetDirection(MotorOf(i), Stop);
            joints[i] := joints[i].(mode := Free);
          }
        }
        if joints[i].current == Forward {
          joints[i] := joints[i].(position :=
            if joints[i].position >= joints[i].maximum then joints[i].maximum else joints[i].position + 1);
        } else if joints[i].current == Backward {
          joints[i] := joints[i].(position := if joints[i].position == 0 then 0 else joints[i].position - 1);
        }
      }
    }

    method DebounceAll(inputs: Inputs)
      requires Valid()
      modifies joints
      ensures forall k | 0 <= k < TABLE_SIZE :: joints[k] == Debounced(old(joints[..])[k], k, Switch(inputs, k))
    {
      ghost var start := joints[..];
      for idx := 0 to TABLE_SIZE
        invariant forall k | 0 <= k < TABLE_SIZE ::
          joints[k] == if k < idx then Debounced(start[k], k, Switch(inputs, k)) else start[k]
      {
        DebounceSwitch(idx, Switch(inputs, idx));
      }
    }

    method SampleEncoders(inputs: Inputs)
      requires Valid()
      modifies joints
      ensures forall k | 0 <= k < TABLE_SIZE :: joints[k] == Sampled(old(joints[..])[k], k, Level(inputs.encoders, k))
    {
      ghost var start := joints[..];
      for i := 0 to TABLE_SIZE
        invariant forall k | 0 <= k < TABLE_SIZE ::
          joints[k] == if k < i then start[k].(previousEncoder := start[k].encoder) else start[k]
      {
        joints[i] := joints[i].(previousEncoder := joints[i].encoder);
      }
      joints[1] := joints[1].(encoder := Level(inputs.encoders, 1));
      joints[0] := joints[0].(encoder := Level(inputs.encoders, 0));
    }

    method CountAll()
      requires Valid() && joints[3].previousEncoder == joints[3].encoder
      modifies joints
      ensures forall k | 0 <= k < TABLE_SIZE :: joints[k] == EdgeCounted(old(joints[..])[k], k)
    {
      ghost var start := joints[..];
      for i := 0 to TABLE_SIZE
        invariant forall k | 0 <= k < TABLE_SIZE :: joints[k] == if k < i then EdgeCounted(start[k], k) else start[k]
      {
        if i != 2 {
          CountEdge(i);
        }
      }
    }

    method TimerIsr(inputs: Inputs)
      requires Valid()
      modifies this`timerOn, this`timerNotClear, joints
      ensures State() == AfterTick(old(State()), inputs)
    {
      if timerOneShot {
        timerOn, timerNotClear := false, false;
        return;
      }
      DebounceAll(inputs);
      SampleEncoders(inputs);
      CountAll();
      assert joints[..] == TableTicked(old(joints[..]), inputs);
    }
  }
}
