/**
 The bridge firmware: the latched kill-switch line, the command loop over the USB receive buffer
 and the replies it pushes.

 `Device` is what the packets have made of the robot so far: for each key of the server's request
 map, the last command of that key that reached the device behind it. A device that depends on the kill switch
 forgets its command as soon as the line goes active, and hears nothing while it stays active.
 */
module BridgeFirmware {
  import opened Protocol
  import opened HostInterface

  datatype Told = Nothing | Told(command: Command)

  /** The last command that reached each joint of the arm, its own or one to all of them: the one arm
      driver stands behind four keys. */
  datatype Arm = Arm(shoulder: Told, elbow: Told, gripper: Told)
  {
    function At(j: Joint): Told { match j case Shoulder => shoulder case Elbow => elbow case Gripper => gripper }

    function After(c: Command): Arm {
      match c
      case JointSet(j, _, _, _, _) =>
        match JointKeyed(j) {
          case Shoulder => this.(shoulder := Told(c))
          case Elbow => this.(elbow := Told(c))
          case Gripper => this.(gripper := Told(c))
        }
      case ArmBrake => Arm(Told(c), Told(c), Told(c))
      case ArmCalibrate => Arm(Told(c), Told(c), Told(c))
      case _ => this
    }
  }

  const UNTOLD: Arm := Arm(Nothing, Nothing, Nothing)

  /** The joint an id reaches; ids the arm driver does not know fall to its default branch. */
  function JointKeyed(id: Byte): Joint { if id == 0 then Shoulder else if id == 2 then Gripper else Elbow }

  /** `driven`: the bridge itself holds the line down. `pressed`: a hardware button does. */
  datatype Device = Device(
    driven: bool, pressed: bool, bySoftware: bool, byHardware: bool, regs: map<Key, Command>, arm: Arm)
  {
    predicate Active() { driven || pressed }
  }

  function Independent(regs: map<Key, Command>): map<Key, Command> {
    map k | k in regs && !Dependent(k) :: regs[k]
  }

  /** The reset lines follow the kill-switch line. */
  function Resetting(d: Device): Device {
    if d.Active() then d.(regs := Independent(d.regs), arm := UNTOLD) else d
  }

  function Activated(d: Device): Device {
    Resetting((if d.Active() then d else d.(bySoftware := true, byHardware := false)).(driven := true))
  }

  /** The main loop's poll: an active line is latched, whatever holds it down. */
  function HardwareChecked(d: Device): Device {
    if d.Active() then Activated(if d.bySoftware then d else d.(byHardware := true))
    else d.(byHardware := false, bySoftware := false)
  }

  /** Lets the line go, notices whether a button still holds it, and polls again while it waits. */
  function Released(d: Device): Device {
    if !d.Active() then d
    else
      var free := d.(byHardware := false, bySoftware := false, driven := false);
      HardwareChecked(if free.Active() then free.(byHardware := true) else free)
  }

  /** The three polls of the 5 ms wait do no more than one. */
  lemma HardwareCheckedTwice(d: Device)
    ensures HardwareChecked(HardwareChecked(d)) == HardwareChecked(d)
  {
    var once := HardwareChecked(d);
    if d.Active() {
      assert Independent(once.regs) == once.regs;
    }
  }

  /** What the environment shows at the moment of a packet. */
  datatype Readings = Readings(
    sensors: Sensors,
    motorPower: Byte, unsetDirection: Byte,
    jointDirection: Byte, jointSpeed: Byte, jointPosition: Byte,
    calibrated: bool, mode: Byte, expander: Byte)

  /** The device a setter goes to; ids the drivers do not know fall to their default branch. */
  function RegisterOf(c: Command): Key
    requires c.LcdSet? || c.KillSwitchSet? || c.MotorSet? || c.JointSet? || c.ArmBrake? || c.ArmCalibrate? || c.ExpanderSet?
  {
    match c
    case LcdSet(_) => LcdKey
    case KillSwitchSet(_) => KillSwitchKey
    case MotorSet(m, _, _) => MotorKey(MotorNumbered(m))
    case JointSet(j, _, _, _, _) => ArmKey(JointKeyed(j))
    case ArmBrake => AddonKey
    case ArmCalibrate => AddonKey
    case ExpanderSet(_) => ExpanderKey
  }

  predicate IsGetter(c: Command) { c.GetState? || c.GetMotor? || c.GetJoint? || c.GetGeneral? || c.GetExpander? }

  function Exec(d: Device, c: Command): Device {
    if IsGetter(c) then d
    else
      var e := if c == KillSwitchSet(true) then Activated(d) else if c == KillSwitchSet(false) then Released(d) else d;
      if Dependent(RegisterOf(c)) && e.Active() then e else e.(regs := e.regs[RegisterOf(c) := c], arm := e.arm.After(c))
  }

  function LowByte(w: Word): Byte { w % 256 }

  function HighByte(w: Word): Byte { w / 256 }

  /** The bytes a command pushes: the packed structs of the protocol, little-endian. */
  function Reply(d: Device, c: Command, r: Readings): seq<Byte> {
    match c
    case GetState =>
      [LowByte(r.sensors.voltage), HighByte(r.sensors.voltage), LowByte(r.sensors.current), HighByte(r.sensors.current),
       Flag(r.sensors.up), Flag(r.sensors.down), Flag(r.sensors.enter), Flag(d.byHardware), Flag(d.Active())]
    case GetMotor(m) => [m, r.unsetDirection, r.motorPower]
    case GetJoint(j) => [j, r.jointDirection, r.jointSpeed, Flag(false), r.jointPosition]
    case GetGeneral => [Flag(r.calibrated), r.mode]
    case GetExpander => [r.expander]
    case _ => []
  }

  /** A packet in progress: the device so far and the bytes pushed so far. */
  datatype Session = Session(device: Device, pushed: seq<Byte>)

  function Perform(s: Session, c: Command, r: Readings): Session {
    Session(Exec(s.device, c), s.pushed + Reply(s.device, c, r))
  }

  function PerformAll(s: Session, cs: seq<Command>, r: Readings): (t: Session)
    ensures |s.pushed| <= |t.pushed|
    decreases |cs|
  {
    if cs == [] then s else PerformAll(Perform(s, cs[0], r), cs[1..], r)
  }

  lemma PerformCons(s: Session, c: Command, rest: seq<Command>, r: Readings)
    ensures PerformAll(s, [c] + rest, r) == PerformAll(Perform(s, c, r), rest, r)
  {
    assert ([c] + rest)[1..] == rest;
  }

  lemma {:induction false} PerformAppend(s: Session, a: seq<Command>, b: seq<Command>, r: Readings)
    ensures PerformAll(s, a + b, r) == PerformAll(PerformAll(s, a, r), b, r)
    decreases |a|
  {
    if a == [] {
      assert a + b == b;
    } else {
      PerformAppend(Perform(s, a[0], r), a[1..], b, r);
      assert a + b == [a[0]] + (a[1..] + b);
      PerformCons(s, a[0], a[1..] + b, r);
    }
  }

  /** The loop at a command: that command first, then what is found behind it. */
  lemma RunsItem(s: Session, data: seq<Byte>, pos: nat, c: Command, size: nat, r: Readings)
    requires |data| == BUFFER_SIZE && pos < PACKET_SIZE && ItemAt(data, pos) == Run(c, size)
    ensures ParseFrom(data, pos).ending == ParseFrom(data, pos + size).ending
    ensures PerformAll(s, ParseFrom(data, pos).commands, r)
         == PerformAll(Perform(s, c, r), ParseFrom(data, pos + size).commands, r)
  {
    PerformCons(s, c, ParseFrom(data, pos + size).commands, r);
  }

  /** The reply buffer as the host sees it: what was pushed, then end marks. */
  function Filled(pushed: seq<Byte>): seq<Byte>
    requires |pushed| <= PACKET_SIZE
  {
    pushed + seq(PACKET_SIZE - |pushed|, _ => MESSAGE_END)
  }

  /** `Crashed`: it ran past the end of a buffer. `Rebooting`: it waits for the watchdog, unanswered. */
  datatype Outcome = Answered(device: Device, response: seq<Byte>) | Rebooting(device: Device) | Crashed

  /** One packet handled by the bridge. The spare byte of the receive buffer is never written. */
  function RunPacket(d: Device, packet: seq<Byte>, r: Readings): Outcome
    requires |packet| == PACKET_SIZE
  {
    var p := ParseFrom(packet + [0], 0);
    var s := PerformAll(Session(d, []), p.commands, r);
    if p.ending == Lost || |s.pushed| > PACKET_SIZE then Crashed
    else if p.ending == Restarted then Rebooting(s.device)
    else Answered(s.device, Filled(s.pushed)[..RESPONSE_SIZE])
  }

  class Buffer {
    const data: array<Byte>
    var length: nat
    var currentPosition: nat

    ghost predicate Valid() { data.Length == BUFFER_SIZE }

    constructor ()
      ensures Valid() && fresh(data) && data[PACKET_SIZE] == 0
    {
      data := new Byte[BUFFER_SIZE](i => if i == 0 then 0xff else 0);
      length, currentPosition := 0, 0;
    }

    method Init()
      requires Valid()
      modifies this, data
      ensures currentPosition == length == 0
      ensures data[..PACKET_SIZE] == Filled([])
    {
      currentPosition, length := 0, 0;
      for i := 0 to PACKET_SIZE
        invariant forall k | 0 <= k < i :: data[k] == MESSAGE_END
        modifies data
      {
        data[i] := MESSAGE_END;
      }
    }

    method Push(bytes: seq<Byte>)
      requires Valid() && length == currentPosition && currentPosition + |bytes| <= PACKET_SIZE
      requires data[..PACKET_SIZE] == Filled(data[..length])
      modifies this, data
      ensures length == currentPosition == old(length) + |bytes|
      ensures data[..length] == old(data[..length]) + bytes
      ensures data[..PACKET_SIZE] == Filled(data[..length])
    {
      ghost var start := length;
      for i := 0 to |bytes|
        invariant currentPosition == start + i && length == start
        invariant data[..start] == old(data[..start])
        invariant forall k | 0 <= k < i :: data[start + k] == bytes[k]
        invariant forall k | start + i <= k < PACKET_SIZE :: data[k] == MESSAGE_END
      {
        data[currentPosition] := bytes[i];
        currentPosition := currentPosition + 1;
      }
      length := length + |bytes|;
    }
  }

  class Bridge {
    const input: Buffer
    const output: Buffer
    var driven: bool
    var pressed: bool
    var bySoftware: bool
    var byHardware: bool
    var regs: map<Key, Command>
    var arm: Arm

    function State(): Device
      reads this
    {
      Device(driven, pressed, bySoftware, byHardware, regs, arm)
    }

    ghost predicate Valid()
      reads this, input.data
    {
      && input.Valid() && output.Valid()
      && input != output && input.data != output.data
      && input.data[PACKET_SIZE] == 0
    }

    /** The firmware after reset: the line is down, by software. */
    constructor (pressed: bool)
      ensures Valid() && fresh(input) && fresh(output) && fresh(input.data) && fresh(output.data)
      ensures State() == Device(true, pressed, true, false, map[], UNTOLD)
    {
      input := new Buffer();
      output := new Buffer();
      driven, this.pressed, bySoftware, byHardware := true, pressed, true, false;
      regs, arm := map[], UNTOLD;
    }

    method IsActive() returns (active: bool)
      ensures active == State().Active()
    {
      active := driven || pressed;
    }

    method SetActive(active: bool)
      modifies this
      ensures State() == if active then Activated(old(State())) else Released(old(State()))
    {
      var down := IsActive();
      if active {
        if !down {
          bySoftware, byHardware := true, false;
        }
        driven := true;
        regs, arm := Independent(regs), UNTOLD;
      } else if down {
        byHardware, bySoftware := false, false;
        driven := false;
        var still := IsActive();
        if still {
          byHardware := true;
        }
        CheckHardware();
      }
    }

    method CheckHardware()
      modifies this
      ensures State() == HardwareChecked(old(State()))
    {
      var down := IsActive();
      if down {
        if !bySoftware {
          byHardware := true;
        }
        driven := true;
        regs, arm := Independent(regs), UNTOLD;
      } else {
        byHardware, bySoftware := false, false;
      }
    }

    /** The `switch` of the command loop: which command stands at `position`, and its length. */
    method Fetch(position: nat) returns (item: Item)
      requires input.Valid() && position < PACKET_SIZE
      ensures item == ItemAt(input.data[..], position)
    {
      var data := input.data;
      var code, arg, room := data[position], data[position + 1], BUFFER_SIZE - position;
      match code {
        case 201 => return Run(GetState, 1);
        case 202 => return Run(KillSwitchSet(arg != 0), 2);
        case 210 => return Run(GetExpander, 1);
        case 209 => return Run(ExpanderSet(arg), 2);
        case 208 => return Run(GetGeneral, 1);
        case 207 => return Run(GetJoint(arg), 2);
        case 205 => return Run(GetMotor(arg), 2);
        case 206 =>
          if arg == ARM_BRAKE {
            return Run(ArmBrake, 2);
          } else if arg == ARM_CALIBRATE {
            return Run(ArmCalibrate, 2);
          } else if room < 6 {
            return Overrun;
          }
          return Run(JointSet(arg, data[position + 2], data[position + 3], data[position + 4] != 0, data[position + 5]), 6);
        case 204 =>
          if room < 4 {
            return Overrun;
          }
          return Run(MotorSet(arg, data[position + 2], data[position + 3]), 4);
        case 200 =>
          var size: nat := 2 + arg as int;
          if room < size {
            return Overrun;
          }
          return Run(LcdSet(data[position + 2..position + size]), size);
        case 222 => return End;
        case 203 => return Reset;
        case _ => return Skip;
      }
    }

    ghost function Progress(): Session
      reads this, output, output.data
      requires output.Valid() && output.length <= PACKET_SIZE
    {
      Session(State(), output.data[..output.length])
    }

    /** What has been pushed is followed by end marks only. */
    ghost predicate OutputReady()
      reads output, output.data
    {
      && output.Valid() && output.length == output.currentPosition <= PACKET_SIZE
      && output.data[..PACKET_SIZE] == Filled(output.data[..output.length])
    }

    method ExecuteCommand(c: Command, r: Readings)
      requires Valid() && OutputReady() && |Perform(Progress(), c, r).pushed| <= PACKET_SIZE
      modifies this, output, output.data
      ensures OutputReady() && Progress() == Perform(old(Progress()), c, r)
    {
      output.Push(Reply(State(), c, r));
      if !IsGetter(c) {
        if c.KillSwitchSet? {
          SetActive(c.active);
        }
        var down := IsActive();
        if !(Dependent(RegisterOf(c)) && down) {
          regs, arm := regs[RegisterOf(c) := c], arm.After(c);
        }
      }
    }

    /** One command, unless its reply would run past the end of the buffer. */
    method TryCommand(c: Command, r: Readings) returns (fits: bool)
      requires Valid() && OutputReady()
      modifies this, output, output.data
      ensures Valid() && input.data[..] == old(input.data[..])
      ensures fits <==> |Perform(old(Progress()), c, r).pushed| <= PACKET_SIZE
      ensures fits ==> OutputReady() && Progress() == Perform(old(Progress()), c, r)
    {
      fits := output.length + |Reply(State(), c, r)| <= PACKET_SIZE;
      if fits {
        ExecuteCommand(c, r);
      }
    }

    /** One turn of the command loop: the position of the next command, or why there is none. */
    method ExecuteNext(position: nat, r: Readings) returns (next: nat, ending: Ending)
      requires Valid() && OutputReady() && position < PACKET_SIZE
      modifies this, output, output.data
      ensures Valid() && input.data[..] == old(input.data[..])
      ensures ending == Finished ==>
        && OutputReady() && position < next < 255
        && ParseFrom(input.data[..], next).ending == ParseFrom(input.data[..], position).ending
        && PerformAll(Progress(), ParseFrom(input.data[..], next).commands, r)
           == PerformAll(old(Progress()), ParseFrom(input.data[..], position).commands, r)
      ensures ending == Restarted ==>
        OutputReady() && Progress() == old(Progress()) && ParseFrom(input.data[..], position) == Parse([], Restarted)
      ensures ending == Lost ==>
        || ParseFrom(input.data[..], position).ending == Lost
        || |PerformAll(old(Progress()), ParseFrom(input.data[..], position).commands, r).pushed| > PACKET_SIZE
    {
      next, ending := position + 1, Finished;
      var item := Fetch(position);
      match item {
        case Run(c, size) =>
          RunsItem(Progress(), input.data[..], position, c, size, r);
          var fits := TryCommand(c, r);
          if !fits {
            return position, Lost;
          }
          next := position + size;
        case End => next := PACKET_SIZE + 1;
        case Skip =>
        case Overrun => ending := Lost;
        case Reset => ending := Restarted;
      }
    }

    /** The command loop, up to the point where it would leave one of its buffers. */
    method ExecuteCommands(r: Readings) returns (ending: Ending)
      requires Valid() && input.length == PACKET_SIZE
      modifies this, input`currentPosition, output, output.data
      ensures Valid()
      ensures var p := ParseFrom(input.data[..], 0);
        var goal := PerformAll(old(Session(State(), [])), p.commands, r);
        && ending == (if |goal.pushed| > PACKET_SIZE then Lost else p.ending)
        && (ending != Lost ==> OutputReady() && Progress() == goal)
    {
      ghost var data := input.data[..];
      ghost var goal := PerformAll(Session(State(), []), ParseFrom(data, 0).commands, r);
      output.Init();
      assert output.data[..0] == [];
      input.currentPosition := 1;
      while input.currentPosition <= input.length
        invariant 1 <= input.currentPosition <= 256 && input.data[..] == data
        invariant ParseFrom(data, input.currentPosition - 1).ending == ParseFrom(data, 0).ending
        invariant OutputReady()
        invariant goal == PerformAll(Progress(), ParseFrom(data, input.currentPosition - 1).commands, r)
        decreases 256 - input.currentPosition
      {
        var next;
        next, ending := ExecuteNext(input.currentPosition - 1, r);
        if ending != Finished {
          return;
        }
        input.currentPosition := next + 1;
      }
      return Finished;
    }

    /** A host-to-device packet copied into the receive buffer and answered. */
    method Poll(packet: seq<Byte>, r: Readings) returns (outcome: Outcome)
      requires Valid() && |packet| == PACKET_SIZE
      modifies this, input, input.data, output, output.data
      ensures Valid() && outcome == RunPacket(old(State()), packet, r)
      ensures !outcome.Crashed? ==> State() == outcome.device
    {
      input.length := PACKET_SIZE;
      for i := 0 to PACKET_SIZE
        invariant input.data[..i] == packet[..i] && input.data[PACKET_SIZE] == 0
        modifies input.data
      {
        input.data[i] := packet[i];
      }
      assert input.data[..] == packet + [0];
      var ending := ExecuteCommands(r);
      match ending {
        case Lost => return Crashed;
        case Restarted => return Rebooting(State());
        case Finished =>
          assert output.data[..RESPONSE_SIZE] == output.data[..PACKET_SIZE][..RESPONSE_SIZE];
          return Answered(State(), output.data[..RESPONSE_SIZE]);
      }
    }
  }
}
