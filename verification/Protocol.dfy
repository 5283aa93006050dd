/**
 The byte protocol between the control server and the bridge firmware: the commands,
 how the server prints them, and how the firmware's command loop reads them back.
 */
module Protocol {

  type Byte = x: int | 0 <= x < 256
  type Word = x: int | 0 <= x < 0x1_0000

  // Request codes of both programs.
  const LCD_SET: Byte := 200
  const GET_STATE: Byte := 201
  const SET_KILLSWITCH: Byte := 202
  const RESET_DEVICE: Byte := 203
  const MOTOR_SET: Byte := 204
  const MOTOR_GET: Byte := 205
  const ARM_SET: Byte := 206
  const ARM_GET: Byte := 207
  const ARM_GET_GENERAL: Byte := 208
  const EXPANDER_SET: Byte := 209
  const EXPANDER_GET: Byte := 210
  const MESSAGE_END: Byte := 222

  // Second byte of the two-byte forms of ARM_SET.
  const ARM_BRAKE: Byte := 100
  const ARM_CALIBRATE: Byte := 101

  // The host-to-device packet, the receive buffer (one spare byte) and the device-to-host packet.
  const PACKET_SIZE: nat := 128
  const BUFFER_SIZE: nat := PACKET_SIZE + 1
  const RESPONSE_SIZE: nat := 64

  datatype Motor = Left | Right
  datatype Joint = Shoulder | Elbow | Gripper
  datatype Direction = Stop | Forward | Backward

  function MotorId(m: Motor): Byte { if m.Left? then 0 else 1 }

  function JointId(j: Joint): Byte { match j case Shoulder => 0 case Elbow => 1 case Gripper => 2 }

  function DirectionId(d: Direction): Byte { match d case Stop => 0 case Forward => 1 case Backward => 2 }

  function Flag(b: bool): Byte { if b then 1 else 0 }

  datatype Command =
    | LcdSet(text: seq<Byte>)
    | KillSwitchSet(active: bool)
    | MotorSet(motor: Byte, direction: Byte, speed: Byte)
    | JointSet(joint: Byte, direction: Byte, speed: Byte, setPosition: bool, position: Byte)
    | ArmBrake
    | ArmCalibrate
    | ExpanderSet(value: Byte)
    | GetState
    | GetMotor(motor: Byte)
    | GetJoint(joint: Byte)
    | GetGeneral
    | GetExpander

  /** The commands the wire format can tell apart. */
  predicate Encodable(c: Command) {
    && (c.LcdSet? ==> |c.text| < 256)
    && (c.JointSet? ==> c.joint != ARM_BRAKE && c.joint != ARM_CALIBRATE)
  }

  function Encode(c: Command): seq<Byte> {
    match c
    case LcdSet(text) => [LCD_SET, |text| % 256] + text
    case KillSwitchSet(active) => [SET_KILLSWITCH, Flag(active)]
    case MotorSet(m, d, s) => [MOTOR_SET, m, d, s]
    case JointSet(j, d, s, sp, p) => [ARM_SET, j, d, s, Flag(sp), p]
    case ArmBrake => [ARM_SET, ARM_BRAKE]
    case ArmCalibrate => [ARM_SET, ARM_CALIBRATE]
    case ExpanderSet(v) => [EXPANDER_SET, v]
    case GetState => [GET_STATE]
    case GetMotor(m) => [MOTOR_GET, m]
    case GetJoint(j) => [ARM_GET, j]
    case GetGeneral => [ARM_GET_GENERAL]
    case GetExpander => [EXPANDER_GET]
  }

  ghost predicate AllEncodable(cs: seq<Command>) {
    forall i | 0 <= i < |cs| :: Encodable(cs[i])
  }

  function Flatten(parts: seq<seq<Byte>>): seq<Byte> {
    if parts == [] then [] else parts[0] + Flatten(parts[1..])
  }

  function EncodeAll(cs: seq<Command>): seq<Byte> {
    Flatten(seq(|cs|, i requires 0 <= i < |cs| => Encode(cs[i])))
  }

  lemma EncodeAllCons(cs: seq<Command>)
    requires cs != []
    ensures EncodeAll(cs) == Encode(cs[0]) + EncodeAll(cs[1..])
  {
    var parts := seq(|cs|, i requires 0 <= i < |cs| => Encode(cs[i]));
    assert parts[1..] == seq(|cs| - 1, i requires 0 <= i < |cs| - 1 => Encode(cs[1..][i]));
  }

  /** What the firmware's `switch` finds at one position of its receive buffer. */
  datatype Item = Run(command: Command, size: nat) | Skip | End | Reset | Overrun

  function ItemAt(data: seq<Byte>, pos: nat): (it: Item)
    requires |data| == BUFFER_SIZE && pos < PACKET_SIZE
    ensures it.Run? ==> 1 <= it.size && pos + it.size <= BUFFER_SIZE && Encodable(it.command)
  {
    var code, arg, room := data[pos], data[pos + 1], BUFFER_SIZE - pos;
    if code == GET_STATE then Run(GetState, 1)
    else if code == SET_KILLSWITCH then Run(KillSwitchSet(arg != 0), 2)
    else if code == EXPANDER_GET then Run(GetExpander, 1)
    else if code == EXPANDER_SET then Run(ExpanderSet(arg), 2)
    else if code == ARM_GET_GENERAL then Run(GetGeneral, 1)
    else if code == ARM_GET then Run(GetJoint(arg), 2)
    else if code == MOTOR_GET then Run(GetMotor(arg), 2)
    else if code == ARM_SET then
      if arg == ARM_BRAKE then Run(ArmBrake, 2)
      else if arg == ARM_CALIBRATE then Run(ArmCalibrate, 2)
      else if room < 6 then Overrun
      else Run(JointSet(arg, data[pos + 2], data[pos + 3], data[pos + 4] != 0, data[pos + 5]), 6)
    else if code == MOTOR_SET then
      if room < 4 then Overrun else Run(MotorSet(arg, data[pos + 2], data[pos + 3]), 4)
    else if code == LCD_SET then
      var size: nat := 2 + arg as int;
      if room < size then Overrun else Run(LcdSet(data[pos + 2..pos + size]), size)
    else if code == MESSAGE_END then End
    else if code == RESET_DEVICE then Reset
    else Skip
  }

  datatype Ending = Finished | Lost | Restarted
  datatype Parse = Parse(commands: seq<Command>, ending: Ending)

  /** The commands the firmware loop runs from `pos` on, and how the loop ends. */
  function ParseFrom(data: seq<Byte>, pos: nat): (p: Parse)
    requires |data| == BUFFER_SIZE
    ensures AllEncodable(p.commands)
    decreases BUFFER_SIZE - pos
  {
    if pos >= PACKET_SIZE then Parse([], Finished)
    else match ItemAt(data, pos)
      case Run(c, size) => var rest := ParseFrom(data, pos + size); Parse([c] + rest.commands, rest.ending)
      case Skip => ParseFrom(data, pos + 1)
      case End => Parse([], Finished)
      case Reset => Parse([], Restarted)
      case Overrun => Parse([], Lost)
  }

  /** One printed command is read back as itself, wherever it stands in the buffer. */
  lemma ItemRoundTrip(data: seq<Byte>, pos: nat, c: Command)
    requires |data| == BUFFER_SIZE && Encodable(c) && pos + |Encode(c)| <= PACKET_SIZE
    requires data[pos..pos + |Encode(c)|] == Encode(c)
    ensures ItemAt(data, pos) == Run(c, |Encode(c)|)
  {
    var e := Encode(c);
    assert forall i | 0 <= i < |e| :: data[pos + i] == data[pos..pos + |e|][i] == e[i];
    assert data[pos] == e[0];
    if |e| > 1 { assert data[pos + 1] == e[1]; }
    if c.LcdSet? { assert data[pos + 2..pos + 2 + |c.text|] == e[2..] == c.text; }
    if c.MotorSet? || c.JointSet? { assert data[pos + 2] == e[2] && data[pos + 3] == e[3]; }
    if c.JointSet? { assert data[pos + 4] == e[4] && data[pos + 5] == e[5]; }
  }

  lemma SliceOfSum(data: seq<Byte>, pos: nat, a: seq<Byte>, b: seq<Byte>)
    requires pos + |a + b| <= |data| && data[pos..pos + |a + b|] == a + b
    ensures data[pos..pos + |a|] == a && data[pos + |a|..pos + |a| + |b|] == b
  {
    assert data[pos..pos + |a|] == data[pos..pos + |a + b|][..|a|];
    assert data[pos + |a|..pos + |a| + |b|] == data[pos..pos + |a + b|][|a|..];
  }

  lemma ParseStep(data: seq<Byte>, pos: nat, c: Command)
    requires |data| == BUFFER_SIZE && Encodable(c) && pos + |Encode(c)| <= PACKET_SIZE
    requires data[pos..pos + |Encode(c)|] == Encode(c)
    ensures ParseFrom(data, pos).commands == [c] + ParseFrom(data, pos + |Encode(c)|).commands
    ensures ParseFrom(data, pos).ending == ParseFrom(data, pos + |Encode(c)|).ending
  {
    ItemRoundTrip(data, pos, c);
  }

  /** A printed command list closed by MESSAGE_END is read back exactly, in order; what follows the
      end mark does not matter, nor do payload bytes that look like the end mark. */
  lemma {:induction false} ParseRoundTrip(data: seq<Byte>, pos: nat, cs: seq<Command>)
    requires |data| == BUFFER_SIZE && AllEncodable(cs)
    requires pos + |EncodeAll(cs)| < PACKET_SIZE
    requires data[pos..pos + |EncodeAll(cs)|] == EncodeAll(cs)
    requires data[pos + |EncodeAll(cs)|] == MESSAGE_END
    ensures ParseFrom(data, pos).commands == cs && ParseFrom(data, pos).ending == Finished
    decreases |cs|
  {
    if cs == [] {
      assert ItemAt(data, pos) == End;
    } else {
      EncodeAllCons(cs);
      SliceOfSum(data, pos, Encode(cs[0]), EncodeAll(cs[1..]));
      ParseStep(data, pos, cs[0]);
      ParseRoundTrip(data, pos + |Encode(cs[0])|, cs[1..]);
    }
  }

  lemma {:induction false} FlattenAppend(a: seq<seq<Byte>>, b: seq<seq<Byte>>)
    ensures Flatten(a + b) == Flatten(a) + Flatten(b)
  {
    if a == [] {
      assert a + b == b;
    } else {
      FlattenAppend(a[1..], b);
      assert (a + b)[1..] == a[1..] + b && (a + b)[0] == a[0];
      assert a[0] + (Flatten(a[1..]) + Flatten(b)) == a[0] + Flatten(a[1..]) + Flatten(b);
    }
  }

  lemma EncodeAllAppend(a: seq<Command>, b: seq<Command>)
    ensures EncodeAll(a + b) == EncodeAll(a) + EncodeAll(b)
  {
    var wiresA := seq(|a|, i requires 0 <= i < |a| => Encode(a[i]));
    var wiresB := seq(|b|, i requires 0 <= i < |b| => Encode(b[i]));
    var wires := seq(|a + b|, i requires 0 <= i < |a + b| => Encode((a + b)[i]));
    assert wires == wiresA + wiresB;
    FlattenAppend(wiresA, wiresB);
  }
}
