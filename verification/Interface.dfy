/**
 The server's picture of the robot: setters turn calls into entries of the request map, and the
 device's response is parsed back into the fields.

 `Host` is the value of an `Interface` object. The `After...` functions say what each call does to
 that value; the class does the same in place.
 */
module HostInterface {
  import opened Protocol
  import opened DataHolders

  datatype Key = KillSwitchKey | ArmKey(joint: Joint) | MotorKey(motor: Motor) | AddonKey | ExpanderKey | LcdKey

  datatype MotorFields = MotorFields(direction: Direction, programmedSpeed: Byte, power: Byte)

  datatype JointFields = JointFields(
    direction: Direction, speed: Byte, position: Byte, programmedPosition: Byte, settingPosition: bool)

  datatype ArmMode = Directional | Positional | Calibrating
  datatype Calibration = NotCalibrated | InProgress | Done
  datatype Light = Camera | LeftLight | RightLight

  datatype Sensors = Sensors(up: bool, down: bool, enter: bool, voltage: Word, current: Word)

  datatype Host = Host(
    requests: map<Key, Holder>,
    killActive: bool, killByHardware: bool,
    lcdText: seq<Byte>,
    left: MotorFields, right: MotorFields,
    shoulder: JointFields, elbow: JointFields, gripper: JointFields,
    mode: ArmMode, calibration: Calibration,
    expander: bv8,
    sensors: Sensors)
  {
    function MotorOf(m: Motor): MotorFields { if m.Left? then left else right }

    function WithMotor(m: Motor, f: MotorFields): Host { if m.Left? then this.(left := f) else this.(right := f) }

    function JointOf(j: Joint): JointFields {
      match j case Shoulder => shoulder case Elbow => elbow case Gripper => gripper
    }

    function WithJoint(j: Joint, f: JointFields): Host {
      match j
      case Shoulder => this.(shoulder := f)
      case Elbow => this.(elbow := f)
      case Gripper => this.(gripper := f)
    }

    function Inserting(k: Key, h: Holder): Host { this.(requests := requests[k := h]) }
  }

  // ---- Requests ----

  const MOTOR_MAX_SPEED: Byte := 11
  const LCD_MAX_LENGTH: nat := 33

  function MaxPosition(j: Joint): Byte { match j case Elbow => 105 case Shoulder => 79 case Gripper => 255 }

  function PriorityOf(k: Key): int {
    match k
    case KillSwitchKey => 0
    case ArmKey(_) => 1
    case MotorKey(_) => 2
    case AddonKey => 3
    case ExpanderKey => 4
    case LcdKey => 5
  }

  /** Requests that only reach a device whose reset line is not held by the kill switch. */
  predicate Dependent(k: Key) { k != KillSwitchKey && k != LcdKey }

  /** The commands that may stand under a key. */
  predicate Fits(k: Key, c: Command) {
    match k
    case KillSwitchKey => c.KillSwitchSet?
    case ArmKey(j) => c.JointSet? && c.joint == JointId(j) && c.direction <= 2
    case MotorKey(m) => c.MotorSet? && c.motor == MotorId(m) && c.direction <= 2 && c.speed <= MOTOR_MAX_SPEED
    case AddonKey => c.ArmBrake? || c.ArmCalibrate?
    case ExpanderKey => c.ExpanderSet?
    case LcdKey => c.LcdSet? && |c.text| <= LCD_MAX_LENGTH
  }

  function HolderFor(k: Key, c: Command, slack: Byte): Holder
    requires Fits(k, c)
  {
    Holder(Encode(c), slack, PriorityOf(k), Dependent(k))
  }

  /** The command stored under a key, read off its bytes. */
  function CommandOf(k: Key, h: Holder): (c: Command)
    requires exists c :: Fits(k, c) && h.wire == Encode(c)
    ensures Fits(k, c) && h.wire == Encode(c)
  {
    var w := h.wire;
    match k
    case KillSwitchKey => KillSwitchSet(w[1] == 1)
    case ArmKey(_) => JointSet(w[1], w[2], w[3], w[4] == 1, w[5])
    case MotorKey(_) => MotorSet(w[1], w[2], w[3])
    case AddonKey => if w[1] == ARM_BRAKE then ArmBrake else ArmCalibrate
    case ExpanderKey => ExpanderSet(w[1])
    case LcdKey => LcdSet(w[2..])
  }

  ghost predicate WellFormed(k: Key, h: Holder) {
    && (exists c :: Fits(k, c) && h.wire == Encode(c))
    && h.priority == PriorityOf(k) && h.dependent == Dependent(k)
  }

  ghost predicate AllWellFormed(requests: map<Key, Holder>) {
    forall k | k in requests :: WellFormed(k, requests[k])
  }

  // ---- Setters ----

  function Truncated(text: seq<Byte>): seq<Byte> {
    if |text| > LCD_MAX_LENGTH then text[..LCD_MAX_LENGTH] else text
  }

  function AfterLcdText(h: Host, text: seq<Byte>, slack: Byte): Host {
    var shown := Truncated(text);
    if shown == h.lcdText then h
    else h.(lcdText := shown).Inserting(LcdKey, HolderFor(LcdKey, LcdSet(shown), slack))
  }

  /** Activation is believed at once, deactivation only when the device reports it. */
  function AfterKillSwitch(h: Host, active: bool, slack: Byte): Host {
    (if active then h.(killActive := true, killByHardware := false) else h)
      .Inserting(KillSwitchKey, HolderFor(KillSwitchKey, KillSwitchSet(active), slack))
  }

  function MotorCommand(m: Motor, f: MotorFields): Command {
    MotorSet(MotorId(m), DirectionId(f.direction), f.programmedSpeed)
  }

  function WithMotorRequest(h: Host, m: Motor, f: MotorFields, slack: Byte): Host
    requires f.programmedSpeed <= MOTOR_MAX_SPEED
  {
    h.WithMotor(m, f).Inserting(MotorKey(m), HolderFor(MotorKey(m), MotorCommand(m, f), slack))
  }

  function AfterMotorSpeed(h: Host, m: Motor, speed: nat, slack: Byte): Host {
    var s: Byte := if speed <= MOTOR_MAX_SPEED then speed else MOTOR_MAX_SPEED;
    WithMotorRequest(h, m, h.MotorOf(m).(programmedSpeed := s), slack)
  }

  function AfterMotorDirection(h: Host, m: Motor, d: Direction, slack: Byte): Host
    requires h.MotorOf(m).programmedSpeed <= MOTOR_MAX_SPEED
  {
    WithMotorRequest(h, m, h.MotorOf(m).(direction := d), slack)
  }

  function JointCommand(j: Joint, f: JointFields): Command {
    JointSet(JointId(j), DirectionId(f.direction), f.speed, f.settingPosition, f.programmedPosition)
  }

  function WithJointRequest(h: Host, j: Joint, f: JointFields, slack: Byte): Host {
    h.WithJoint(j, f).Inserting(ArmKey(j), HolderFor(ArmKey(j), JointCommand(j, f), slack))
  }

  /** The speed stored is the argument cut to a byte, not the clamped one: the clamped value is only
      logged. */
  function AfterJointSpeed(h: Host, j: Joint, speed: nat, slack: Byte): Host {
    if h.calibration.InProgress? then h
    else WithJointRequest(h, j, h.JointOf(j).(speed := speed % 256), slack)
  }

  function AfterJointDirection(h: Host, j: Joint, d: Direction, slack: Byte): Host {
    if h.calibration.InProgress? then h
    else WithJointRequest(h, j, h.JointOf(j).(direction := d, settingPosition := false), slack)
  }

  function AfterJointPosition(h: Host, j: Joint, position: nat, slack: Byte): Host {
    if h.calibration.InProgress? then h
    else
      var p: Byte := if position <= MaxPosition(j) then position else MaxPosition(j);
      WithJointRequest(h, j, h.JointOf(j).(programmedPosition := p, settingPosition := true), slack)
  }

  function AfterArmBrake(h: Host, slack: Byte): Host {
    h.Inserting(AddonKey, HolderFor(AddonKey, ArmBrake, slack))
  }

  function AfterCalibrate(h: Host, slack: Byte): Host {
    if h.calibration.InProgress? then h
    else h.(calibration := InProgress, mode := Calibrating).Inserting(AddonKey, HolderFor(AddonKey, ArmCalibrate, slack))
  }

  function LightMask(l: Light): bv8 { match l case LeftLight => 0x04 case RightLight => 0x08 case Camera => 0x10 }

  predicate LightOn(expander: bv8, l: Light) { LightMask(l) & expander != 0 }

  function WithLight(expander: bv8, l: Light, on: bool): bv8 {
    if on then expander | LightMask(l) else expander & !LightMask(l)
  }

  /** Switching one light leaves the other two as they were. */
  lemma OneLightSwitched(expander: bv8, l: Light, on: bool, other: Light)
    ensures LightOn(WithLight(expander, l, on), other) == if other == l then on else LightOn(expander, other)
  {
    match l
    case LeftLight =>
    case RightLight =>
    case Camera =>
  }

  function ByteOf(bits: bv8): Byte { bits as int }

  function BitsOf(byte: Byte): bv8 { byte as bv8 }

  function AfterLight(h: Host, l: Light, on: bool, slack: Byte): Host {
    var e := WithLight(h.expander, l, on);
    h.(expander := e).Inserting(ExpanderKey, HolderFor(ExpanderKey, ExpanderSet(ByteOf(e)), slack))
  }

  /** Clamping of joint speeds is promised by the constant 255 and its warning, but holds exactly for
      arguments that fit a byte (or happen to be 255 modulo 256). */
  lemma JointSpeedClampedIff(h: Host, j: Joint, speed: nat, slack: Byte)
    requires !h.calibration.InProgress?
    ensures AfterJointSpeed(h, j, speed, slack).JointOf(j).speed == (if speed <= 255 then speed else 255)
            <==> speed <= 255 || speed % 256 == 255
  {
    if speed <= 255 {
      assert speed % 256 == speed;
    }
  }

  // ---- Responses ----

  datatype Listener = OnInterface | OnArm | OnExpander | OnJoint(joint: Joint) | OnMotor(motor: Motor)

  const LISTENERS: seq<Listener> := [
    OnInterface, OnArm, OnExpander, OnJoint(Elbow), OnJoint(Gripper), OnJoint(Shoulder), OnMotor(Left), OnMotor(Right)]

  const STATE_SIZE: nat := 9
  const JOINT_STATE_SIZE: nat := 5
  const MOTOR_STATE_SIZE: nat := 3
  const GENERAL_STATE_SIZE: nat := 2

  /** Response bytes that `n` getters may need. */
  function RoomFor(n: nat): nat { 9 * n }

  function Halted(f: JointFields): JointFields { f.(direction := Stop, speed := 0) }

  const STOPPED_MOTOR := MotorFields(Stop, 0, 0)

  function ArmKilled(h: Host): Host {
    h.(mode := Directional, calibration := if h.calibration.InProgress? then NotCalibrated else h.calibration,
       requests := h.requests - {AddonKey})
  }

  function JointsKilled(h: Host): Host {
    h.(shoulder := Halted(h.shoulder), elbow := Halted(h.elbow), gripper := Halted(h.gripper))
  }

  function MotorsKilled(h: Host): Host { h.(left := STOPPED_MOTOR, right := STOPPED_MOTOR) }

  /** All listeners told that the device reported an active kill switch. */
  function AfterKill(h: Host): Host {
    MotorsKilled(JointsKilled(ArmKilled(h.(lcdText := []))))
  }

  function LittleEndian(low: Byte, high: Byte): Word { low as int + 256 * high as int }

  function SensorsIn(data: seq<Byte>): Sensors
    requires |data| >= STATE_SIZE
  {
    Sensors(data[4] != 0, data[5] != 0, data[6] != 0, LittleEndian(data[0], data[1]), LittleEndian(data[2], data[3]))
  }

  function AfterState(h: Host, data: seq<Byte>): Host
    requires |data| >= STATE_SIZE
  {
    (if data[8] == 1 then AfterKill(h.(killActive := true, killByHardware := data[7] != 0))
     else h.(killActive := false, killByHardware := false))
      .(sensors := SensorsIn(data))
  }

  function AfterGeneralState(h: Host, calibrated: bool, mode: Byte): Host {
    h.(requests := if calibrated && h.calibration.InProgress? then h.requests - {AddonKey} else h.requests,
       calibration := if calibrated then Done else h.calibration,
       mode := if mode == 0 then Directional else if mode == 1 then Positional else if mode == 2 then Calibrating else h.mode)
  }

  function JointNumbered(id: Byte): Joint { if id == 1 then Elbow else if id == 2 then Gripper else Shoulder }

  function MotorNumbered(id: Byte): Motor { if id == 0 then Left else Right }

  function DirectionNumbered(id: Byte): Direction { if id == 1 then Forward else if id == 2 then Backward else Stop }

  /** One listener's answer to one getter: the new value and the bytes it took, 0 if it does not
      handle the getter. */
  function UpdateFields(h: Host, l: Listener, getter: Byte, data: seq<Byte>): (r: (Host, nat))
    requires |data| >= STATE_SIZE
    ensures r.1 <= STATE_SIZE && (r.1 == 0 ==> r.0 == h)
  {
    match l
    case OnInterface =>
      if getter != GET_STATE then (h, 0) else (AfterState(h, data), STATE_SIZE)
    case OnArm =>
      if getter != ARM_GET_GENERAL then (h, 0)
      else (AfterGeneralState(h, data[0] != 0, data[1]), GENERAL_STATE_SIZE)
    case OnExpander =>
      if getter != EXPANDER_GET then (h, 0) else (h.(expander := BitsOf(data[0])), 1)
    case OnJoint(j) =>
      if getter != ARM_GET || JointNumbered(data[0]) != j then (h, 0)
      else
        var f := h.JointOf(j).(direction := DirectionNumbered(data[1]), speed := data[2], position := data[4]);
        (h.WithJoint(j, f), JOINT_STATE_SIZE)
    case OnMotor(m) =>
      if getter != MOTOR_GET || MotorNumbered(data[0]) != m then (h, 0)
      else (h.WithMotor(m, h.MotorOf(m).(power := data[2])), MOTOR_STATE_SIZE)
  }

  /** The first listener that takes bytes wins. */
  function Dispatch(h: Host, ls: seq<Listener>, getter: Byte, data: seq<Byte>): (r: (Host, nat))
    requires |data| >= STATE_SIZE
    ensures r.1 <= STATE_SIZE
  {
    if ls == [] then (h, 0)
    else
      var r := UpdateFields(h, ls[0], getter, data);
      if r.1 > 0 then r else Dispatch(h, ls[1..], getter, data)
  }

  datatype Update = Updated(host: Host) | Unhandled | EndMissing

  /** Each getter's answer in turn, from `pos` on; the two failures are the two exceptions. */
  function AfterResponse(h: Host, getters: seq<Byte>, response: seq<Byte>, pos: nat): Update
    requires pos + RoomFor(|getters|) < |response|
    decreases |getters|
  {
    if getters == [] then
      if response[pos] == MESSAGE_END then Updated(h) else EndMissing
    else
      var r := Dispatch(h, LISTENERS, getters[0], response[pos..]);
      if r.1 == 0 then Unhandled else AfterResponse(r.0, getters[1..], response, pos + r.1)
  }

  /** Every getter the device answers is taken by exactly one of the listeners. */
  lemma ExactlyOneListener(h: Host, getter: Byte, data: seq<Byte>)
    requires |data| >= STATE_SIZE
    requires getter in {GET_STATE, ARM_GET_GENERAL, EXPANDER_GET, ARM_GET, MOTOR_GET}
    ensures exists i | 0 <= i < |LISTENERS| ::
      && Dispatch(h, LISTENERS, getter, data) == UpdateFields(h, LISTENERS[i], getter, data)
      && UpdateFields(h, LISTENERS[i], getter, data).1 > 0
      && forall j | 0 <= j < |LISTENERS| && j != i :: UpdateFields(h, LISTENERS[j], getter, data).1 == 0
  {
    var i :=
      if getter == GET_STATE then 0
      else if getter == ARM_GET_GENERAL then 1
      else if getter == EXPANDER_GET then 2
      else if getter == ARM_GET then
        match JointNumbered(data[0]) case Elbow => 3 case Gripper => 4 case Shoulder => 5
      else if MotorNumbered(data[0]).Left? then 6 else 7;
    assert UpdateFields(h, LISTENERS[i], getter, data).1 > 0;
    assert forall j | 0 <= j < |LISTENERS| && j != i :: UpdateFields(h, LISTENERS[j], getter, data).1 == 0;
    DispatchFinds(h, LISTENERS, i, getter, data);
  }

  lemma {:induction false} DispatchFinds(h: Host, ls: seq<Listener>, i: nat, getter: Byte, data: seq<Byte>)
    requires |data| >= STATE_SIZE && i < |ls|
    requires UpdateFields(h, ls[i], getter, data).1 > 0
    requires forall j | 0 <= j < i :: UpdateFields(h, ls[j], getter, data).1 == 0
    ensures Dispatch(h, ls, getter, data) == UpdateFields(h, ls[i], getter, data)
  {
    if i > 0 {
      assert UpdateFields(h, ls[0], getter, data).1 == 0;
      assert forall j | 0 <= j < i - 1 :: ls[1..][j] == ls[j + 1];
      DispatchFinds(h, ls[1..], i - 1, getter, data);
    }
  }

  // ---- The object ----

  function StartHost(slack: Byte): Host {
    AfterKillSwitch(BLANK_HOST, true, slack)
  }

  const IDLE_JOINT := JointFields(Stop, 0, 0, 0, false)

  const BLANK_HOST := Host(
    map[], true, false, [], STOPPED_MOTOR, STOPPED_MOTOR, IDLE_JOINT, IDLE_JOINT, IDLE_JOINT,
    Directional, NotCalibrated, 0, Sensors(false, false, false, 0, 0))

  /** Motor speeds never exceed the highest level of the motor driver's table. */
  ghost predicate SpeedsLegal(h: Host) {
    h.left.programmedSpeed <= MOTOR_MAX_SPEED && h.right.programmedSpeed <= MOTOR_MAX_SPEED
  }

  /** The `slack` results are the byte that happened to follow the new request in memory. */
  class Interface {
    var requests: map<Key, Holder>
    var killActive: bool
    var killByHardware: bool
    var lcdText: seq<Byte>
    var left: MotorFields
    var right: MotorFields
    var shoulder: JointFields
    var elbow: JointFields
    var gripper: JointFields
    var mode: ArmMode
    var calibration: Calibration
    var expander: bv8
    var sensors: Sensors

    function State(): Host
      reads this
    {
      Host(requests, killActive, killByHardware, lcdText, left, right, shoulder, elbow, gripper,
           mode, calibration, expander, sensors)
    }

    constructor ()
      ensures exists slack: Byte :: State() == StartHost(slack)
    {
      requests, killActive, killByHardware, lcdText := map[], true, false, [];
      left, right := STOPPED_MOTOR, STOPPED_MOTOR;
      shoulder, elbow, gripper := IDLE_JOINT, IDLE_JOINT, IDLE_JOINT;
      mode, calibration, expander := Directional, NotCalibrated, 0;
      sensors := Sensors(false, false, false, 0, 0);
      new;
      assert State() == BLANK_HOST;
      ghost var slack := SetKillSwitch(true);
      assert State() == StartHost(slack);
    }

    /** `c` is the command whose bytes the value holds. */
    method InsertRequest(k: Key, value: DataHolder, ghost c: Command)
      requires value.Valid() && Fits(k, c)
      requires value.Value().wire == Encode(c)
      requires value.priority == PriorityOf(k) && value.dependent == Dependent(k)
      modifies this`requests
      ensures requests == old(requests)[k := HolderFor(k, c, value.Value().slack)]
    {
      requests := requests[k := value.Value()];
    }

    method SetLcdText(text: seq<Byte>) returns (ghost slack: Byte)
      modifies this
      ensures State() == AfterLcdText(old(State()), text, slack)
    {
      slack := 0;
      var shown := if |text| > LCD_MAX_LENGTH then text[..LCD_MAX_LENGTH] else text;
      if shown == lcdText {
        return;
      }
      lcdText := shown;
      var holder := new DataHolder(LCD_SET, PriorityOf(LcdKey), false, [|shown|] + shown);
      InsertRequest(LcdKey, holder, LcdSet(shown));
      slack := holder.Value().slack;
    }

    method SetKillSwitch(active: bool) returns (ghost slack: Byte)
      modifies this
      ensures State() == AfterKillSwitch(old(State()), active, slack)
    {
      if active {
        killActive := true;
        killByHardware := false;
      }
      var holder := new DataHolder(SET_KILLSWITCH, PriorityOf(KillSwitchKey), false, [Flag(active)]);
      InsertRequest(KillSwitchKey, holder, KillSwitchSet(active));
      slack := holder.Value().slack;
    }

    method CreateMotorState(m: Motor) returns (ghost slack: Byte)
      requires SpeedsLegal(State())
      modifies this`requests
      ensures State() == WithMotorRequest(old(State()), m, old(State()).MotorOf(m), slack)
    {
      var f := if m.Left? then left else right;
      var holder := new DataHolder(MOTOR_SET, PriorityOf(MotorKey(m)), true,
                                   [MotorId(m), DirectionId(f.direction), f.programmedSpeed]);
      InsertRequest(MotorKey(m), holder, MotorCommand(m, f));
      slack := holder.Value().slack;
    }

    method SetMotorSpeed(m: Motor, speed: nat) returns (ghost slack: Byte)
      requires SpeedsLegal(State())
      modifies this
      ensures State() == AfterMotorSpeed(old(State()), m, speed, slack)
    {
      var s: Byte := MOTOR_MAX_SPEED;
      if speed <= MOTOR_MAX_SPEED {
        s := speed;
      }
      if m.Left? {
        left := left.(programmedSpeed := s);
      } else {
        right := right.(programmedSpeed := s);
      }
      slack := CreateMotorState(m);
    }

    method SetMotorDirection(m: Motor, d: Direction) returns (ghost slack: Byte)
      requires SpeedsLegal(State())
      modifies this
      ensures State() == AfterMotorDirection(old(State()), m, d, slack)
    {
      if m.Left? {
        left := left.(direction := d);
      } else {
        right := right.(direction := d);
      }
      slack := CreateMotorState(m);
    }

    method BrakeMotors() returns (ghost slackLeft: Byte, ghost slackRight: Byte)
      requires SpeedsLegal(State())
      modifies this
      ensures State() == AfterMotorDirection(AfterMotorDirection(old(State()), Left, Stop, slackLeft), Right, Stop, slackRight)
    {
      slackLeft := SetMotorDirection(Left, Stop);
      slackRight := SetMotorDirection(Right, Stop);
    }

    method PutJoint(j: Joint, f: JointFields)
      modifies this`shoulder, this`elbow, this`gripper
      ensures State() == old(State()).WithJoint(j, f)
    {
      match j {
        case Shoulder => shoulder := f;
        case Elbow => elbow := f;
        case Gripper => gripper := f;
      }
    }

    method CreateJointState(j: Joint) returns (ghost slack: Byte)
      modifies this`requests
      ensures State() == WithJointRequest(old(State()), j, old(State()).JointOf(j), slack)
    {
      var f := State().JointOf(j);
      var holder := new DataHolder(ARM_SET, PriorityOf(ArmKey(j)), true,
        [JointId(j), DirectionId(f.direction), f.speed, Flag(f.settingPosition), f.programmedPosition]);
      InsertRequest(ArmKey(j), holder, JointCommand(j, f));
      slack := holder.Value().slack;
    }

    method SetJointSpeed(j: Joint, speed: nat) returns (ghost slack: Byte)
      modifies this
      ensures State() == AfterJointSpeed(old(State()), j, speed, slack)
    {
      slack := 0;
      if calibration.InProgress? {
        return;
      }
      PutJoint(j, State().JointOf(j).(speed := speed % 256));
      slack := CreateJointState(j);
    }

    method SetJointDirection(j: Joint, d: Direction) returns (ghost slack: Byte)
      modifies this
      ensures State() == AfterJointDirection(old(State()), j, d, slack)
    {
      slack := 0;
      if calibration.InProgress? {
        return;
      }
      PutJoint(j, State().JointOf(j).(direction := d, settingPosition := false));
      slack := CreateJointState(j);
    }

    method SetJointPosition(j: Joint, position: nat) returns (ghost slack: Byte)
      modifies this
      ensures State() == AfterJointPosition(old(State()), j, position, slack)
    {
      slack := 0;
      if calibration.InProgress? {
        return;
      }
      var effective: Byte := MaxPosition(j);
      if position <= MaxPosition(j) {
        effective := position;
      }
      PutJoint(j, State().JointOf(j).(programmedPosition := effective, settingPosition := true));
      slack := CreateJointState(j);
    }

    method BrakeArm() returns (ghost slack: Byte)
      modifies this
      ensures State() == AfterArmBrake(old(State()), slack)
    {
      var holder := new DataHolder(ARM_SET, PriorityOf(AddonKey), true, [ARM_BRAKE]);
      InsertRequest(AddonKey, holder, ArmBrake);
      slack := holder.Value().slack;
    }

    method Calibrate() returns (ghost slack: Byte)
      modifies this
      ensures State() == AfterCalibrate(old(State()), slack)
    {
      slack := 0;
      if calibration.NotCalibrated? || calibration.Done? {
        var holder := new DataHolder(ARM_SET, PriorityOf(AddonKey), true, [ARM_CALIBRATE]);
        InsertRequest(AddonKey, holder, ArmCalibrate);
        calibration := InProgress;
        mode := Calibrating;
        slack := holder.Value().slack;
      }
    }

    method SetLight(l: Light, on: bool) returns (ghost slack: Byte)
      modifies this
      ensures State() == AfterLight(old(State()), l, on, slack)
    {
      if on {
        expander := expander | LightMask(l);
      } else {
        expander := expander & !LightMask(l);
      }
      var holder := new DataHolder(EXPANDER_SET, PriorityOf(ExpanderKey), true, [ByteOf(expander)]);
      InsertRequest(ExpanderKey, holder, ExpanderSet(ByteOf(expander)));
      slack := holder.Value().slack;
    }

    method OnArmKilled()
      modifies this`mode, this`calibration, this`requests
      ensures State() == ArmKilled(old(State()))
    {
      mode := Directional;
      if calibration.InProgress? {
        calibration := NotCalibrated;
      }
      requests := requests - {AddonKey};
    }

    method OnJointsKilled()
      modifies this`shoulder, this`elbow, this`gripper
      ensures State() == JointsKilled(old(State()))
    {
      shoulder, elbow, gripper := Halted(shoulder), Halted(elbow), Halted(gripper);
    }

    method UpdateStructsWhenKillSwitchActivated()
      modifies this
      ensures State() == AfterKill(old(State()))
    {
      lcdText := [];
      OnArmKilled();
      OnJointsKilled();
      left, right := STOPPED_MOTOR, STOPPED_MOTOR;
    }

    method UpdateListener(l: Listener, getter: Byte, data: seq<Byte>) returns (taken: nat)
      requires |data| >= STATE_SIZE
      modifies this
      ensures (State(), taken) == UpdateFields(old(State()), l, getter, data)
      ensures l.OnInterface? && getter == GET_STATE && data[8] == 1 ==> killActive && AddonKey !in requests
    {
      taken := 0;
      match l {
        case OnInterface =>
          if getter == GET_STATE {
            if data[8] == 1 {
              killActive, killByHardware := true, data[7] != 0;
              UpdateStructsWhenKillSwitchActivated();
            } else {
              killActive, killByHardware := false, false;
            }
            sensors := SensorsIn(data);
            taken := STATE_SIZE;
          }
        case OnArm =>
          if getter == ARM_GET_GENERAL {
            if data[0] != 0 {
              if calibration.InProgress? {
                requests := requests - {AddonKey};
              }
              calibration := Done;
            }
            if data[1] == 0 {
              mode := Directional;
            } else if data[1] == 1 {
              mode := Positional;
            } else if data[1] == 2 {
              mode := Calibrating;
            }
            taken := GENERAL_STATE_SIZE;
          }
        case OnExpander =>
          if getter == EXPANDER_GET {
            expander := BitsOf(data[0]);
            taken := 1;
          }
        case OnJoint(j) =>
          if getter == ARM_GET && JointNumbered(data[0]) == j {
            PutJoint(j, State().JointOf(j).(direction := DirectionNumbered(data[1]), speed := data[2], position := data[4]));
            taken := JOINT_STATE_SIZE;
          }
        case OnMotor(m) =>
          if getter == MOTOR_GET && MotorNumbered(data[0]) == m {
            if m.Left? {
              left := left.(power := data[2]);
            } else {
              right := right.(power := data[2]);
            }
            taken := MOTOR_STATE_SIZE;
          }
      }
    }

    /** Asks the listeners in order until one takes bytes. */
    method OfferToListeners(getter: Byte, data: seq<Byte>) returns (taken: nat)
      requires |data| >= STATE_SIZE
      modifies this
      ensures (State(), taken) == Dispatch(old(State()), LISTENERS, getter, data)
    {
      taken := 0;
      assert LISTENERS[0..] == LISTENERS;
      for j := 0 to |LISTENERS|
        invariant taken == 0 && State() == old(State())
        invariant Dispatch(State(), LISTENERS, getter, data) == Dispatch(State(), LISTENERS[j..], getter, data)
      {
        assert LISTENERS[j..][1..] == LISTENERS[j + 1..];
        taken := UpdateListener(LISTENERS[j], getter, data);
        if taken > 0 {
          return;
        }
      }
    }

    /** Hands the response to the listeners, getter by getter. */
    method UpdateDataStructures(getters: seq<Byte>, response: seq<Byte>) returns (outcome: Update)
      requires RoomFor(|getters|) < |response|
      modifies this
      ensures outcome == AfterResponse(old(State()), getters, response, 0)
      ensures outcome.Updated? ==> State() == outcome.host
    {
      var position: nat := 0;
      assert getters[0..] == getters;
      for i := 0 to |getters|
        invariant position + RoomFor(|getters| - i) < |response|
        invariant AfterResponse(old(State()), getters, response, 0)
               == AfterResponse(State(), getters[i..], response, position)
      {
        assert getters[i..][1..] == getters[i + 1..];
        var taken := OfferToListeners(getters[i], response[position..]);
        if taken == 0 {
          return Unhandled;
        }
        position := position + taken;
      }
      if response[position] != MESSAGE_END {
        return EndMissing;
      }
      return Updated(State());
    }
  }
}
