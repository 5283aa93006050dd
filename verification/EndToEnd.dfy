/**
 From a call of the server's setters to what motors and joints are told: request, message, register of
 the bridge, messages on the I2C bus, driver.
 */
module EndToEnd {
  import opened Protocol
  import opened DataHolders
  import opened HostInterface
  import opened BridgeFirmware
  import opened Synchronisation
  import opened Exchange
  import opened Runs
  import opened SafetyResults
  import opened ReleaseResults
  import opened RequestContents
  import ArmJoints
  import ArmSafety
  import ArmRequests
  import MotorDriver
  import MotorBus

  // ---- Motors ----

  /** The two messages the bridge sends for a motor command. */
  function SpeedMessage(c: Command): seq<Byte>
    requires c.MotorSet?
  {
    [MotorDriver.SET_SPEED, c.motor, c.speed]
  }

  function DirectionMessage(c: Command): seq<Byte>
    requires c.MotorSet?
  {
    [MotorDriver.SET_DIRECTION, c.motor, c.direction]
  }

  function MotorAt(s: MotorBus.System, m: Motor): MotorBus.Motor { if m.Left? then s.motor1 else s.motor2 }

  predicate Moves(motor: MotorBus.Motor, motion: Motion) {
    && motor.direction == AsDriven(motion.direction) && motor.output == (motion.direction != Stop)
    && motion.speed < MotorDriver.LEVELS && motor.refSpeed == MotorDriver.REF_SPEEDS[motion.speed]
  }

  /** A motor driver at rest that is sent both has the named motor move so, and leaves the other alone. */
  lemma MotorCommandObeyed(s: MotorBus.System, c: Command, m: Motor, motion: Motion)
    returns (first: seq<MotorBus.Event>, u: MotorBus.System, second: seq<MotorBus.Event>, t: MotorBus.System)
    requires MotorBus.AtRest(s) && c.MotorSet? && SaysMotion(Encode(c), m, motion) && motion.speed <= 11
    ensures MotorBus.IsRun(s, first, u) && MotorBus.AtRest(u) && u.bus.sent == SpeedMessage(c)
    ensures MotorBus.IsRun(u, second, t) && MotorBus.AtRest(t) && t.bus.sent == DirectionMessage(c)
    ensures Moves(MotorAt(t, m), motion)
    ensures forall n | n != m :: MotorAt(t, n) == MotorAt(s, n)
  {
    first, u := MotorBus.MessageObeyed(s, SpeedMessage(c));
    second, t := MotorBus.MessageObeyed(u, DirectionMessage(c));
    assert Encode(c)[1] == c.motor && Encode(c)[2] == c.direction && Encode(c)[3] == c.speed;
  }

  /** The register of a motor after a message that carries its request is the command asked for. */
  lemma MotorRegister(v: World, r: Readings, m: Motor, h: MotorHistory)
    requires Up(v) && MotorKey(m) in v.Changes() && MotorAsAsked(v.host, m, h)
    ensures var regs := SyncedWorld(v, r).device.regs;
      MotorKey(m) in regs && regs[MotorKey(m)].MotorSet? && SaysMotion(Encode(regs[MotorKey(m)]), m, h.last)
  {
    SentInStep(v, r, MotorKey(m));
    assert v.Changes()[MotorKey(m)] == v.host.requests[MotorKey(m)];
    assert WellFormed(MotorKey(m), v.host.requests[MotorKey(m)]);
  }

  const STILL := MotorHistory(Motion(Stop, 0), false, Motion(Stop, 0))

  /** What the calls of a run have asked of a motor last, from the start of the server. */
  ghost function LastMotion(d: Device, slack: Byte, steps: seq<Step>, m: Motor): Motion
    requires DeviceSound(d)
  {
    StartSound(d, slack);
    MotorHistoryOf(STILL, m, StartWorld(d, slack), steps).last
  }

  /** Over every run of the server, against any state of the bridge and any state the motor driver may be
      at rest in: once the request of a motor goes out with the line up and believed up, the driver's
      motor of that side moves in the direction last asked for, at the level last asked for, and the
      other one is left alone. */
  lemma CallsReachMotor(d: Device, slack: Byte, steps: seq<Step>, v: World, r: Readings, m: Motor, s: MotorBus.System)
    returns (c: Command, u: MotorBus.System, t: MotorBus.System)
    requires DeviceSound(d) && IsRun(StartWorld(d, slack), steps, v) && Up(v) && MotorKey(m) in v.Changes()
    requires MotorBus.AtRest(s)
    ensures MotorKey(m) in SyncedWorld(v, r).device.regs && SyncedWorld(v, r).device.regs[MotorKey(m)] == c && c.MotorSet?
    ensures Sent(s, SpeedMessage(c), u) && Sent(u, DirectionMessage(c), t)
    ensures Moves(MotorAt(t, m), LastMotion(d, slack, steps, m)) && forall n | n != m :: MotorAt(t, n) == MotorAt(s, n)
  {
    StartSound(d, slack);
    StartMotorAsked(d, slack, m);
    var h := MotorHistoryOf(STILL, m, StartWorld(d, slack), steps);
    MotorRequestAsAsked(StartWorld(d, slack), steps, v, m, STILL);
    MotorRegister(v, r, m, h);
    c := SyncedWorld(v, r).device.regs[MotorKey(m)];
    SpeedInRange(v, m, h);
    var first, second;
    first, u, second, t := MotorCommandObeyed(s, c, m, h.last);
  }

  /** A run of the motor driver from rest to rest in which the master sent these bytes last. */
  ghost predicate Sent(s: MotorBus.System, bytes: seq<Byte>, t: MotorBus.System) {
    && MotorBus.AtRest(s) && MotorBus.AtRest(t) && t.bus.sent == bytes
    && exists events :: MotorBus.IsRun(s, events, t)
  }

  lemma SpeedInRange(v: World, m: Motor, h: MotorHistory)
    requires Sound(v) && MotorKey(m) in v.host.requests && MotorAsAsked(v.host, m, h)
    ensures h.last.speed <= 11
  {
    assert WellFormed(MotorKey(m), v.host.requests[MotorKey(m)]);
  }

  // ---- Joints ----

  function EntryOf(j: Joint): nat { match j case Shoulder => 0 case Elbow => 1 case Gripper => 2 }

  /** Which way a joint has to go, by direction or towards a position. */
  function Heading(before: ArmJoints.Joint, aim: Aim): ArmJoints.Direction {
    if !aim.positional then AsTurned(aim.direction)
    else if before.position < aim.position then ArmJoints.Forward
    else if before.position > aim.position then ArmJoints.Backward
    else ArmJoints.Stop
  }

  /** It goes that way if the way is permitted and stands otherwise; its pins follow; a position is its
      new target. */
  predicate Heads(before: ArmJoints.Joint, after: ArmJoints.Joint, aim: Aim) {
    var way := Heading(before, aim);
    && after.current == (if ArmJoints.Permitted(before.allowed, way) then way else ArmJoints.Stop)
    && (after.pin == after.current) && after.allowed == before.allowed && after.position == before.position
    && (aim.positional ==> after.target == aim.position && (after.mode == ArmJoints.Positional <==> way != ArmJoints.Stop))
    && (!aim.positional ==> after.mode != ArmJoints.Positional)
  }

  /** Shoulder and elbow can be sent to a position in range once calibrated; the gripper only opens and
      closes. */
  predicate Reachable(before: ArmJoints.Joint, j: Joint, aim: Aim) {
    aim.positional ==> before.calibrated && aim.position <= before.maximum && (j.Gripper? ==> aim.position == 0 || aim.position == before.maximum)
  }

  lemma DirectedHeads(before: ArmJoints.Joint, aim: Aim)
    requires !aim.positional
    ensures Heads(before, ArmJoints.Directed(before, AsTurned(aim.direction), true), aim)
  {
  }

  lemma PositionedHeads(before: ArmJoints.Joint, j: Joint, aim: Aim)
    requires aim.positional && Reachable(before, j, aim)
    ensures Heads(before, ArmJoints.Positioned(before, EntryOf(j), aim.position, true), aim)
  {
  }

  lemma RelayedJoint(a: ArmJoints.Arm, c: Command, j: Joint, aim: Aim)
    requires c.JointSet? && SaysAim(Encode(c), j, aim)
    ensures ArmJoints.IndexOf(c.joint) == EntryOf(j) && ArmJoints.Wired(c.joint)
    ensures ArmRequests.Obeyed(a, ArmRequests.Relayed(c))
         == ArmJoints.AfterCommand(a, if aim.positional then ArmJoints.SetPosition(c.joint, aim.position)
                                      else ArmJoints.SetDirection(c.joint, AsTurned(aim.direction)))
  {
    var cs := ArmRequests.Relayed(c);
    var w := Encode(c);
    assert w[1] == c.joint && w[2] == c.direction && w[4] == Flag(c.setPosition) && w[5] == c.position;
    var b := ArmJoints.AfterCommand(a, cs[0]);
    assert ArmRequests.Obeyed(a, cs) == ArmRequests.Obeyed(b, cs[1..]);
    assert ArmRequests.Obeyed(b, cs[1..]) == ArmRequests.Obeyed(ArmJoints.AfterCommand(b, cs[1]), []);
    assert b.joints == a.joints;
  }

  lemma JointCommandObeyed(a: ArmJoints.Arm, c: Command, j: Joint, aim: Aim)
    requires c.JointSet? && SaysAim(Encode(c), j, aim) && Reachable(a.joints[EntryOf(j)], j, aim)
    ensures var b := ArmRequests.Obeyed(a, ArmRequests.Relayed(c));
      && Heads(a.joints[EntryOf(j)], b.joints[EntryOf(j)], aim) && b.interrupt
      && forall i | 0 <= i < ArmJoints.TABLE_SIZE && i != EntryOf(j) :: b.joints[i] == a.joints[i]
  {
    RelayedJoint(a, c, j, aim);
    if aim.positional {
      PositionedHeads(a.joints[EntryOf(j)], j, aim);
    } else {
      DirectedHeads(a.joints[EntryOf(j)], aim);
    }
  }

  const RESTING := Aim(Stop, 0, 0, false)

  ghost function LastAim(d: Device, slack: Byte, steps: seq<Step>, j: Joint): Aim
    requires DeviceSound(d)
  {
    StartSound(d, slack);
    JointHistoryOf(JointHistory(RESTING, false, RESTING), j, StartWorld(d, slack), steps).last
  }

  lemma JointTold(v: World, r: Readings, j: Joint, h: JointHistory)
    requires Up(v) && ArmKey(j) in v.Changes() && AddonKey !in v.Changes() && JointAsAsked(v.host, j, h)
    ensures var told := SyncedWorld(v, r).device.arm.At(j);
      told.Told? && told.command.JointSet? && SaysAim(Encode(told.command), j, h.last)
  {
    ArmRequests.SyncArm(v, r, j);
    assert v.Changes()[ArmKey(j)] == v.host.requests[ArmKey(j)];
    assert WellFormed(ArmKey(j), v.host.requests[ArmKey(j)]);
  }

  /** The same for a joint, as long as no command to the whole arm is in the message: in any state of the
      arm driver, the joint goes the way last asked for, or towards the position, if that way is
      permitted, and no other joint is touched. */
  lemma CallsReachJoint(d: Device, slack: Byte, steps: seq<Step>, v: World, r: Readings, j: Joint, a: ArmJoints.Arm)
    requires DeviceSound(d) && IsRun(StartWorld(d, slack), steps, v) && Up(v)
    requires ArmKey(j) in v.Changes() && AddonKey !in v.Changes()
    requires Reachable(a.joints[EntryOf(j)], j, LastAim(d, slack, steps, j))
    ensures var told := SyncedWorld(v, r).device.arm.At(j);
      && told.Told?
      && var b := ArmRequests.Obeyed(a, ArmRequests.Relayed(told.command));
      && Heads(a.joints[EntryOf(j)], b.joints[EntryOf(j)], LastAim(d, slack, steps, j))
      && forall i | 0 <= i < ArmJoints.TABLE_SIZE && i != EntryOf(j) :: b.joints[i] == a.joints[i]
  {
    StartSound(d, slack);
    StartJointAsked(d, slack, j);
    var start := JointHistory(RESTING, false, RESTING);
    var h := JointHistoryOf(start, j, StartWorld(d, slack), steps);
    JointRequestAsAsked(StartWorld(d, slack), steps, v, j, start);
    JointTold(v, r, j, h);
    JointCommandObeyed(a, SyncedWorld(v, r).device.arm.At(j).command, j, h.last);
  }

  // ---- Such runs there are ----

  /** From reset: released, then a motor given a speed; its request is in the next message. */
  lemma MotorCalled(r: Readings) returns (steps: seq<Step>, v: World)
    ensures IsRun(StartWorld(RESET_BRIDGE, 0), steps, v) && Up(v) && MotorKey(Left) in v.Changes()
  {
    var asked, released := ReleasedWorld(r);
    v := HostStepWorld(released, MotorSpeed(Left, 5, 0));
    MovedChanges(released, v);
    var first := TwoSteps(StartWorld(RESET_BRIDGE, 0), KillSwitch(false, 0), asked, Sync([KillSwitchKey], r), released);
    RunCons(released, MotorSpeed(Left, 5, 0), v, [], v);
    steps := first + ([MotorSpeed(Left, 5, 0)] + []);
    RunAppend(StartWorld(RESET_BRIDGE, 0), first, released, [MotorSpeed(Left, 5, 0)] + [], v);
  }

  /** From reset: released, braked, then the elbow told to drive; its request alone is in the next message. */
  lemma ElbowCalled(r: Readings) returns (steps: seq<Step>, v: World)
    ensures IsRun(StartWorld(RESET_BRIDGE, 0), steps, v) && Up(v)
    ensures ArmKey(Elbow) in v.Changes() && AddonKey !in v.Changes()
  {
    var first, w := ArmRequests.BrakedFromReset(r);
    var s := JointDirection(Elbow, Forward, 0);
    ArmRequests.ElbowSetsAnew(w);
    NextSound(w, s);
    v := w.(host := HostStep(w.host, s));
    ArmRequests.SetChanges(w, s, ArmKey(Elbow), JointCommand(Elbow, ArmRequests.ElbowForward(w)), 0);
    RunCons(w, s, v, [], v);
    steps := first + ([s] + []);
    RunAppend(StartWorld(RESET_BRIDGE, 0), first, w, [s] + [], v);
    assert AddonKey !in v.Changes().Keys;
  }
}
