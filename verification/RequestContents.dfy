/**
 What the request map says after any run: the setters were called with these arguments, the device
 reported this, so these are the bytes that go out.
 */
module RequestContents {
  import opened Protocol
  import opened DataHolders
  import opened HostInterface
  import opened BridgeFirmware
  import opened Synchronisation
  import opened Exchange
  import opened Runs
  import opened SafetyResults
  import opened ReleaseResults
  import opened Reports
  import ArmJoints
  import ArmRequests
  import MotorDriver

  // ---- Polled values, one by one ----

  lemma PollsInTurn(h: Host, d: Device, counter: nat, killActive: bool, r: Readings)
    ensures var g, ps := Absorb(h, d, GetState, r), Polls(counter, killActive);
      AbsorbAll(h, d, ps, r) == if killActive then g else Absorb(Absorb(g, d, ps[1], r), d, ps[2], r)
  {
    var ps := Polls(counter, killActive);
    var g := Absorb(h, d, ps[0], r);
    assert AbsorbAll(h, d, ps, r) == AbsorbAll(g, d, ps[1..], r);
    if !killActive {
      var i := Absorb(g, d, ps[1], r);
      assert AbsorbAll(g, d, ps[1..], r) == AbsorbAll(i, d, ps[1..][1..], r);
      assert AbsorbAll(i, d, ps[1..][1..], r) == AbsorbAll(Absorb(i, d, ps[2], r), d, [], r);
    }
  }

  // ---- Motors ----

  datatype Motion = Motion(direction: Direction, speed: nat)

  /** `now`: what was asked of a motor last, stopped by the report of a kill. `last`: what it was at the
      last call, if there was one. */
  datatype MotorHistory = MotorHistory(now: Motion, called: bool, last: Motion)

  function Called(h: MotorHistory, now: Motion): MotorHistory { MotorHistory(now, true, now) }

  function MotorAsked(h: MotorHistory, m: Motor, s: Step, killReported: bool): MotorHistory {
    if s.MotorSpeed? && s.motor == m then Called(h, h.now.(speed := if s.speed > 11 then 11 else s.speed))
    else if s.MotorDirection? && s.motor == m then Called(h, h.now.(direction := s.direction))
    else if s.Sync? && killReported then h.(now := Motion(Stop, 0))
    else h
  }

  ghost function MotorHistoryOf(h: MotorHistory, m: Motor, w: World, steps: seq<Step>): MotorHistory
    requires Sound(w)
    decreases |steps|
  {
    if steps == [] || !Enabled(w, steps[0]) then h
    else
      NextSound(w, steps[0]);
      var u := Next(w, steps[0]).world;
      MotorHistoryOf(MotorAsked(h, m, steps[0], u.host.killActive), m, u, steps[1..])
  }

  function AsDriven(d: Direction): MotorDriver.Direction {
    match d case Stop => MotorDriver.Stop case Forward => MotorDriver.Forward case Backward => MotorDriver.Backward
  }

  /** The bytes name motor `m`, as bridge and motor driver number them, and say this motion, as the motor
      driver reads it. */
  predicate SaysMotion(wire: seq<Byte>, m: Motor, motion: Motion) {
    && |wire| == 4 && wire[0] == MOTOR_SET
    && MotorNumbered(wire[1]) == m && (wire[1] == MotorDriver.MOTOR1 <==> m.Left?)
    && MotorDriver.DirectionOf(wire[2]) == AsDriven(motion.direction) && wire[3] == motion.speed
  }

  predicate MotorAsAsked(g: Host, m: Motor, h: MotorHistory) {
    && g.MotorOf(m).direction == h.now.direction && g.MotorOf(m).programmedSpeed == h.now.speed
    && (MotorKey(m) in g.requests <==> h.called)
    && (h.called ==> SaysMotion(g.requests[MotorKey(m)].wire, m, h.last))
  }

  lemma AbsorbMotorAsked(h: Host, d: Device, c: Command, r: Readings, m: Motor)
    requires IsGetter(c)
    ensures var f, g := h.MotorOf(m), Absorb(h, d, c, r).MotorOf(m);
      if c.GetState? && d.Active() then g.direction == Stop && g.programmedSpeed == 0
      else g.direction == f.direction && g.programmedSpeed == f.programmedSpeed
  {
    match c
    case GetState =>
    case GetMotor(id) =>
    case GetJoint(id) => assert forall f :: h.WithJoint(JointNumbered(id), f).MotorOf(m) == h.MotorOf(m);
    case GetGeneral =>
    case GetExpander =>
  }

  lemma PolledMotorAsked(h: Host, d: Device, counter: nat, killActive: bool, r: Readings, m: Motor)
    ensures var f, g := h.MotorOf(m), AbsorbAll(h, d, Polls(counter, killActive), r).MotorOf(m);
      if d.Active() then g.direction == Stop && g.programmedSpeed == 0
      else g.direction == f.direction && g.programmedSpeed == f.programmedSpeed
  {
    var g, ps := Absorb(h, d, GetState, r), Polls(counter, killActive);
    PollsInTurn(h, d, counter, killActive, r);
    AbsorbMotorAsked(h, d, GetState, r, m);
    if !killActive {
      AbsorbMotorAsked(g, d, ps[1], r, m);
      AbsorbMotorAsked(Absorb(g, d, ps[1], r), d, ps[2], r, m);
    }
  }

  lemma SyncMotorPicture(w: World, r: Readings, m: Motor)
    requires Sound(w)
    ensures var f, u := w.host.MotorOf(m), SyncedWorld(w, r).host;
      var g := u.MotorOf(m);
      && KeptAt(w.host.requests, u.requests, MotorKey(m))
      && if u.killActive then g.direction == Stop && g.programmedSpeed == 0
         else g.direction == f.direction && g.programmedSpeed == f.programmedSpeed
  {
    SyncAbsorbs(w, r);
    PolledMotorAsked(w.host, Delivered(w.device, w.Changes()), w.counter, w.host.killActive, r, m);
    SyncKeeps(w, r, MotorKey(m));
  }

  lemma ReportedMotor(a: Host, b: Host, m: Motor, h: MotorHistory, s: Step, killReported: bool)
    requires MotorAsAsked(a, m, h) && s.Sync? && KeptAt(a.requests, b.requests, MotorKey(m))
    requires var f, g := a.MotorOf(m), b.MotorOf(m);
      if killReported then g.direction == Stop && g.programmedSpeed == 0
      else g.direction == f.direction && g.programmedSpeed == f.programmedSpeed
    ensures MotorAsAsked(b, m, MotorAsked(h, m, s, killReported))
  {
  }

  lemma SetterMotorAsked(g: Host, s: Step, m: Motor, h: MotorHistory)
    requires SpeedsLegal(g) && MotorAsAsked(g, m, h) && Writes(s, MotorKey(m))
    ensures MotorAsAsked(HostStep(g, s), m, MotorAsked(h, m, s, false))
  {
  }

  lemma OtherMotorAsked(h: Host, s: Step, m: Motor)
    requires SpeedsLegal(h) && !s.Sync? && !Writes(s, MotorKey(m))
    ensures HostStep(h, s).MotorOf(m) == h.MotorOf(m)
  {
    match s
    case JointSpeed(j, _, _) => assert forall f :: h.WithJoint(j, f).MotorOf(m) == h.MotorOf(m);
    case JointDirection(j, _, _) => assert forall f :: h.WithJoint(j, f).MotorOf(m) == h.MotorOf(m);
    case JointPosition(j, _, _) => assert forall f :: h.WithJoint(j, f).MotorOf(m) == h.MotorOf(m);
    case _ =>
  }

  lemma CallMotorAsked(g: Host, s: Step, m: Motor, h: MotorHistory)
    requires SpeedsLegal(g) && MotorAsAsked(g, m, h) && !s.Sync?
    ensures MotorAsAsked(HostStep(g, s), m, MotorAsked(h, m, s, false))
  {
    if Writes(s, MotorKey(m)) {
      SetterMotorAsked(g, s, m, h);
    } else {
      OtherMotorAsked(g, s, m);
      HostStepKeeps(g, s, MotorKey(m));
    }
  }

  lemma NextMotorAsked(w: World, s: Step, m: Motor, h: MotorHistory)
    requires Sound(w) && Enabled(w, s) && MotorAsAsked(w.host, m, h)
    ensures Next(w, s).Synced?
    ensures MotorAsAsked(Next(w, s).world.host, m, MotorAsked(h, m, s, Next(w, s).world.host.killActive))
  {
    if s.Sync? {
      SyncExact(w, s.order, s.readings);
      SyncMotorPicture(w, s.readings, m);
      ReportedMotor(w.host, SyncedWorld(w, s.readings).host, m, h, s, SyncedWorld(w, s.readings).host.killActive);
    } else {
      CallMotorAsked(w.host, s, m, h);
    }
  }

  /** Over every run: a motor's request says the direction last asked for and the last speed, cut at 11,
      a report of a kill counting as a stop; it is there from the first call on. */
  lemma {:induction false} MotorRequestAsAsked(w: World, steps: seq<Step>, v: World, m: Motor, h: MotorHistory)
    requires Sound(w) && IsRun(w, steps, v) && MotorAsAsked(w.host, m, h)
    ensures MotorAsAsked(v.host, m, MotorHistoryOf(h, m, w, steps))
    decreases |steps|
  {
    if steps != [] {
      var u := Next(w, steps[0]).world;
      NextSound(w, steps[0]);
      NextMotorAsked(w, steps[0], m, h);
      MotorRequestAsAsked(u, steps[1..], v, m, MotorAsked(h, m, steps[0], u.host.killActive));
    }
  }

  lemma StartMotorAsked(d: Device, slack: Byte, m: Motor)
    ensures MotorAsAsked(StartWorld(d, slack).host, m, MotorHistory(Motion(Stop, 0), false, Motion(Stop, 0)))
  {
  }

  // ---- Joints ----

  /** A directional command turns the joint, a positional one sends it to `position`. */
  datatype Aim = Aim(direction: Direction, speed: Byte, position: Byte, positional: bool)

  datatype JointHistory = JointHistory(now: Aim, called: bool, last: Aim)

  function Aimed(h: JointHistory, now: Aim): JointHistory { JointHistory(now, true, now) }

  /** The calls for joint `j`, which do nothing during a calibration, and what the device reports of it. */
  function JointAsked(h: JointHistory, j: Joint, s: Step, calibrating: bool, killReported: bool, polled: bool): JointHistory {
    match s
    case JointSpeed(i, speed, _) =>
      if i != j || calibrating then h else Aimed(h, h.now.(speed := speed % 256))
    case JointDirection(i, d, _) =>
      if i != j || calibrating then h else Aimed(h, h.now.(direction := d, positional := false))
    case JointPosition(i, p, _) =>
      if i != j || calibrating then h
      else
        var most: Byte := match j case Elbow => 105 case Shoulder => 79 case Gripper => 255;
        Aimed(h, h.now.(position := if p > most then most else p, positional := true))
    case Sync(_, r) =>
      if polled then h.(now := h.now.(direction := ReportedDirection(r.jointDirection), speed := r.jointSpeed))
      else if killReported then h.(now := h.now.(direction := Stop, speed := 0))
      else h
    case _ => h
  }

  function ReportedDirection(code: Byte): Direction {
    if code == DirectionId(Forward) then Forward else if code == DirectionId(Backward) then Backward else Stop
  }

  ghost predicate JointPolled(w: World, j: Joint) { GetJoint(JointId(j)) in Polls(w.counter, w.host.killActive) }

  ghost function JointHistoryOf(h: JointHistory, j: Joint, w: World, steps: seq<Step>): JointHistory
    requires Sound(w)
    decreases |steps|
  {
    if steps == [] || !Enabled(w, steps[0]) then h
    else
      NextSound(w, steps[0]);
      var u := Next(w, steps[0]).world;
      JointHistoryOf(JointAsked(h, j, steps[0], w.host.calibration.InProgress?, u.host.killActive, JointPolled(w, j)), j, u, steps[1..])
  }

  /** The bytes name joint `j`, as bridge and arm driver number them, and say this aim, as the arm driver
      reads it. */
  predicate SaysAim(wire: seq<Byte>, j: Joint, aim: Aim) {
    && |wire| == 6 && wire[0] == ARM_SET
    && JointKeyed(wire[1]) == j && ArmJoints.Wired(wire[1])
    && ArmRequests.Way(wire[2]) == AsTurned(aim.direction) && wire[3] == aim.speed
    && (wire[4] != 0 <==> aim.positional) && wire[5] == aim.position
  }

  function AsTurned(d: Direction): ArmJoints.Direction {
    match d case Stop => ArmJoints.Stop case Forward => ArmJoints.Forward case Backward => ArmJoints.Backward
  }

  predicate JointAsAsked(g: Host, j: Joint, h: JointHistory) {
    var f := g.JointOf(j);
    && f.direction == h.now.direction && f.speed == h.now.speed
    && f.programmedPosition == h.now.position && f.settingPosition == h.now.positional
    && (ArmKey(j) in g.requests <==> h.called)
    && (h.called ==> SaysAim(g.requests[ArmKey(j)].wire, j, h.last))
  }

  predicate SameAim(f: JointFields, g: JointFields) {
    g.programmedPosition == f.programmedPosition && g.settingPosition == f.settingPosition
  }

  lemma AbsorbJointAsked(h: Host, d: Device, c: Command, r: Readings, j: Joint)
    requires IsGetter(c)
    ensures var f, g := h.JointOf(j), Absorb(h, d, c, r).JointOf(j);
      && SameAim(f, g)
      && if c.GetJoint? && JointNumbered(c.joint) == j then g.direction == ReportedDirection(r.jointDirection) && g.speed == r.jointSpeed
         else if c.GetState? && d.Active() then g.direction == Stop && g.speed == 0
         else g.direction == f.direction && g.speed == f.speed
  {
    match c
    case GetState => match j { case Shoulder => case Elbow => case Gripper => }
    case GetMotor(id) => assert forall f :: h.WithMotor(MotorNumbered(id), f).JointOf(j) == h.JointOf(j);
    case GetJoint(id) =>
    case GetGeneral =>
    case GetExpander =>
  }

  lemma JointPolledIff(counter: nat, killActive: bool, j: Joint)
    ensures GetJoint(JointId(j)) in Polls(counter, killActive)
       <==> !killActive && Polls(counter, killActive)[2].GetJoint? && JointNumbered(Polls(counter, killActive)[2].joint) == j
  {
    var ps := Polls(counter, killActive);
    if killActive {
      assert ps == [GetState];
    } else {
      assert ps[0] == GetState && ps[1].GetMotor? && |ps| == 3;
      assert ps[2] in ps;
    }
  }

  lemma PolledJointAsked(h: Host, d: Device, counter: nat, killActive: bool, r: Readings, j: Joint)
    ensures var f, g := h.JointOf(j), AbsorbAll(h, d, Polls(counter, killActive), r).JointOf(j);
      && SameAim(f, g)
      && if GetJoint(JointId(j)) in Polls(counter, killActive)
         then g.direction == ReportedDirection(r.jointDirection) && g.speed == r.jointSpeed
         else if d.Active() then g.direction == Stop && g.speed == 0
         else g.direction == f.direction && g.speed == f.speed
  {
    var g, ps := Absorb(h, d, GetState, r), Polls(counter, killActive);
    PollsInTurn(h, d, counter, killActive, r);
    JointPolledIff(counter, killActive, j);
    AbsorbJointAsked(h, d, GetState, r, j);
    if !killActive {
      AbsorbJointAsked(g, d, ps[1], r, j);
      AbsorbJointAsked(Absorb(g, d, ps[1], r), d, ps[2], r, j);
    }
  }

  lemma SyncJointPicture(w: World, r: Readings, j: Joint)
    requires Sound(w)
    ensures var f, u := w.host.JointOf(j), SyncedWorld(w, r);
      var g := u.host.JointOf(j);
      && KeptAt(w.host.requests, u.host.requests, ArmKey(j)) && SameAim(f, g)
      && if JointPolled(w, j) then g.direction == ReportedDirection(r.jointDirection) && g.speed == r.jointSpeed
         else if u.host.killActive then g.direction == Stop && g.speed == 0
         else g.direction == f.direction && g.speed == f.speed
  {
    SyncAbsorbs(w, r);
    PolledJointAsked(w.host, Delivered(w.device, w.Changes()), w.counter, w.host.killActive, r, j);
    SyncKeeps(w, r, ArmKey(j));
  }

  lemma ReportedJoint(a: Host, b: Host, j: Joint, h: JointHistory, s: Step, calibrating: bool, killReported: bool, polled: bool)
    requires JointAsAsked(a, j, h) && s.Sync? && KeptAt(a.requests, b.requests, ArmKey(j)) && SameAim(a.JointOf(j), b.JointOf(j))
    requires var f, g, r := a.JointOf(j), b.JointOf(j), s.readings;
      if polled then g.direction == ReportedDirection(r.jointDirection) && g.speed == r.jointSpeed
      else if killReported then g.direction == Stop && g.speed == 0
      else g.direction == f.direction && g.speed == f.speed
    ensures JointAsAsked(b, j, JointAsked(h, j, s, calibrating, killReported, polled))
  {
  }

  lemma SaysFields(j: Joint, f: JointFields, slack: Byte)
    ensures SaysAim(HolderFor(ArmKey(j), JointCommand(j, f), slack).wire, j,
                    Aim(f.direction, f.speed, f.programmedPosition, f.settingPosition))
  {
  }

  lemma RequestedJoint(g: Host, j: Joint, f: JointFields, slack: Byte, h: JointHistory)
    ensures JointAsAsked(WithJointRequest(g, j, f, slack), j,
                         Aimed(h, Aim(f.direction, f.speed, f.programmedPosition, f.settingPosition)))
  {
    SaysFields(j, f, slack);
    assert g.WithJoint(j, f).JointOf(j) == f;
  }

  lemma SetterJointAsked(g: Host, s: Step, j: Joint, h: JointHistory)
    requires SpeedsLegal(g) && JointAsAsked(g, j, h) && Writes(s, ArmKey(j))
    ensures JointAsAsked(HostStep(g, s), j, JointAsked(h, j, s, g.calibration.InProgress?, false, false))
  {
    if !g.calibration.InProgress? {
      var f := g.JointOf(j);
      match s
      case JointSpeed(_, speed, slack) => RequestedJoint(g, j, f.(speed := speed % 256), slack, h);
      case JointDirection(_, d, slack) => RequestedJoint(g, j, f.(direction := d, settingPosition := false), slack, h);
      case JointPosition(_, p, slack) => PositionedJoint(g, j, p, slack, h);
    }
  }

  lemma PositionedJoint(g: Host, j: Joint, p: nat, slack: Byte, h: JointHistory)
    requires JointAsAsked(g, j, h) && !g.calibration.InProgress?
    ensures JointAsAsked(AfterJointPosition(g, j, p, slack), j, JointAsked(h, j, JointPosition(j, p, slack), false, false, false))
  {
    var most: Byte := match j case Elbow => 105 case Shoulder => 79 case Gripper => 255;
    RequestedJoint(g, j, g.JointOf(j).(programmedPosition := if p > most then most else p, settingPosition := true), slack, h);
  }

  lemma OtherJointAsked(h: Host, s: Step, j: Joint)
    requires SpeedsLegal(h) && !s.Sync? && !Writes(s, ArmKey(j))
    ensures HostStep(h, s).JointOf(j) == h.JointOf(j)
  {
    match j { case Shoulder => case Elbow => case Gripper => }
  }

  lemma CallJointAsked(g: Host, s: Step, j: Joint, h: JointHistory)
    requires SpeedsLegal(g) && JointAsAsked(g, j, h) && !s.Sync?
    ensures JointAsAsked(HostStep(g, s), j, JointAsked(h, j, s, g.calibration.InProgress?, false, false))
  {
    if Writes(s, ArmKey(j)) {
      SetterJointAsked(g, s, j, h);
    } else {
      OtherJointAsked(g, s, j);
      HostStepKeeps(g, s, ArmKey(j));
    }
  }

  lemma NextJointAsked(w: World, s: Step, j: Joint, h: JointHistory)
    requires Sound(w) && Enabled(w, s) && JointAsAsked(w.host, j, h)
    ensures Next(w, s).Synced?
    ensures JointAsAsked(Next(w, s).world.host, j,
      JointAsked(h, j, s, w.host.calibration.InProgress?, Next(w, s).world.host.killActive, JointPolled(w, j)))
  {
    if s.Sync? {
      SyncExact(w, s.order, s.readings);
      SyncJointPicture(w, s.readings, j);
      ReportedJoint(w.host, SyncedWorld(w, s.readings).host, j, h, s, w.host.calibration.InProgress?,
                    SyncedWorld(w, s.readings).host.killActive, JointPolled(w, j));
    } else {
      CallJointAsked(w.host, s, j, h);
    }
  }

  /** Over every run: a joint's request says what the last call that was not ignored asked for, and for
      the rest what was asked for or reported before. */
  lemma {:induction false} JointRequestAsAsked(w: World, steps: seq<Step>, v: World, j: Joint, h: JointHistory)
    requires Sound(w) && IsRun(w, steps, v) && JointAsAsked(w.host, j, h)
    ensures JointAsAsked(v.host, j, JointHistoryOf(h, j, w, steps))
    decreases |steps|
  {
    if steps != [] {
      var u := Next(w, steps[0]).world;
      NextSound(w, steps[0]);
      NextJointAsked(w, steps[0], j, h);
      JointRequestAsAsked(u, steps[1..], v, j,
        JointAsked(h, j, steps[0], w.host.calibration.InProgress?, u.host.killActive, JointPolled(w, j)));
    }
  }

  lemma StartJointAsked(d: Device, slack: Byte, j: Joint)
    ensures var none := Aim(Stop, 0, 0, false); JointAsAsked(StartWorld(d, slack).host, j, JointHistory(none, false, none))
  {
    match j { case Shoulder => case Elbow => case Gripper => }
  }

  // ---- A calibration in progress ----

  lemma AbsorbInProgress(h: Host, d: Device, c: Command, r: Readings)
    requires IsGetter(c)
    ensures Absorb(h, d, c, r).calibration.InProgress?
       <==> h.calibration.InProgress? && !(c.GetState? && d.Active()) && !(c.GetGeneral? && r.calibrated)
  {
    match c
    case GetState =>
    case GetMotor(id) =>
    case GetJoint(id) => assert forall f :: h.WithJoint(JointNumbered(id), f).calibration == h.calibration;
    case GetGeneral =>
    case GetExpander =>
  }

  lemma PolledInProgress(h: Host, d: Device, counter: nat, killActive: bool, r: Readings)
    ensures AbsorbAll(h, d, Polls(counter, killActive), r).calibration.InProgress?
       <==> h.calibration.InProgress? && !d.Active() && !(!killActive && counter % 4 == 3 && r.calibrated)
  {
    var g, ps := Absorb(h, d, GetState, r), Polls(counter, killActive);
    PollsInTurn(h, d, counter, killActive, r);
    AbsorbInProgress(h, d, GetState, r);
    if !killActive {
      AbsorbInProgress(g, d, ps[1], r);
      AbsorbInProgress(Absorb(g, d, ps[1], r), d, ps[2], r);
    }
  }

  /** A synchronisation ends a calibration in progress exactly if it reports a kill, or its turn to ask
      for the arm as a whole finds it calibrated. */
  ghost predicate Ends(w: World, r: Readings)
    requires HostSound(w.host)
  {
    SyncedWorld(w, r).host.killActive || (!w.host.killActive && w.counter % 4 == 3 && r.calibrated)
  }

  lemma CalibrationEndsIff(w: World, r: Readings)
    requires HostSound(w.host) && w.host.calibration.InProgress?
    ensures !SyncedWorld(w, r).host.calibration.InProgress? <==> Ends(w, r)
  {
    SyncAbsorbs(w, r);
    PolledInProgress(w.host, Delivered(w.device, w.Changes()), w.counter, w.host.killActive, r);
  }

  /** calibrate() puts CALIBRATE into the map and shows the arm calibrating; while that is in progress a
      further call does nothing. */
  lemma CalibrateOnce(h: Host, slack: Byte)
    ensures var t := AfterCalibrate(h, slack);
      && t.calibration.InProgress?
      && (h.calibration.InProgress? ==> t == h)
      && (!h.calibration.InProgress? ==>
            && AddonKey in t.requests && t.requests[AddonKey].wire == [ARM_SET, ARM_CALIBRATE]
            && t.mode == Calibrating && forall k | k != AddonKey :: KeptAt(h.requests, t.requests, k))
  {
  }

  ghost predicate NeverEnds(w: World, steps: seq<Step>)
    requires Sound(w)
    decreases |steps|
  {
    steps == [] ||
    (Enabled(w, steps[0]) ==>
      && (steps[0].Sync? ==> !Ends(w, steps[0].readings))
      && (NextSound(w, steps[0]); NeverEnds(Next(w, steps[0]).world, steps[1..])))
  }

  lemma SetterInProgress(h: Host, s: Step, j: Joint)
    requires SpeedsLegal(h) && h.calibration.InProgress?
    ensures HostStep(h, s).calibration.InProgress? && KeptAt(h.requests, HostStep(h, s).requests, ArmKey(j))
  {
    match s
    case JointSpeed(_, _, _) =>
    case JointDirection(_, _, _) =>
    case JointPosition(_, _, _) =>
    case _ => HostStepKeeps(h, s, ArmKey(j));
  }

  lemma NextInProgress(w: World, s: Step, j: Joint)
    requires Sound(w) && Enabled(w, s) && w.host.calibration.InProgress? && (s.Sync? ==> !Ends(w, s.readings))
    ensures Next(w, s).Synced? && Next(w, s).world.host.calibration.InProgress?
    ensures KeptAt(w.host.requests, Next(w, s).world.host.requests, ArmKey(j))
  {
    if s.Sync? {
      SyncExact(w, s.order, s.readings);
      CalibrationEndsIff(w, s.readings);
      SyncKeeps(w, s.readings, ArmKey(j));
    } else {
      SetterInProgress(w.host, s, j);
    }
  }

  /** Over every run: from calibrate() on, until a kill or the end of the calibration is reported, it
      stays in progress and no call changes the request of a joint. */
  lemma {:induction false} CalibrationLocksJoints(w: World, steps: seq<Step>, v: World, j: Joint)
    requires Sound(w) && IsRun(w, steps, v) && w.host.calibration.InProgress? && NeverEnds(w, steps)
    ensures v.host.calibration.InProgress? && KeptAt(w.host.requests, v.host.requests, ArmKey(j))
    decreases |steps|
  {
    if steps != [] {
      NextSound(w, steps[0]);
      NextInProgress(w, steps[0], j);
      CalibrationLocksJoints(Next(w, steps[0]).world, steps[1..], v, j);
    }
  }

  // ---- Kill switch, lights and display ----

  /** `asked`: the kill switch as last asked for. `lit`: the lights last switched on. `shown`: the text the
      server believes on the display. `text`: the last one requested. */
  datatype PanelHistory = PanelHistory(asked: bool, lit: set<Light>, switched: bool, shown: seq<Byte>, written: bool, text: seq<Byte>)

  function PanelAsked(h: PanelHistory, s: Step, killReported: bool): PanelHistory {
    match s
    case KillSwitch(active, _) => h.(asked := active)
    case SwitchLight(l, on, _) => h.(lit := if on then h.lit + {l} else h.lit - {l}, switched := true)
    case LcdText(t, _) =>
      var cut := if |t| > 33 then t[..33] else t;
      if cut == h.shown then h else h.(shown := cut, written := true, text := cut)
    case Sync(_, _) => if killReported then h.(shown := []) else h
    case _ => h
  }

  ghost function PanelHistoryOf(h: PanelHistory, w: World, steps: seq<Step>): PanelHistory
    requires Sound(w)
    decreases |steps|
  {
    if steps == [] || !Enabled(w, steps[0]) then h
    else
      NextSound(w, steps[0]);
      var u := Next(w, steps[0]).world;
      PanelHistoryOf(PanelAsked(h, steps[0], u.host.killActive), u, steps[1..])
  }

  /** The output pins: left light, right light, camera. */
  predicate Lit(bits: bv8, lit: set<Light>) {
    && (bits & 0x04 != 0 <==> LeftLight in lit) && (bits & 0x08 != 0 <==> RightLight in lit)
    && (bits & 0x10 != 0 <==> Camera in lit)
  }

  predicate PanelAsAsked(g: Host, h: PanelHistory) {
    && KillSwitchKey in g.requests && g.requests[KillSwitchKey].wire == [SET_KILLSWITCH, if h.asked then 1 else 0]
    && Lit(g.expander, h.lit) && (ExpanderKey in g.requests <==> h.switched)
    && (h.switched ==> g.requests[ExpanderKey].wire == [EXPANDER_SET, ByteOf(g.expander)])
    && g.lcdText == h.shown && (LcdKey in g.requests <==> h.written)
    && (h.written ==> |h.text| <= 33 && g.requests[LcdKey].wire == [LCD_SET, |h.text|] + h.text)
  }

  lemma LightLit(bits: bv8, lit: set<Light>, l: Light, on: bool)
    requires Lit(bits, lit)
    ensures Lit(WithLight(bits, l, on), if on then lit + {l} else lit - {l})
  {
    match l
    case LeftLight =>
    case RightLight =>
    case Camera =>
  }

  lemma CallPanelAsked(g: Host, s: Step, h: PanelHistory)
    requires SpeedsLegal(g) && PanelAsAsked(g, h) && !s.Sync?
    ensures PanelAsAsked(HostStep(g, s), PanelAsked(h, s, false))
  {
    HostStepKeepsOthers(g, s);
    match s
    case SwitchLight(l, on, _) => LightLit(g.expander, h.lit, l, on);
    case _ =>
  }

  lemma WithJointKeepsPanel(g: Host, j: Joint, f: JointFields)
    ensures g.WithJoint(j, f).expander == g.expander && g.WithJoint(j, f).lcdText == g.lcdText
  {
    match j { case Shoulder => case Elbow => case Gripper => }
  }

  lemma HostStepKeepsPanel(g: Host, s: Step)
    requires SpeedsLegal(g)
    ensures !s.SwitchLight? ==> HostStep(g, s).expander == g.expander
    ensures !s.LcdText? ==> HostStep(g, s).lcdText == g.lcdText
  {
    if s.JointSpeed? || s.JointDirection? || s.JointPosition? {
      forall f ensures g.WithJoint(s.joint, f).expander == g.expander && g.WithJoint(s.joint, f).lcdText == g.lcdText {
        WithJointKeepsPanel(g, s.joint, f);
      }
    }
  }

  lemma HostStepKeepsOthers(g: Host, s: Step)
    requires SpeedsLegal(g)
    ensures !s.KillSwitch? ==> KeptAt(g.requests, HostStep(g, s).requests, KillSwitchKey)
    ensures !s.SwitchLight? ==> KeptAt(g.requests, HostStep(g, s).requests, ExpanderKey) && HostStep(g, s).expander == g.expander
    ensures !s.LcdText? ==> KeptAt(g.requests, HostStep(g, s).requests, LcdKey) && HostStep(g, s).lcdText == g.lcdText
  {
    HostStepKeepsPanel(g, s);
    if !s.KillSwitch? { HostStepKeeps(g, s, KillSwitchKey); }
    if !s.SwitchLight? { HostStepKeeps(g, s, ExpanderKey); }
    if !s.LcdText? { HostStepKeeps(g, s, LcdKey); }
  }

  lemma AbsorbPanel(h: Host, d: Device, c: Command, r: Readings)
    requires IsGetter(c) && !c.GetExpander?
    ensures Absorb(h, d, c, r).expander == h.expander
    ensures Absorb(h, d, c, r).lcdText == if c.GetState? && d.Active() then [] else h.lcdText
  {
    match c
    case GetState =>
    case GetMotor(id) =>
    case GetJoint(id) => assert forall f :: h.WithJoint(JointNumbered(id), f) == h.WithJoint(JointNumbered(id), f).(expander := h.expander, lcdText := h.lcdText);
    case GetGeneral =>
  }

  lemma PolledPanel(h: Host, d: Device, counter: nat, killActive: bool, r: Readings)
    ensures var g := AbsorbAll(h, d, Polls(counter, killActive), r);
      g.expander == h.expander && g.lcdText == if d.Active() then [] else h.lcdText
  {
    var g, ps := Absorb(h, d, GetState, r), Polls(counter, killActive);
    PollsInTurn(h, d, counter, killActive, r);
    AbsorbPanel(h, d, GetState, r);
    if !killActive {
      AbsorbPanel(g, d, ps[1], r);
      AbsorbPanel(Absorb(g, d, ps[1], r), d, ps[2], r);
    }
  }

  lemma SyncPanel(w: World, r: Readings)
    requires Sound(w)
    ensures var u := SyncedWorld(w, r).host;
      && u.expander == w.host.expander && u.lcdText == (if u.killActive then [] else w.host.lcdText)
      && KeptAt(w.host.requests, u.requests, KillSwitchKey) && KeptAt(w.host.requests, u.requests, ExpanderKey)
      && KeptAt(w.host.requests, u.requests, LcdKey)
  {
    SyncAbsorbs(w, r);
    PolledPanel(w.host, Delivered(w.device, w.Changes()), w.counter, w.host.killActive, r);
    SyncKeeps(w, r, KillSwitchKey);
    SyncKeeps(w, r, ExpanderKey);
    SyncKeeps(w, r, LcdKey);
  }

  lemma ReportedPanel(a: Host, b: Host, s: Step, h: PanelHistory, killReported: bool)
    requires PanelAsAsked(a, h) && s.Sync?
    requires b.expander == a.expander && b.lcdText == (if killReported then [] else a.lcdText)
    requires KeptAt(a.requests, b.requests, KillSwitchKey) && KeptAt(a.requests, b.requests, ExpanderKey)
    requires KeptAt(a.requests, b.requests, LcdKey)
    ensures PanelAsAsked(b, PanelAsked(h, s, killReported))
  {
  }

  lemma NextPanelAsked(w: World, s: Step, h: PanelHistory)
    requires Sound(w) && Enabled(w, s) && PanelAsAsked(w.host, h)
    ensures Next(w, s).Synced? && PanelAsAsked(Next(w, s).world.host, PanelAsked(h, s, Next(w, s).world.host.killActive))
  {
    if s.Sync? {
      SyncExact(w, s.order, s.readings);
      SyncPanel(w, s.readings);
      ReportedPanel(w.host, SyncedWorld(w, s.readings).host, s, h, SyncedWorld(w, s.readings).host.killActive);
    } else {
      CallPanelAsked(w.host, s, h);
    }
  }

  /** Over every run: the requests say the kill switch last asked for, all lights as last switched, and
      the last text that differed from the one on the display, cut at 33 characters. */
  lemma {:induction false} PanelRequestsAsAsked(w: World, steps: seq<Step>, v: World, h: PanelHistory)
    requires Sound(w) && IsRun(w, steps, v) && PanelAsAsked(w.host, h)
    ensures PanelAsAsked(v.host, PanelHistoryOf(h, w, steps))
    decreases |steps|
  {
    if steps != [] {
      var u := Next(w, steps[0]).world;
      NextSound(w, steps[0]);
      NextPanelAsked(w, steps[0], h);
      PanelRequestsAsAsked(u, steps[1..], v, PanelAsked(h, steps[0], u.host.killActive));
    }
  }

  lemma StartPanelAsked(d: Device, slack: Byte)
    ensures PanelAsAsked(StartWorld(d, slack).host, PanelHistory(true, {}, false, [], false, []))
  {
  }
}
