/**
 What the device's reports do to the server: a kill and a finished calibration take the arm's addon
 request out of the map, every device is asked in turn, and the cause of a kill is told.
 */
module Reports {
  import opened Protocol
  import opened DataHolders
  import opened HostInterface
  import opened BridgeFirmware
  import opened Synchronisation
  import opened Exchange
  import opened Runs
  import opened SafetyResults
  import opened ReleaseResults

  // ---- Reports as bytes ----

  predicate Halting(f: JointFields, before: JointFields) {
    && f.direction == Stop && f.speed == 0 && f.position == before.position
    && f.programmedPosition == before.programmedPosition && f.settingPosition == before.settingPosition
  }

  /** A state report with the kill switch active stops everything in the picture and takes exactly the
      arm's addon request out of the map, ... */
  lemma KillTaken(h: Host, data: seq<Byte>)
    requires |data| >= STATE_SIZE && data[8] == 1
    ensures var t := UpdateFields(h, OnInterface, GET_STATE, data).0;
      && t.killActive && t.killByHardware == (data[7] != 0)
      && AddonKey !in t.requests && (forall k | k != AddonKey :: KeptAt(h.requests, t.requests, k))
      && t.lcdText == [] && t.mode == Directional && !t.calibration.InProgress?
      && (!h.calibration.InProgress? ==> t.calibration == h.calibration)
      && (forall m :: t.MotorOf(m) == MotorFields(Stop, 0, 0)) && (forall j :: Halting(t.JointOf(j), h.JointOf(j)))
      && t.expander == h.expander
  {
  }

  /** ... any other only says that it is not active. */
  lemma NoKillTaken(h: Host, data: seq<Byte>)
    requires |data| >= STATE_SIZE && data[8] != 1
    ensures var t := UpdateFields(h, OnInterface, GET_STATE, data).0;
      !t.killActive && !t.killByHardware && t == h.(killActive := false, killByHardware := false, sensors := t.sensors)
  {
  }

  /** A report of the arm: a calibration in progress ends exactly if it is reported calibrated, and takes
      its request with it. */
  lemma GeneralTaken(h: Host, data: seq<Byte>)
    requires |data| >= STATE_SIZE
    ensures var t := UpdateFields(h, OnArm, ARM_GET_GENERAL, data).0;
      && (t.calibration.Done? <==> h.calibration.Done? || data[0] != 0)
      && (t.calibration.InProgress? <==> h.calibration.InProgress? && data[0] == 0)
      && (AddonKey in t.requests <==> AddonKey in h.requests && !(h.calibration.InProgress? && data[0] != 0))
      && (forall k | k != AddonKey || AddonKey in t.requests :: KeptAt(h.requests, t.requests, k))
      && (t.mode == Directional <==> data[1] == 0 || (data[1] > 2 && h.mode == Directional))
      && (t.mode == Positional <==> data[1] == 1 || (data[1] > 2 && h.mode == Positional))
  {
  }

  /** A report of a joint or motor goes to the one it names. */
  lemma JointTaken(h: Host, j: Joint, d: Direction, data: seq<Byte>)
    requires |data| >= STATE_SIZE && data[0] == JointId(j) && data[1] == DirectionId(d)
    ensures var t := UpdateFields(h, OnJoint(j), ARM_GET, data).0;
      && t.JointOf(j) == h.JointOf(j).(direction := d, speed := data[2], position := data[4])
      && (forall i | i != j :: t.JointOf(i) == h.JointOf(i) && UpdateFields(h, OnJoint(i), ARM_GET, data).1 == 0)
      && t.requests == h.requests
  {
  }

  lemma MotorTaken(h: Host, m: Motor, data: seq<Byte>)
    requires |data| >= STATE_SIZE && data[0] == MotorId(m)
    ensures var t := UpdateFields(h, OnMotor(m), MOTOR_GET, data).0;
      && t.MotorOf(m) == h.MotorOf(m).(power := data[2])
      && (forall n | n != m :: t.MotorOf(n) == h.MotorOf(n) && UpdateFields(h, OnMotor(n), MOTOR_GET, data).1 == 0)
      && t.requests == h.requests
  {
  }

  // ---- The arm's addon request ----

  /** Polled values leave the addon request in the map exactly if neither a kill nor the end of a
      calibration in progress was among them. */
  lemma {:induction false} AbsorbAllAddonIff(h: Host, d: Device, cs: seq<Command>, r: Readings)
    requires forall i | 0 <= i < |cs| :: IsGetter(cs[i])
    ensures AddonKey in AbsorbAll(h, d, cs, r).requests
       <==> && AddonKey in h.requests && !(GetState in cs && d.Active())
            && !(GetGeneral in cs && r.calibrated && h.calibration.InProgress?)
    decreases |cs|
  {
    if cs != [] {
      AbsorbAllAddonIff(Absorb(h, d, cs[0], r), d, cs[1..], r);
      assert forall c :: c in cs <==> c == cs[0] || c in cs[1..];
      AbsorbAddon(h, d, cs[0], r);
    }
  }

  lemma AbsorbAddon(h: Host, d: Device, c: Command, r: Readings)
    requires IsGetter(c)
    ensures var g := Absorb(h, d, c, r);
      && (AddonKey in g.requests
          <==> AddonKey in h.requests && !(c.GetState? && d.Active()) && !(c.GetGeneral? && r.calibrated && h.calibration.InProgress?))
      && (AddonKey in g.requests ==> g.calibration.InProgress? == (h.calibration.InProgress? && !(c.GetGeneral? && r.calibrated)))
  {
    match c
    case GetState =>
    case GetMotor(id) =>
    case GetJoint(id) => assert forall f :: h.WithJoint(JointNumbered(id), f).requests == h.requests;
    case GetGeneral =>
    case GetExpander =>
  }

  lemma GetStatePolled(counter: nat, killActive: bool)
    ensures GetState in Polls(counter, killActive)
  {
    assert Polls(counter, killActive)[0] == GetState;
  }

  lemma GeneralPolledIff(counter: nat, killActive: bool)
    ensures GetGeneral in Polls(counter, killActive) <==> !killActive && counter % 4 == 3
  {
    var ps := Polls(counter, killActive);
    if killActive {
      assert ps == [GetState];
    } else {
      assert ps[0] == GetState && ps[1].GetMotor? && |ps| == 3 && (ps[2].GetJoint? || ps[2].GetGeneral?);
      assert ps[2] in ps;
    }
  }

  lemma SyncAbsorbs(w: World, r: Readings)
    requires HostSound(w.host)
    ensures var d := Delivered(w.device, w.Changes());
      && SyncedWorld(w, r).host == AbsorbAll(w.host, d, Polls(w.counter, w.host.killActive), r)
      && SyncedWorld(w, r).host.killActive == d.Active()
  {
    SyncedHost(w, r);
  }

  lemma PolledAddonIff(h: Host, d: Device, counter: nat, killActive: bool, r: Readings)
    ensures AddonKey in AbsorbAll(h, d, Polls(counter, killActive), r).requests
       <==> AddonKey in h.requests && !d.Active() && !(!killActive && counter % 4 == 3 && r.calibrated && h.calibration.InProgress?)
  {
    GetStatePolled(counter, killActive);
    GeneralPolledIff(counter, killActive);
    AbsorbAllAddonIff(h, d, Polls(counter, killActive), r);
  }

  /** A synchronisation leaves it in the map exactly if it reports neither. */
  lemma AddonAfterSyncIff(w: World, r: Readings)
    requires HostSound(w.host)
    ensures AddonKey in SyncedWorld(w, r).host.requests
       <==> && AddonKey in w.host.requests && !SyncedWorld(w, r).host.killActive
            && !(!w.host.killActive && w.counter % 4 == 3 && r.calibrated && w.host.calibration.InProgress?)
  {
    SyncAbsorbs(w, r);
    PolledAddonIff(w.host, Delivered(w.device, w.Changes()), w.counter, w.host.killActive, r);
  }

  predicate OnlyAddon(requests: map<Key, Holder>, c: Command) {
    AddonKey in requests ==> requests[AddonKey].wire == Encode(c)
  }

  lemma NextOnlyAddon(w: World, s: Step, c: Command)
    requires Sound(w) && Enabled(w, s) && OnlyAddon(w.host.requests, c)
    requires !s.BrakeArm? || c == ArmBrake
    requires !s.Calibrate? || c == ArmCalibrate
    ensures Next(w, s).Synced? && OnlyAddon(Next(w, s).world.host.requests, c)
  {
    NextSound(w, s);
    if s.Sync? {
      SyncExact(w, s.order, s.readings);
      SyncedHost(w, s.readings);
    } else if !Writes(s, AddonKey) {
      HostStepKeeps(w.host, s, AddonKey);
    }
  }

  lemma {:induction false} RunOnlyAddon(w: World, steps: seq<Step>, v: World, c: Command)
    requires Sound(w) && IsRun(w, steps, v) && OnlyAddon(w.host.requests, c)
    requires forall i | 0 <= i < |steps| :: (steps[i].BrakeArm? ==> c == ArmBrake) && (steps[i].Calibrate? ==> c == ArmCalibrate)
    ensures OnlyAddon(v.host.requests, c)
    decreases |steps|
  {
    if steps != [] {
      NextSound(w, steps[0]);
      NextOnlyAddon(w, steps[0], c);
      RunOnlyAddon(Next(w, steps[0]).world, steps[1..], v, c);
    }
  }

  lemma OnlyAddonIs(requests: map<Key, Holder>, c: Command)
    requires OnlyAddon(requests, c) && Fits(AddonKey, c) && AddonKey in requests && WellFormed(AddonKey, requests[AddonKey])
    ensures CommandOf(AddonKey, requests[AddonKey]) == c
  {
    EncodeInjective(AddonKey, c, CommandOf(AddonKey, requests[AddonKey]));
  }

  lemma AskedFor(u: World, steps: seq<Step>, v: World, c: Command)
    requires Sound(u) && AddonKey !in u.host.requests && IsRun(u, steps, v) && (c == ArmBrake || c == ArmCalibrate)
    requires Sound(v) && AddonKey in v.host.requests && CommandOf(AddonKey, v.host.requests[AddonKey]) == c
    ensures exists i :: 0 <= i < |steps| && if c == ArmBrake then steps[i].BrakeArm? else steps[i].Calibrate?
  {
    var other := if c == ArmBrake then ArmCalibrate else ArmBrake;
    if forall i | 0 <= i < |steps| :: !(if c == ArmBrake then steps[i].BrakeArm? else steps[i].Calibrate?) {
      RunOnlyAddon(u, steps, v, other);
      OnlyAddonIs(v.host.requests, other);
    }
  }

  lemma SentIfAsked(u: World, steps: seq<Step>, v: World)
    requires Sound(u) && AddonKey !in u.host.requests && IsRun(u, steps, v) && AddonKey in v.Changes()
    ensures Sound(v)
    ensures CommandOf(AddonKey, v.Changes()[AddonKey]) == ArmBrake ==> exists i :: 0 <= i < |steps| && steps[i].BrakeArm?
    ensures CommandOf(AddonKey, v.Changes()[AddonKey]) == ArmCalibrate ==> exists i :: 0 <= i < |steps| && steps[i].Calibrate?
  {
    RunSound(u, steps, v);
    assert v.Changes()[AddonKey] == v.host.requests[AddonKey];
    AskedFor(u, steps, v, CommandOf(AddonKey, v.host.requests[AddonKey]));
  }

  /** Over every run from a report of a kill on: a message carries a BRAKE only if brake() was called
      since, and a CALIBRATE only if calibrate() was. */
  lemma AddonOnlyIfAsked(w: World, r: Readings, steps: seq<Step>, v: World)
    requires Sound(w) && SyncedWorld(w, r).host.killActive && IsRun(SyncedWorld(w, r), steps, v)
    requires AddonKey in v.Changes()
    ensures Sound(v)
    ensures CommandOf(AddonKey, v.Changes()[AddonKey]) == ArmBrake ==> exists i :: 0 <= i < |steps| && steps[i].BrakeArm?
    ensures CommandOf(AddonKey, v.Changes()[AddonKey]) == ArmCalibrate ==> exists i :: 0 <= i < |steps| && steps[i].Calibrate?
  {
    var u := SyncedWorld(w, r);
    SyncSound(w, r);
    AddonAfterSyncIff(w, r);
    SentIfAsked(u, steps, v);
  }

  // ---- Every device is asked in turn ----

  /** One of the `n` polls from `counter` on asks for it. */
  ghost predicate PolledWithin(c: Command, counter: nat, n: nat) {
    exists k | counter <= k < counter + n :: c in Polls(k, false)
  }

  /** Of any two polls in a row one is for each motor, of any four one for each joint and one for the arm
      as a whole; the state is asked for every time. */
  lemma EveryDevicePolled(counter: nat, m: Motor, j: Joint)
    ensures PolledWithin(GetState, counter, 1) && PolledWithin(GetMotor(MotorId(m)), counter, 2)
    ensures PolledWithin(GetJoint(JointId(j)), counter, 4) && PolledWithin(GetGeneral, counter, 4)
  {
    GetStatePolled(counter, false);
    EitherMotorPolled(counter, m);
    JointPolled(counter, j);
    GeneralPolled(counter);
  }

  lemma EitherMotorPolled(counter: nat, m: Motor)
    ensures PolledWithin(GetMotor(MotorId(m)), counter, 2)
  {
    var k := if (counter % 2 == 1) == m.Left? then counter else counter + 1;
    assert (k % 2 == 1) == m.Left?;
    MotorPolled(k, m);
  }

  lemma GeneralPolled(counter: nat)
    ensures PolledWithin(GetGeneral, counter, 4)
  {
    var k := counter + (3 - counter) % 4;
    GeneralPolledIff(k, false);
  }

  lemma JointPolled(counter: nat, j: Joint)
    ensures PolledWithin(GetJoint(JointId(j)), counter, 4)
  {
    var turn := match j case Elbow => 0 case Gripper => 1 case Shoulder => 2;
    var k := counter + (turn - counter) % 4;
    assert k % 4 == turn;
    assert Polls(k, false)[2] == GetJoint(JointId(j));
  }

  lemma MotorPolled(counter: nat, m: Motor)
    ensures GetMotor(MotorId(m)) in Polls(counter, false) <==> (counter % 2 == 1) == m.Left?
  {
    assert Polls(counter, false)[1] == GetMotor(MotorId(if counter % 2 == 1 then Left else Right));
    assert forall c | c in Polls(counter, false) && c.GetMotor? :: c == Polls(counter, false)[1];
  }

  function Syncs(steps: seq<Step>): nat {
    if steps == [] then 0 else (if steps[0].Sync? then 1 else 0) + Syncs(steps[1..])
  }

  /** A run in which every synchronisation finds the line believed up and reports it up and the arm
      calibrated, and nobody calibrates anew. */
  ghost predicate ReportsCalibrated(w: World, steps: seq<Step>)
    decreases |steps|
  {
    steps == [] ||
    (Enabled(w, steps[0]) && Next(w, steps[0]).Synced? ==>
      && !steps[0].Calibrate?
      && (steps[0].Sync? ==> steps[0].readings.calibrated && !w.host.killActive && !Next(w, steps[0]).world.host.killActive)
      && ReportsCalibrated(Next(w, steps[0]).world, steps[1..]))
  }

  /** Not noticed so far: no poll of the arm as a whole since `first`. */
  ghost predicate Unnoticed(w: World, first: nat) {
    w.host.calibration.Done? || (first <= w.counter && forall c | first <= c < w.counter :: c % 4 != 3)
  }

  lemma AbsorbDone(h: Host, d: Device, c: Command, r: Readings)
    requires IsGetter(c) && !(c.GetState? && d.Active())
    ensures Absorb(h, d, c, r).calibration.Done? <==> h.calibration.Done? || (c.GetGeneral? && r.calibrated)
  {
    match c
    case GetState =>
    case GetMotor(id) =>
    case GetJoint(id) => assert forall f :: h.WithJoint(JointNumbered(id), f).calibration == h.calibration;
    case GetGeneral =>
    case GetExpander =>
  }

  lemma {:induction false} AbsorbAllDone(h: Host, d: Device, cs: seq<Command>, r: Readings)
    requires !d.Active() && forall i | 0 <= i < |cs| :: IsGetter(cs[i])
    ensures AbsorbAll(h, d, cs, r).calibration.Done? <==> h.calibration.Done? || (GetGeneral in cs && r.calibrated)
    decreases |cs|
  {
    if cs != [] {
      AbsorbDone(h, d, cs[0], r);
      AbsorbAllDone(Absorb(h, d, cs[0], r), d, cs[1..], r);
      assert forall c :: c in cs <==> c == cs[0] || c in cs[1..];
    }
  }

  lemma SyncUnnoticed(w: World, r: Readings, first: nat)
    requires HostSound(w.host) && Unnoticed(w, first) && r.calibrated
    requires !w.host.killActive && !SyncedWorld(w, r).host.killActive
    ensures Unnoticed(SyncedWorld(w, r), first) && SyncedWorld(w, r).counter == w.counter + 1
  {
    SyncAbsorbs(w, r);
    GeneralPolledIff(w.counter, false);
    AbsorbAllDone(w.host, Delivered(w.device, w.Changes()), Polls(w.counter, false), r);
  }

  lemma SetterKeepsDone(h: Host, s: Step)
    requires SpeedsLegal(h) && !s.Calibrate?
    ensures HostStep(h, s).calibration == h.calibration
  {
  }

  lemma {:induction false} RunUnnoticed(w: World, steps: seq<Step>, v: World, first: nat)
    requires Sound(w) && IsRun(w, steps, v) && ReportsCalibrated(w, steps) && Unnoticed(w, first)
    ensures Unnoticed(v, first) && v.counter == w.counter + Syncs(steps)
    decreases |steps|
  {
    if steps != [] {
      var s, u := steps[0], Next(w, steps[0]).world;
      NextSound(w, s);
      if s.Sync? {
        SyncExact(w, s.order, s.readings);
        SyncUnnoticed(w, s.readings, first);
      } else {
        SetterKeepsDone(w.host, s);
      }
      RunUnnoticed(u, steps[1..], v, first);
    }
  }

  /** A finished calibration is noticed by the fourth synchronisation at the latest. */
  lemma CalibrationNoticed(w: World, steps: seq<Step>, v: World)
    requires Sound(w) && IsRun(w, steps, v) && ReportsCalibrated(w, steps) && Syncs(steps) >= 4
    ensures v.host.calibration.Done?
  {
    RunUnnoticed(w, steps, v, w.counter);
    var c := w.counter + (3 - w.counter) % 4;
    assert w.counter <= c < v.counter && c % 4 == 3;
  }

  // ---- What killed the robot ----

  datatype Cause = NoCause | ByCommand | ByButton

  /** The message asks an active line to come up. */
  ghost predicate AsksRelease(w: World)
    requires Sound(w)
  {
    KillSwitchKey in w.Changes() && KillRequest(w) == KillSwitchSet(false)
  }

  /** What holds the line down, from what happened to it: the first to pull it down, or a button that
      outlasts a request to release it. */
  ghost function CauseAfter(c: Cause, w: World, s: Step, after: Device): Cause
    requires Sound(w)
  {
    if !after.Active() then NoCause
    else if !w.device.Active() then if s.Press? then ByButton else ByCommand
    else if s.Sync? && AsksRelease(w) then ByButton
    else c
  }

  ghost function CauseOf(c: Cause, w: World, steps: seq<Step>): Cause
    requires Sound(w)
    decreases |steps|
  {
    if steps == [] || !Enabled(w, steps[0]) then c
    else
      NextSound(w, steps[0]);
      CauseOf(CauseAfter(c, w, steps[0], Next(w, steps[0]).world.device), Next(w, steps[0]).world, steps[1..])
  }

  ghost predicate FlagsTell(d: Device, c: Cause) {
    && (d.Active() <==> c != NoCause)
    && (d.bySoftware <==> c == ByCommand)
    && (d.byHardware ==> c == ByButton)
    && (d.bySoftware || d.byHardware ==> d.driven)
  }

  lemma DeviceStepTells(c: Cause, w: World, s: Step)
    requires Sound(w) && FlagsTell(w.device, c) && !s.Sync?
    ensures var d := DeviceStep(w.device, s); FlagsTell(d, CauseAfter(c, w, s, d))
    ensures s.PollHardware? ==> (DeviceStep(w.device, s).byHardware <==> c == ByButton)
  {
  }

  lemma ActivatedTells(d: Device, c: Cause)
    requires FlagsTell(d, c)
    ensures FlagsTell(Exec(d, KillSwitchSet(true)), if d.Active() then c else ByCommand)
  {
  }

  lemma ReleasedTells(d: Device, c: Cause)
    requires FlagsTell(d, c)
    ensures FlagsTell(Exec(d, KillSwitchSet(false)), if d.Active() && d.pressed then ByButton else NoCause)
  {
  }

  lemma SameLineTells(d: Device, e: Device, c: Cause)
    requires FlagsTell(d, c) && e == d.(regs := e.regs, arm := e.arm)
    ensures FlagsTell(e, c)
  {
  }

  lemma DeliveredTells(c: Cause, w: World, d: Device)
    requires Sound(w) && FlagsTell(w.device, c) && d == Delivered(w.device, w.Changes())
    ensures FlagsTell(d, if !d.Active() then NoCause else if !w.device.Active() then ByCommand
                         else if AsksRelease(w) then ByButton else c)
  {
    var e := KillSwitchApplied(w.device, w.Changes());
    assert d == e.(regs := d.regs, arm := d.arm);
    if KillSwitchKey in w.Changes() {
      assert w.Changes()[KillSwitchKey] == w.host.requests[KillSwitchKey];
      if KillRequest(w) == KillSwitchSet(true) {
        ActivatedTells(w.device, c);
        SameLineTells(e, d, if w.device.Active() then c else ByCommand);
      } else {
        assert KillRequest(w) == KillSwitchSet(false);
        ReleasedTells(w.device, c);
        SameLineTells(e, d, if w.device.Active() && w.device.pressed then ByButton else NoCause);
      }
    } else {
      SameLineTells(e, d, c);
    }
  }

  lemma SyncTells(c: Cause, w: World, r: Readings)
    requires Sound(w) && FlagsTell(w.device, c)
    ensures var d := SyncedWorld(w, r).device;
      FlagsTell(d, if !d.Active() then NoCause else if !w.device.Active() then ByCommand else if AsksRelease(w) then ByButton else c)
  {
    DeliveredTells(c, w, Delivered(w.device, w.Changes()));
  }

  lemma NextTells(c: Cause, w: World, s: Step)
    requires Sound(w) && FlagsTell(w.device, c) && Enabled(w, s)
    ensures Next(w, s).Synced?
    ensures FlagsTell(Next(w, s).world.device, CauseAfter(c, w, s, Next(w, s).world.device))
  {
    NextSound(w, s);
    if s.Sync? {
      SyncExact(w, s.order, s.readings);
      SyncTells(c, w, s.readings);
    } else {
      DeviceStepTells(c, w, s);
    }
  }

  /** Over every run: the flag for software says exactly whether a command took the line down, and the
      flag for hardware never blames a button for it; once the main loop has looked at the line, it says
      exactly whether a button did. */
  lemma {:induction false} CauseTold(c: Cause, w: World, steps: seq<Step>, v: World)
    requires Sound(w) && FlagsTell(w.device, c) && IsRun(w, steps, v)
    ensures FlagsTell(v.device, CauseOf(c, w, steps))
    ensures DeviceStep(v.device, PollHardware).byHardware <==> CauseOf(c, w, steps) == ByButton
    decreases |steps|
  {
    if steps != [] {
      NextSound(w, steps[0]);
      NextTells(c, w, steps[0]);
      CauseTold(CauseAfter(c, w, steps[0], Next(w, steps[0]).world.device), Next(w, steps[0]).world, steps[1..], v);
    }
  }

  lemma PolledCause(h: Host, d: Device, counter: nat, killActive: bool, r: Readings)
    ensures AbsorbAll(h, d, Polls(counter, killActive), r).killByHardware == (d.Active() && d.byHardware)
  {
    GetStatePolled(counter, killActive);
    AbsorbAllCause(h, d, Polls(counter, killActive), r);
  }

  /** The server then shows the flag of the bridge. */
  lemma CauseShown(w: World, r: Readings)
    requires HostSound(w.host)
    ensures SyncedWorld(w, r).host.killActive == SyncedWorld(w, r).device.Active()
    ensures SyncedWorld(w, r).host.killByHardware == (SyncedWorld(w, r).device.Active() && SyncedWorld(w, r).device.byHardware)
  {
    SyncAbsorbs(w, r);
    PolledCause(w.host, Delivered(w.device, w.Changes()), w.counter, w.host.killActive, r);
  }

  lemma AbsorbCause(h: Host, d: Device, c: Command, r: Readings)
    requires IsGetter(c)
    ensures Absorb(h, d, c, r).killByHardware == if c.GetState? then d.Active() && d.byHardware else h.killByHardware
  {
    match c
    case GetState =>
    case GetMotor(id) =>
    case GetJoint(id) => assert forall f :: h.WithJoint(JointNumbered(id), f).killByHardware == h.killByHardware;
    case GetGeneral =>
    case GetExpander =>
  }

  lemma {:induction false} AbsorbAllCause(h: Host, d: Device, cs: seq<Command>, r: Readings)
    requires forall i | 0 <= i < |cs| :: IsGetter(cs[i])
    ensures AbsorbAll(h, d, cs, r).killByHardware == if GetState in cs then d.Active() && d.byHardware else h.killByHardware
    decreases |cs|
  {
    if cs != [] {
      AbsorbCause(h, d, cs[0], r);
      AbsorbAllCause(Absorb(h, d, cs[0], r), d, cs[1..], r);
      assert forall c :: c in cs <==> c == cs[0] || c in cs[1..];
    }
  }

  /** What the last report said of a button, forgotten when the server itself asks for a kill. */
  ghost function Blamed(b: bool, w: World, steps: seq<Step>): bool
    requires Sound(w)
    decreases |steps|
  {
    if steps == [] || !Enabled(w, steps[0]) then b
    else
      NextSound(w, steps[0]);
      var d := Next(w, steps[0]).world.device;
      Blamed(if steps[0].Sync? then d.Active() && d.byHardware else b && !(steps[0].KillSwitch? && steps[0].active),
             Next(w, steps[0]).world, steps[1..])
  }

  lemma SetterBlames(h: Host, s: Step)
    requires SpeedsLegal(h)
    ensures HostStep(h, s).killByHardware == (h.killByHardware && !(s.KillSwitch? && s.active))
  {
    match s
    case JointSpeed(j, _, _) => assert forall f :: h.WithJoint(j, f).killByHardware == h.killByHardware;
    case JointDirection(j, _, _) => assert forall f :: h.WithJoint(j, f).killByHardware == h.killByHardware;
    case JointPosition(j, _, _) => assert forall f :: h.WithJoint(j, f).killByHardware == h.killByHardware;
    case _ =>
  }

  /** Over every run the server blames a button exactly if the last report did and it has not asked for a
      kill since. */
  lemma {:induction false} BlameIsLastReport(w: World, steps: seq<Step>, v: World)
    requires Sound(w) && IsRun(w, steps, v)
    ensures v.host.killByHardware == Blamed(w.host.killByHardware, w, steps)
    decreases |steps|
  {
    if steps != [] {
      var s := steps[0];
      NextSound(w, s);
      if s.Sync? {
        SyncExact(w, s.order, s.readings);
        CauseShown(w, s.readings);
      } else {
        SetterBlames(w.host, s);
      }
      BlameIsLastReport(Next(w, s).world, steps[1..], v);
    }
  }
}
