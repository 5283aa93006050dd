/**
 Whole runs of the command pipeline: setters, synchronisations, kill-switch presses.
 */
module Runs {
  import opened Protocol
  import opened DataHolders
  import opened HostInterface
  import opened BridgeFirmware
  import opened Synchronisation
  import opened Exchange

  // ---- Invariants ----

  ghost predicate HostSound(h: Host) {
    && AllWellFormed(h.requests) && SpeedsLegal(h)
    && KillSwitchKey in h.requests
    && (CommandOf(KillSwitchKey, h.requests[KillSwitchKey]) == KillSwitchSet(true) ==> h.killActive)
  }

  ghost predicate DeviceSound(d: Device) {
    && (d.Active() ==> d.arm == UNTOLD && forall k | k in d.regs :: !Dependent(k))
    && (KillCommanded(d) ==> d.driven)
  }

  /** The last kill-switch command the bridge executed was an activation. */
  predicate KillCommanded(d: Device) {
    KillSwitchKey in d.regs && d.regs[KillSwitchKey] == KillSwitchSet(true)
  }

  /** The register behind a remembered request holds that request. */
  ghost predicate InStep(previous: map<Key, Holder>, d: Device, k: Key)
    requires k in previous && WellFormed(k, previous[k])
  {
    k in d.regs && d.regs[k] == CommandOf(k, previous[k])
  }

  /** Holds in every run. */
  ghost predicate Sound(w: World) {
    && HostSound(w.host) && AllWellFormed(w.previous) && DeviceSound(w.device)
    && (forall k | k in w.previous && !Dependent(k) :: InStep(w.previous, w.device, k))
    && (KillCommanded(w.device) ==> w.host.killActive)
    && (!w.host.killActive ==> KillSwitchKey in w.previous)
  }

  /** The dependent registers too are what the server remembers, as long as the line is up. */
  ghost predicate Coherent(w: World)
    requires Sound(w)
  {
    !w.device.Active() ==> forall k | k in w.previous && Dependent(k) :: InStep(w.previous, w.device, k)
  }

  /** The server believes the line is up, but a button took it down and came up again, and the
      request INACTIVE, made again, differs from the remembered one in its slack byte. */
  ghost predicate StaleRelease(w: World)
    requires Sound(w)
  {
    && !w.host.killActive && w.device.Active() && !w.device.pressed
    && w.host.requests[KillSwitchKey].slack != w.previous[KillSwitchKey].slack
  }

  // ---- Steps ----

  datatype Step =
    | LcdText(text: seq<Byte>, slack: Byte)
    | KillSwitch(active: bool, slack: Byte)
    | MotorSpeed(motor: Motor, speed: nat, slack: Byte)
    | MotorDirection(motor: Motor, direction: Direction, slack: Byte)
    | JointSpeed(joint: Joint, speed: nat, slack: Byte)
    | JointDirection(joint: Joint, direction: Direction, slack: Byte)
    | JointPosition(joint: Joint, position: nat, slack: Byte)
    | BrakeArm(slack: Byte)
    | Calibrate(slack: Byte)
    | SwitchLight(light: Light, on: bool, slack: Byte)
    | Sync(order: seq<Key>, readings: Readings)
    | Press
    | Unpress
    | PollHardware
    | HostSevered

  /** A queue order must be one the queue may choose. */
  ghost predicate Enabled(w: World, s: Step) {
    SpeedsLegal(w.host) && (s.Sync? ==> IsMerge(w.Changes(), s.order))
  }

  /** A button let go before the main loop has latched the line it pulled. */
  predicate ShortPress(d: Device, s: Step) { s.Unpress? && d.pressed && !d.driven }

  function HostStep(h: Host, s: Step): Host
    requires h.left.programmedSpeed <= MOTOR_MAX_SPEED && h.right.programmedSpeed <= MOTOR_MAX_SPEED
  {
    match s
    case LcdText(text, slack) => AfterLcdText(h, text, slack)
    case KillSwitch(active, slack) => AfterKillSwitch(h, active, slack)
    case MotorSpeed(m, speed, slack) => AfterMotorSpeed(h, m, speed, slack)
    case MotorDirection(m, d, slack) => AfterMotorDirection(h, m, d, slack)
    case JointSpeed(j, speed, slack) => AfterJointSpeed(h, j, speed, slack)
    case JointDirection(j, d, slack) => AfterJointDirection(h, j, d, slack)
    case JointPosition(j, p, slack) => AfterJointPosition(h, j, p, slack)
    case BrakeArm(slack) => AfterArmBrake(h, slack)
    case Calibrate(slack) => AfterCalibrate(h, slack)
    case SwitchLight(l, on, slack) => AfterLight(h, l, on, slack)
    case _ => h
  }

  function DeviceStep(d: Device, s: Step): Device {
    match s
    case Press => Resetting(d.(pressed := true))
    case Unpress => d.(pressed := false)
    case PollHardware => HardwareChecked(d)
    case HostSevered => Activated(d)
    case _ => d
  }

  ghost function Next(w: World, s: Step): SyncResult
    requires Enabled(w, s)
  {
    if s.Sync? then AfterSync(w, s.order, s.readings)
    else Synced(w.(host := HostStep(w.host, s), device := DeviceStep(w.device, s)))
  }

  /** The server starts against a bridge in any state its firmware can be in. */
  function StartWorld(d: Device, slack: Byte): World { World(StartHost(slack), map[], 0, d) }

  ghost predicate IsRun(w: World, steps: seq<Step>, v: World)
    decreases |steps|
  {
    if steps == [] then v == w
    else Enabled(w, steps[0]) && Next(w, steps[0]).Synced? && IsRun(Next(w, steps[0]).world, steps[1..], v)
  }

  /** One step, without an error. */
  ghost predicate StepsTo(w: World, s: Step, v: World) {
    Enabled(w, s) && Next(w, s) == Synced(v)
  }

  /** The line up, and believed up by the server. */
  ghost predicate Up(w: World) {
    Sound(w) && !w.host.killActive && !w.device.Active()
  }

  // ---- Soundness ----

  lemma StartSound(d: Device, slack: Byte)
    requires DeviceSound(d)
    ensures Sound(StartWorld(d, slack)) && Coherent(StartWorld(d, slack))
  {
    assert Fits(KillSwitchKey, KillSwitchSet(true));
  }

  lemma InsertSound(h: Host, k: Key, c: Command, slack: Byte)
    requires AllWellFormed(h.requests) && Fits(k, c)
    ensures AllWellFormed(h.Inserting(k, HolderFor(k, c, slack)).requests)
    ensures CommandOf(k, HolderFor(k, c, slack)) == c
  {
    assert WellFormed(k, HolderFor(k, c, slack));
    EncodeInjective(k, c, CommandOf(k, HolderFor(k, c, slack)));
  }

  lemma EncodeInjective(k: Key, a: Command, b: Command)
    requires Fits(k, a) && Fits(k, b) && Encode(a) == Encode(b)
    ensures a == b
  {
    var x, y := Encode(a), Encode(b);
    assert |x| == |y| && forall i | 0 <= i < |x| :: x[i] == y[i];
    if k.LcdKey? {
      assert a.text == x[2..] && b.text == y[2..];
    }
  }

  lemma RequestSound(h: Host, g: Host, k: Key, c: Command, slack: Byte)
    requires HostSound(h) && Fits(k, c) && k != KillSwitchKey
    requires g.requests == h.requests[k := HolderFor(k, c, slack)]
    requires g.killActive == h.killActive && SpeedsLegal(g)
    ensures HostSound(g)
  {
    InsertSound(h, k, c, slack);
  }

  lemma KillSwitchSound(h: Host, active: bool, slack: Byte)
    requires HostSound(h)
    ensures HostSound(AfterKillSwitch(h, active, slack))
  {
    InsertSound(h, KillSwitchKey, KillSwitchSet(active), slack);
  }

  lemma MotorStepSound(h: Host, m: Motor, f: MotorFields, slack: Byte)
    requires HostSound(h) && f.programmedSpeed <= MOTOR_MAX_SPEED
    ensures HostSound(WithMotorRequest(h, m, f, slack)) && WithMotorRequest(h, m, f, slack).killActive == h.killActive
  {
    RequestSound(h, WithMotorRequest(h, m, f, slack), MotorKey(m), MotorCommand(m, f), slack);
  }

  lemma JointStepSound(h: Host, j: Joint, f: JointFields, slack: Byte)
    requires HostSound(h)
    ensures HostSound(WithJointRequest(h, j, f, slack)) && WithJointRequest(h, j, f, slack).killActive == h.killActive
  {
    RequestSound(h, WithJointRequest(h, j, f, slack), ArmKey(j), JointCommand(j, f), slack);
  }

  lemma ArmStepSound(h: Host, s: Step)
    requires HostSound(h) && (s.JointSpeed? || s.JointDirection? || s.JointPosition?)
    ensures HostSound(HostStep(h, s)) && HostStep(h, s).killActive == h.killActive
  {
    var f := h.JointOf(s.joint);
    match s
    case JointSpeed(j, speed, slack) => JointStepSound(h, j, f.(speed := speed % 256), slack);
    case JointDirection(j, d, slack) => JointStepSound(h, j, f.(direction := d, settingPosition := false), slack);
    case JointPosition(j, p, slack) =>
      JointStepSound(h, j, f.(programmedPosition := if p <= MaxPosition(j) then p else MaxPosition(j), settingPosition := true), slack);
  }

  lemma HostStepSound(h: Host, s: Step)
    requires HostSound(h)
    ensures HostSound(HostStep(h, s))
    ensures HostStep(h, s).killActive == (h.killActive || (s.KillSwitch? && s.active))
  {
    match s
    case LcdText(text, slack) =>
      if Truncated(text) != h.lcdText {
        RequestSound(h, HostStep(h, s), LcdKey, LcdSet(Truncated(text)), slack);
      }
    case KillSwitch(active, slack) => KillSwitchSound(h, active, slack);
    case MotorSpeed(m, speed, slack) =>
      MotorStepSound(h, m, h.MotorOf(m).(programmedSpeed := if speed <= MOTOR_MAX_SPEED then speed else MOTOR_MAX_SPEED), slack);
    case MotorDirection(m, d, slack) => MotorStepSound(h, m, h.MotorOf(m).(direction := d), slack);
    case BrakeArm(slack) => RequestSound(h, HostStep(h, s), AddonKey, ArmBrake, slack);
    case Calibrate(slack) =>
      if !h.calibration.InProgress? {
        RequestSound(h, HostStep(h, s), AddonKey, ArmCalibrate, slack);
      }
    case SwitchLight(l, on, slack) =>
      RequestSound(h, HostStep(h, s), ExpanderKey, ExpanderSet(ByteOf(WithLight(h.expander, l, on))), slack);
    case _ =>
      if s.JointSpeed? || s.JointDirection? || s.JointPosition? {
        ArmStepSound(h, s);
      }
  }

  predicate SameAt(a: Device, b: Device, k: Key) {
    (k in a.regs <==> k in b.regs) && (k in a.regs ==> a.regs[k] == b.regs[k])
  }

  lemma DeviceStepSound(d: Device, s: Step)
    requires DeviceSound(d)
    ensures DeviceSound(DeviceStep(d, s))
    ensures d.Active() && !DeviceStep(d, s).Active() <==> ShortPress(d, s)
    ensures forall k | !Dependent(k) :: SameAt(d, DeviceStep(d, s), k)
    ensures !DeviceStep(d, s).Active() ==> DeviceStep(d, s).regs == d.regs && DeviceStep(d, s).arm == d.arm
  {
  }

  /** Polled values never touch a request, except that a finished calibration or a reported kill
      switch takes the arm's addon request out. */
  ghost predicate OnlyAddonDropped(before: map<Key, Holder>, after: map<Key, Holder>) {
    after == before || after == before - {AddonKey}
  }

  lemma AbsorbKeeps(h: Host, d: Device, c: Command, r: Readings)
    requires IsGetter(c) && SpeedsLegal(h)
    ensures SpeedsLegal(Absorb(h, d, c, r)) && OnlyAddonDropped(h.requests, Absorb(h, d, c, r).requests)
    ensures Absorb(h, d, c, r).killActive == if c.GetState? then d.Active() else h.killActive
    ensures c.GetState? && d.Active() ==> AddonKey !in Absorb(h, d, c, r).requests
  {
  }

  lemma {:induction false} AbsorbAllKeeps(h: Host, d: Device, cs: seq<Command>, r: Readings)
    requires SpeedsLegal(h) && forall i | 0 <= i < |cs| :: IsGetter(cs[i])
    ensures SpeedsLegal(AbsorbAll(h, d, cs, r)) && OnlyAddonDropped(h.requests, AbsorbAll(h, d, cs, r).requests)
    ensures AbsorbAll(h, d, cs, r).killActive == if GetState in cs then d.Active() else h.killActive
    ensures GetState in cs && d.Active() ==> AddonKey !in AbsorbAll(h, d, cs, r).requests
    decreases |cs|
  {
    if cs != [] {
      var g := Absorb(h, d, cs[0], r);
      AbsorbKeeps(h, d, cs[0], r);
      AbsorbAllKeeps(g, d, cs[1..], r);
      assert cs == [cs[0]] + cs[1..];
      assert h.requests - {AddonKey} - {AddonKey} == h.requests - {AddonKey};
    }
  }

  lemma SyncedHost(w: World, r: Readings)
    requires HostSound(w.host)
    ensures var v := SyncedWorld(w, r);
      && v.host.killActive == v.device.Active()
      && AllWellFormed(v.host.requests) && SpeedsLegal(v.host)
      && OnlyAddonDropped(w.host.requests, v.host.requests)
  {
    AbsorbAllKeeps(w.host, Delivered(w.device, w.Changes()), Polls(w.counter, w.host.killActive), r);
  }

  lemma KillSwitchAppliedSound(d: Device, diff: map<Key, Holder>)
    requires DeviceSound(d) && AllWellFormed(diff)
    ensures DeviceSound(KillSwitchApplied(d, diff))
    ensures KillSwitchKey in diff ==> InStep(diff, KillSwitchApplied(d, diff), KillSwitchKey)
  {
  }

  /** The registers after a message, key by key. */
  lemma DeliveredAt(d: Device, diff: map<Key, Holder>, k: Key)
    requires DeviceSound(d) && AllWellFormed(diff)
    ensures k in diff && !(Dependent(k) && Delivered(d, diff).Active()) ==> InStep(diff, Delivered(d, diff), k)
    ensures Dependent(k) && Delivered(d, diff).Active() ==> k !in Delivered(d, diff).regs
    ensures k !in diff && (!Dependent(k) || !Delivered(d, diff).Active()) ==> SameAt(d, Delivered(d, diff), k)
  {
    KillSwitchAppliedSound(d, diff);
    if k !in diff && (!Dependent(k) || !KillSwitchApplied(d, diff).Active()) {
      AppliedAt(d, diff, k);
    }
  }

  lemma AppliedAt(d: Device, diff: map<Key, Holder>, k: Key)
    requires DeviceSound(d) && AllWellFormed(diff)
    requires k !in diff && (!Dependent(k) || !KillSwitchApplied(d, diff).Active())
    ensures SameAt(d, KillSwitchApplied(d, diff), k)
  {
  }

  lemma DeliveredSound(d: Device, diff: map<Key, Holder>)
    requires DeviceSound(d) && AllWellFormed(diff)
    ensures DeviceSound(Delivered(d, diff))
  {
    KillSwitchAppliedSound(d, diff);
    forall k | Delivered(d, diff).Active() && k in Delivered(d, diff).regs ensures !Dependent(k) {
      DeliveredAt(d, diff, k);
    }
    assert KillCommanded(Delivered(d, diff)) == KillCommanded(KillSwitchApplied(d, diff));
  }

  lemma SyncSound(w: World, r: Readings)
    requires Sound(w)
    ensures Sound(SyncedWorld(w, r))
  {
    var v, diff := SyncedWorld(w, r), w.Changes();
    SyncedHost(w, r);
    DeliveredSound(w.device, diff);
    forall k | k in v.previous && !Dependent(k) ensures InStep(v.previous, v.device, k) {
      DeliveredAt(w.device, diff, k);
      if k !in diff {
        assert w.previous[k] == w.host.requests[k] && InStep(w.previous, w.device, k);
      } else {
        assert InStep(diff, v.device, k);
      }
    }
    assert InStep(v.previous, v.device, KillSwitchKey);
  }

  /** Every step of every run: nothing fails, and the invariant is kept. */
  lemma NextSound(w: World, s: Step)
    requires Sound(w) && Enabled(w, s)
    ensures Next(w, s).Synced? && Sound(Next(w, s).world)
  {
    if s.Sync? {
      SyncExact(w, s.order, s.readings);
      SyncSound(w, s.readings);
    } else {
      HostStepSound(w.host, s);
      DeviceStepSound(w.device, s);
      forall k | k in w.previous && !Dependent(k) ensures InStep(w.previous, DeviceStep(w.device, s), k) {
        assert SameAt(w.device, DeviceStep(w.device, s), k);
      }
      assert SameAt(w.device, DeviceStep(w.device, s), KillSwitchKey);
    }
  }

  lemma {:induction false} RunSound(w: World, steps: seq<Step>, v: World)
    requires Sound(w) && IsRun(w, steps, v)
    ensures Sound(v)
    decreases |steps|
  {
    if steps != [] {
      NextSound(w, steps[0]);
      RunSound(Next(w, steps[0]).world, steps[1..], v);
    }
  }
}
