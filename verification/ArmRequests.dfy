/**
 The arm behind its four keys: when the differences tell its joints what the whole map would, and the
 brake command that is taken for delivered.
 */
module ArmRequests {
  import opened Protocol
  import opened DataHolders
  import opened HostInterface
  import opened BridgeFirmware
  import opened Synchronisation
  import opened Exchange
  import opened Runs
  import opened SafetyResults
  import opened ReleaseResults
  import ArmJoints

  // ---- What the last command decides ----

  /** The commands of the arm driver that one command of the bridge becomes. */
  function Relayed(c: Command): seq<ArmJoints.Command> {
    match c
    case JointSet(j, d, _, setPosition, p) =>
      [ArmJoints.SetSpeed, if setPosition then ArmJoints.SetPosition(j, p) else ArmJoints.SetDirection(j, Way(d))]
    case ArmBrake => [ArmJoints.Brake]
    case ArmCalibrate => [ArmJoints.Calibrate]
    case _ => []
  }

  function Way(id: Byte): ArmJoints.Direction {
    if id == 0 then ArmJoints.Stop else if id == 1 then ArmJoints.Forward else if id == 2 then ArmJoints.Backward else ArmJoints.Both
  }

  function Obeyed(a: ArmJoints.Arm, cs: seq<ArmJoints.Command>): ArmJoints.Arm
    decreases |cs|
  {
    if cs == [] then a else Obeyed(ArmJoints.AfterCommand(a, cs[0]), cs[1..])
  }

  /** A directional SET moves its joint as it says, if the way is permitted, whatever came before ... */
  lemma SetDecides(a: ArmJoints.Arm, j: Joint, d: Direction, speed: Byte, p: Byte)
    ensures var i := ArmJoints.IndexOf(JointId(j));
      Obeyed(a, Relayed(JointSet(JointId(j), DirectionId(d), speed, false, p))).joints[i].current
      == if ArmJoints.Permitted(a.joints[i].allowed, Way(DirectionId(d))) then Way(DirectionId(d)) else ArmJoints.Stop
  {
    var cs := Relayed(JointSet(JointId(j), DirectionId(d), speed, false, p));
    assert Obeyed(ArmJoints.AfterCommand(a, cs[0]), cs[1..])
        == Obeyed(ArmJoints.AfterCommand(ArmJoints.AfterCommand(a, cs[0]), cs[1]), []);
  }

  /** ... a BRAKE stops every joint ... */
  lemma BrakeDecides(a: ArmJoints.Arm, i: nat)
    requires i < 3
    ensures Obeyed(a, Relayed(ArmBrake)).joints[i].current == ArmJoints.Stop
  {
    assert Obeyed(a, Relayed(ArmBrake)) == Obeyed(ArmJoints.AfterCommand(a, ArmJoints.Brake), []);
    BrakedStops(a.joints, 0, i);
  }

  lemma {:induction false} BrakedStops(js: ArmJoints.Table, k: nat, i: nat)
    requires k <= ArmJoints.TABLE_SIZE && i < 3 && (k > i ==> js[i].current == ArmJoints.Stop)
    ensures ArmJoints.BrakedFrom(js, k)[i].current == ArmJoints.Stop
    decreases ArmJoints.TABLE_SIZE - k
  {
    if k < ArmJoints.TABLE_SIZE {
      BrakedStops(ArmJoints.WithDirection(js, ArmJoints.MotorOf(k), ArmJoints.Stop), k + 1, i);
    }
  }

  /** ... so a joint told to drive before a BRAKE stands, and one told after it drives. */
  lemma OrderMatters(a: ArmJoints.Arm, j: Joint, speed: Byte, p: Byte)
    requires a.joints[ArmJoints.IndexOf(JointId(j))].allowed == ArmJoints.Both
    ensures var i, drive := ArmJoints.IndexOf(JointId(j)), JointSet(JointId(j), DirectionId(Forward), speed, false, p);
      && Obeyed(Obeyed(a, Relayed(drive)), Relayed(ArmBrake)).joints[i].current == ArmJoints.Stop
      && Obeyed(Obeyed(a, Relayed(ArmBrake)), Relayed(drive)).joints[i].current == ArmJoints.Forward
  {
    var i, drive := ArmJoints.IndexOf(JointId(j)), JointSet(JointId(j), DirectionId(Forward), speed, false, p);
    BrakeDecides(Obeyed(a, Relayed(drive)), i);
    var braked := Obeyed(a, Relayed(ArmBrake));
    assert braked == Obeyed(ArmJoints.AfterCommand(a, ArmJoints.Brake), []);
    BrakeAllows(a.joints, 0, i);
    SetDecides(braked, j, Forward, speed, p);
  }

  lemma {:induction false} BrakeAllows(js: ArmJoints.Table, k: nat, i: nat)
    requires k <= ArmJoints.TABLE_SIZE && i < ArmJoints.TABLE_SIZE
    ensures ArmJoints.BrakedFrom(js, k)[i].allowed == js[i].allowed
    decreases ArmJoints.TABLE_SIZE - k
  {
    if k < ArmJoints.TABLE_SIZE {
      BrakeAllows(ArmJoints.WithDirection(js, ArmJoints.MotorOf(k), ArmJoints.Stop), k + 1, i);
    }
  }

  // ---- The whole robot ----

  lemma ArmsEqual(a: Arm, b: Arm)
    requires forall j :: a.At(j) == b.At(j)
    ensures a == b
  {
    assert a.At(Shoulder) == b.At(Shoulder) && a.At(Elbow) == b.At(Elbow) && a.At(Gripper) == b.At(Gripper);
  }

  /** With the line up and believed up, the differences make of the whole robot what the whole map would
      exactly if every joint is told as in a full message. */
  lemma WholeAsFullIff(w: World)
    requires Sound(w) && Coherent(w) && !w.host.killActive && !w.device.Active()
    ensures Delivered(w.device, w.Changes()) == Delivered(w.device, w.host.requests) <==> forall j :: ToldAsInFull(w, j)
  {
    var some, all := Delivered(w.device, w.Changes()), Delivered(w.device, w.host.requests);
    DifferentialIsFull(w);
    forall j ensures some.arm.At(j) == all.arm.At(j) <==> ToldAsInFull(w, j) { JointAsFullIff(w, j); }
    if forall j :: ToldAsInFull(w, j) {
      ArmsEqual(some.arm, all.arm);
    }
  }

  /** Every joint was last told its own request, as far as the server takes it for delivered. */
  ghost predicate JointsInStep(w: World)
    requires Sound(w)
  {
    && AddonKey !in w.host.requests
    && (!w.device.Active() ==> forall j | ArmKey(j) in w.previous :: ToldRemembered(w, j))
  }

  ghost predicate ToldRemembered(w: World, j: Joint)
    requires Sound(w) && ArmKey(j) in w.previous
  {
    w.device.arm.At(j) == Told(CommandOf(ArmKey(j), w.previous[ArmKey(j)]))
  }

  predicate NoAddon(steps: seq<Step>) { forall i | 0 <= i < |steps| :: !Writes(steps[i], AddonKey) }

  lemma SyncJointsInStep(w: World, r: Readings)
    requires Sound(w) && JointsInStep(w) && !StaleRelease(w) && Sound(SyncedWorld(w, r))
    ensures JointsInStep(SyncedWorld(w, r))
  {
    SyncedHost(w, r);
    if w.host.killActive {
      KilledSyncForgets(w, r);
    } else if w.device.Active() {
      StaleIffReleased(w, r);
    } else {
      forall j | ArmKey(j) in SyncedWorld(w, r).previous ensures ToldRemembered(SyncedWorld(w, r), j) {
        SyncTells(w, r, j);
      }
    }
  }

  lemma SyncTells(w: World, r: Readings, j: Joint)
    requires Sound(w) && JointsInStep(w) && !w.host.killActive && !w.device.Active()
    requires Sound(SyncedWorld(w, r)) && ArmKey(j) in SyncedWorld(w, r).previous
    ensures ToldRemembered(SyncedWorld(w, r), j)
  {
    SyncArm(w, r, j);
    assert WellFormed(ArmKey(j), w.host.requests[ArmKey(j)]);
    if ArmKey(j) !in w.Changes() {
      assert ToldRemembered(w, j);
    }
  }

  /** What a message with the line up leaves a joint told. */
  lemma SyncArm(w: World, r: Readings, j: Joint)
    requires Up(w)
    ensures AllWellFormed(w.Changes()) && SyncedWorld(w, r).device.arm.At(j) == LastTold(w.device.arm, w.Changes(), j)
  {
    LineUnchanged(w);
  }

  lemma NextJointsInStep(w: World, s: Step)
    requires Sound(w) && JointsInStep(w) && Enabled(w, s) && !Unclean(w, s) && !Writes(s, AddonKey)
    ensures Next(w, s).Synced? && Sound(Next(w, s).world) && JointsInStep(Next(w, s).world)
  {
    NextSound(w, s);
    if s.Sync? {
      SyncExact(w, s.order, s.readings);
      SyncJointsInStep(w, s.readings);
    } else {
      var v := Next(w, s).world;
      HostStepKeeps(w.host, s, AddonKey);
      DeviceStepSound(w.device, s);
      forall j | !v.device.Active() && ArmKey(j) in v.previous ensures ToldRemembered(v, j) {
        assert ToldRemembered(w, j);
      }
    }
  }

  lemma {:induction false} RunJointsInStep(w: World, steps: seq<Step>, v: World)
    requires Sound(w) && Coherent(w) && JointsInStep(w) && IsCleanRun(w, steps, v) && NoAddon(steps)
    ensures Sound(v) && JointsInStep(v)
    decreases |steps|
  {
    if steps != [] {
      NextJointsInStep(w, steps[0]);
      NextCoherent(w, steps[0]);
      RunJointsInStep(Next(w, steps[0]).world, steps[1..], v);
    }
  }

  /** Over every clean run in which nobody brakes or calibrates the arm as a whole, a synchronisation
      with the line up and believed up leaves the whole robot as the whole map would. */
  lemma WholeSyncWithoutAddon(d: Device, slack: Byte, steps: seq<Step>, w: World, order: seq<Key>, r: Readings)
    requires DeviceSound(d) && Sound(StartWorld(d, slack)) && IsCleanRun(StartWorld(d, slack), steps, w) && NoAddon(steps)
    requires !w.host.killActive && !w.device.Active() && IsMerge(w.Changes(), order)
    ensures Sound(w) && AfterSync(w, order, r).Synced?
    ensures AfterSync(w, order, r).world.device == Delivered(w.device, w.host.requests)
  {
    StartSound(d, slack);
    CleanRunCoherent(StartWorld(d, slack), steps, w);
    RunJointsInStep(StartWorld(d, slack), steps, w);
    SyncExact(w, order, r);
    forall j ensures ToldAsInFull(w, j) {
      if ArmKey(j) in w.host.requests && ArmKey(j) !in w.Changes() {
        UnchangedInStep(w, ArmKey(j));
        assert ToldRemembered(w, j);
      }
    }
    WholeAsFullIff(w);
  }

  // ---- The brake that is not sent ----

  /** After a `brake()` the next message that may carry it carries a BRAKE exactly if it differs from the
      addon request remembered at the call. */
  lemma BrakeSentIff(w: World, slack: Byte, steps: seq<Step>, v: World)
    requires Sound(w) && Enabled(w, BrakeArm(slack)) && Next(w, BrakeArm(slack)).Synced?
    requires IsRun(Next(w, BrakeArm(slack)).world, steps, v) && NoSync(steps) && NoAddon(steps) && !v.host.killActive
    ensures AddonKey in v.host.requests && v.host.requests[AddonKey] == HolderFor(AddonKey, ArmBrake, slack)
    ensures AddonKey in v.Changes()
       <==> AddonKey !in w.previous || w.previous[AddonKey] != HolderFor(AddonKey, ArmBrake, slack)
  {
    NextSound(w, BrakeArm(slack));
    AddonKeptTillSync(Next(w, BrakeArm(slack)).world, steps, v);
  }

  lemma {:induction false} AddonKeptTillSync(w: World, steps: seq<Step>, v: World)
    requires Sound(w) && IsRun(w, steps, v) && NoSync(steps) && NoAddon(steps)
    ensures KeptAt(w.host.requests, v.host.requests, AddonKey) && v.previous == w.previous
    decreases |steps|
  {
    if steps != [] {
      NextSound(w, steps[0]);
      assert !steps[0].Sync? && !Writes(steps[0], AddonKey);
      HostStepKeeps(w.host, steps[0], AddonKey);
      AddonKeptTillSync(Next(w, steps[0]).world, steps[1..], v);
    }
  }

  /** The map holds the request of `brake()`. */
  predicate BrakeAsked(w: World) {
    AddonKey in w.host.requests && w.host.requests[AddonKey] == HolderFor(AddonKey, ArmBrake, 0)
  }

  /** What `setDirection` makes of the elbow. */
  function ElbowForward(w: World): JointFields {
    w.host.elbow.(direction := Forward, settingPosition := false)
  }

  /** Nothing to send, nothing in progress. */
  ghost predicate Calm(w: World) {
    && Up(w) && !w.host.calibration.InProgress?
    && w.Changes().Keys == {} && w.previous.Keys == w.host.requests.Keys
  }

  lemma AbsorbCalm(h: Host, d: Device, c: Command, r: Readings)
    requires IsGetter(c) && !d.Active() && !h.calibration.InProgress?
    ensures Absorb(h, d, c, r).requests == h.requests && !Absorb(h, d, c, r).calibration.InProgress?
  {
    match c {
      case GetState =>
      case GetMotor(id) =>
      case GetJoint(id) =>
        var j := JointNumbered(id);
        match j {
          case Shoulder =>
          case Elbow =>
          case Gripper =>
        }
      case _ =>
    }
  }

  lemma {:induction false} AbsorbAllCalm(h: Host, d: Device, cs: seq<Command>, r: Readings)
    requires !d.Active() && !h.calibration.InProgress? && forall i | 0 <= i < |cs| :: IsGetter(cs[i])
    ensures AbsorbAll(h, d, cs, r).requests == h.requests && !AbsorbAll(h, d, cs, r).calibration.InProgress?
    decreases |cs|
  {
    if cs != [] {
      AbsorbCalm(h, d, cs[0], r);
      AbsorbAllCalm(Absorb(h, d, cs[0], r), d, cs[1..], r);
    }
  }

  lemma SyncCalm(u: World, r: Readings)
    requires Up(u) && !u.host.calibration.InProgress?
    ensures SyncedWorld(u, r).host.requests == u.host.requests && Calm(SyncedWorld(u, r))
  {
    SyncedUp(u, r);
    SyncKeepsRequests(u, r);
    SyncSound(u, r);
    NothingLeft(u, r);
  }

  lemma SyncedUp(u: World, r: Readings)
    requires Up(u)
    ensures !SyncedWorld(u, r).device.Active() && !SyncedWorld(u, r).host.killActive
    ensures SyncedWorld(u, r).previous.Keys == u.host.requests.Keys
  {
    LineUnchanged(u);
    SyncedHost(u, r);
  }

  lemma SyncKeepsRequests(u: World, r: Readings)
    requires AllWellFormed(u.host.requests) && !SyncedWorld(u, r).device.Active() && !u.host.calibration.InProgress?
    ensures SyncedWorld(u, r).host.requests == u.host.requests && !SyncedWorld(u, r).host.calibration.InProgress?
  {
    var d, polls := SyncedWorld(u, r).device, Polls(u.counter, u.host.killActive);
    AbsorbAllCalm(u.host, d, polls, r);
    assert SyncedWorld(u, r).host == AbsorbAll(u.host, d, polls, r);
  }

  /** A setter of one dependent request, which is new. */
  ghost predicate SetsAnew(w: World, s: Step, k: Key, c: Command, slack: Byte) {
    && Enabled(w, s) && (s.BrakeArm? || s.JointDirection?) && Dependent(k) && Fits(k, c)
    && HostStep(w.host, s).requests == w.host.requests[k := HolderFor(k, c, slack)]
    && HostStep(w.host, s).calibration == w.host.calibration && HostStep(w.host, s).killActive == w.host.killActive
    && (k !in w.host.requests || w.host.requests[k] != HolderFor(k, c, slack))
  }

  lemma SetChanges(w: World, s: Step, k: Key, c: Command, slack: Byte)
    requires Calm(w) && SetsAnew(w, s, k, c, slack)
    ensures var u := w.(host := HostStep(w.host, s)); u.Changes().Keys == {k} && IsMerge(u.Changes(), [k])
  {
    var u := w.(host := HostStep(w.host, s));
    forall i ensures i in u.Changes() <==> i == k {
      ChangesAt(w, u.host, k, HolderFor(k, c, slack), i);
    }
    var order := [k];
    assert forall i :: i in order <==> i in u.Changes();
  }

  lemma ChangesAt(w: World, h: Host, k: Key, x: Holder, i: Key)
    requires w.Changes().Keys == {} && w.previous.Keys == w.host.requests.Keys && !w.host.killActive && !h.killActive
    requires h.requests == w.host.requests[k := x] && (k !in w.host.requests || w.host.requests[k] != x)
    ensures i in w.(host := h).Changes() <==> i == k
  {
    assert i !in w.Changes().Keys;
    assert i in w.host.requests.Keys <==> i in w.previous.Keys;
  }

  /** The setter and a synchronisation: the request is delivered, alone. */
  lemma SetAndSync(w: World, s: Step, k: Key, c: Command, slack: Byte, r: Readings) returns (u: World, v: World)
    requires Calm(w) && SetsAnew(w, s, k, c, slack)
    ensures StepsTo(w, s, u) && StepsTo(u, Sync([k], r), v)
    ensures Calm(v) && v.host.requests == w.host.requests[k := HolderFor(k, c, slack)]
    ensures forall j :: v.device.arm.At(j) == if k == AddonKey || k == ArmKey(j) then Told(c) else w.device.arm.At(j)
  {
    NextSound(w, s);
    u := w.(host := HostStep(w.host, s));
    SetChanges(w, s, k, c, slack);
    v := SyncStep(u, [k], r);
    SyncCalm(u, r);
    SetTells(w, u, k, c, slack, r);
  }

  lemma SetTells(w: World, u: World, k: Key, c: Command, slack: Byte, r: Readings)
    requires Sound(w) && Up(u) && u.device == w.device
    requires Dependent(k) && Fits(k, c) && u.Changes().Keys == {k} && u.Changes()[k] == HolderFor(k, c, slack)
    ensures forall j :: SyncedWorld(u, r).device.arm.At(j)
                     == if k == AddonKey || k == ArmKey(j) then Told(c) else w.device.arm.At(j)
  {
    InsertSound(w.host, k, c, slack);
    forall j
      ensures SyncedWorld(u, r).device.arm.At(j) == if k == AddonKey || k == ArmKey(j) then Told(c) else w.device.arm.At(j)
    {
      SyncArm(u, r, j);
    }
  }

  /** The last command was a SET for joint `j`, to turn forward without a position. */
  predicate DrivesForward(told: Told, j: Joint) {
    && told.Told? && told.command.JointSet? && told.command.joint == JointId(j)
    && told.command.direction == DirectionId(Forward) && !told.command.setPosition
  }

  /** From reset: the robot released, the arm braked, the elbow driven, and `brake()` again, each with a
      synchronisation behind it. The elbow still has its command to drive, the map says BRAKE, and
      sending the whole map would have stopped it. */
  lemma SecondBrakeLost(r: Readings) returns (steps: seq<Step>, w: World)
    ensures IsRun(StartWorld(RESET_BRIDGE, 0), steps, w) && Calm(w)
    ensures BrakeAsked(w) && DrivesForward(w.device.arm.elbow, Elbow)
    ensures Delivered(w.device, w.host.requests).arm.elbow == Told(ArmBrake)
    ensures |steps| >= 2 && steps[|steps| - 2..] == [BrakeArm(0), Sync([], r)]
  {
    var head, braked := BrakedFromReset(r);
    var tail;
    tail, w := DrivenThenBraked(braked, r);
    steps := head + tail;
    LastTwo(head, tail);
    RunAppend(StartWorld(RESET_BRIDGE, 0), head, braked, tail, w);
    JointAsFull(w);
  }

  lemma LastTwo(head: seq<Step>, tail: seq<Step>)
    requires |tail| >= 2
    ensures (head + tail)[|head + tail| - 2..] == tail[|tail| - 2..]
  {
  }

  lemma DrivenThenBraked(w: World, r: Readings) returns (steps: seq<Step>, v: World)
    requires Calm(w) && ArmKey(Elbow) !in w.host.requests && BrakeAsked(w)
    ensures IsRun(w, steps, v) && Calm(v) && |steps| == 4 && steps[2..] == [BrakeArm(0), Sync([], r)]
    ensures BrakeAsked(v) && v.device.arm.elbow == Told(JointCommand(Elbow, ElbowForward(w)))
  {
    var first, driven := ElbowDriven(w, r);
    var second;
    second, v := BrakeAgain(driven, r);
    assert v.device.arm.At(Elbow) == driven.device.arm.At(Elbow);
    RunAppend(w, first, driven, second, v);
    steps := first + second;
  }

  lemma ElbowDriven(w: World, r: Readings) returns (steps: seq<Step>, v: World)
    requires Calm(w) && ArmKey(Elbow) !in w.host.requests && BrakeAsked(w)
    ensures steps == [JointDirection(Elbow, Forward, 0), Sync([ArmKey(Elbow)], r)] && IsRun(w, steps, v) && Calm(v)
    ensures BrakeAsked(v) && v.device.arm.At(Elbow) == Told(JointCommand(Elbow, ElbowForward(w)))
  {
    ElbowSetsAnew(w);
    var u;
    u, v := SetAndSync(w, JointDirection(Elbow, Forward, 0), ArmKey(Elbow), JointCommand(Elbow, ElbowForward(w)), 0, r);
    steps := TwoSteps(w, JointDirection(Elbow, Forward, 0), u, Sync([ArmKey(Elbow)], r), v);
  }

  lemma ElbowSetsAnew(w: World)
    requires Calm(w) && ArmKey(Elbow) !in w.host.requests
    ensures SetsAnew(w, JointDirection(Elbow, Forward, 0), ArmKey(Elbow), JointCommand(Elbow, ElbowForward(w)), 0)
  {
  }

  lemma BrakeSetsAnew(w: World)
    requires Calm(w) && AddonKey !in w.host.requests
    ensures SetsAnew(w, BrakeArm(0), AddonKey, ArmBrake, 0)
  {
  }

  lemma BrakedFromReset(r: Readings) returns (steps: seq<Step>, w: World)
    ensures IsRun(StartWorld(RESET_BRIDGE, 0), steps, w) && Calm(w) && ArmKey(Elbow) !in w.host.requests
    ensures BrakeAsked(w)
  {
    var asked, released := ReleasedWorld(r);
    ReleasedCalm(asked, released, r);
    var braking;
    BrakeSetsAnew(released);
    braking, w := SetAndSync(released, BrakeArm(0), AddonKey, ArmBrake, 0, r);
    OnlyTwo(released, w);
    var first := TwoSteps(StartWorld(RESET_BRIDGE, 0), KillSwitch(false, 0), asked, Sync([KillSwitchKey], r), released);
    var second := TwoSteps(released, BrakeArm(0), braking, Sync([AddonKey], r), w);
    RunAppend(StartWorld(RESET_BRIDGE, 0), first, released, second, w);
    steps := first + second;
  }

  lemma ReleasedCalm(asked: World, w: World, r: Readings)
    requires Sound(asked) && w == SyncedWorld(asked, r) && Up(w)
    requires OnlyKillSwitchKnown(w) && !asked.host.calibration.InProgress?
    ensures Calm(w)
  {
    SyncKeepsRequests(asked, r);
    NothingKnownChanged(w);
  }

  lemma NothingKnownChanged(w: World)
    requires OnlyKillSwitchKnown(w)
    ensures w.Changes().Keys == {}
  {
    forall k ensures k !in w.Changes() {
      assert k in w.host.requests.Keys ==> k == KillSwitchKey;
    }
  }

  lemma OnlyTwo(w: World, v: World)
    requires OnlyKillSwitchKnown(w) && v.host.requests == w.host.requests[AddonKey := HolderFor(AddonKey, ArmBrake, 0)]
    ensures ArmKey(Elbow) !in v.host.requests
  {
  }

  /** `brake()` once more: the same request, nothing to send. */
  lemma BrakeAgain(w: World, r: Readings) returns (steps: seq<Step>, v: World)
    requires Calm(w) && BrakeAsked(w)
    ensures steps == [BrakeArm(0), Sync([], r)] && IsRun(w, steps, v)
    ensures Calm(v) && v.host.requests == w.host.requests && forall j :: v.device.arm.At(j) == w.device.arm.At(j)
  {
    NextSound(w, BrakeArm(0));
    var u := w.(host := HostStep(w.host, BrakeArm(0)));
    assert u.host.requests == w.host.requests;
    var none: seq<Key> := [];
    assert IsMerge(u.Changes(), none);
    v := SyncStep(u, none, r);
    steps := TwoSteps(w, BrakeArm(0), u, Sync(none, r), v);
    SyncCalm(u, r);
    forall j ensures v.device.arm.At(j) == w.device.arm.At(j) {
      SyncArm(u, r, j);
    }
  }

  lemma JointAsFull(w: World)
    requires Calm(w) && BrakeAsked(w)
    ensures AllWellFormed(w.host.requests) && Delivered(w.device, w.host.requests).arm.elbow == Told(ArmBrake)
  {
    LineUnchanged(w);
    InsertSound(w.host, AddonKey, ArmBrake, 0);
    assert Delivered(w.device, w.host.requests).arm.elbow == LastTold(w.device.arm, w.host.requests, Elbow);
  }
}
