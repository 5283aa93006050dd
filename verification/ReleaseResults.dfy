/**
 What a caller of the server can do about the breaking cases, and what happens around a release of the
 kill switch: when it can be released again, and what moves then.
 */
module ReleaseResults {
  import opened Protocol
  import opened DataHolders
  import opened HostInterface
  import opened BridgeFirmware
  import opened Synchronisation
  import opened Exchange
  import opened Runs
  import opened SafetyResults

  // ---- Asking for INACTIVE only while the kill switch is believed active ----

  /** The rule a caller can keep: look at the belief before asking for INACTIVE. */
  predicate Careful(w: World, s: Step) { s.KillSwitch? && !s.active ==> w.host.killActive }

  ghost predicate IsCarefulRun(w: World, steps: seq<Step>, v: World)
    requires Sound(w)
    decreases |steps|
  {
    if steps == [] then v == w
    else
      && Enabled(w, steps[0]) && Careful(w, steps[0])
      && (NextSound(w, steps[0]); IsCarefulRun(Next(w, steps[0]).world, steps[1..], v))
  }

  ghost predicate NoShortPress(w: World, steps: seq<Step>)
    requires Sound(w)
    decreases |steps|
  {
    steps == [] ||
    (Enabled(w, steps[0]) ==>
      && !ShortPress(w.device, steps[0])
      && (NextSound(w, steps[0]); NoShortPress(Next(w, steps[0]).world, steps[1..])))
  }

  /** While the line is believed up, the kill-switch request is the remembered one to the last byte. */
  ghost predicate Settled(w: World)
    requires Sound(w)
  {
    !w.host.killActive ==> w.host.requests[KillSwitchKey] == w.previous[KillSwitchKey]
  }

  lemma NextSettled(w: World, s: Step)
    requires Sound(w) && Settled(w) && Enabled(w, s) && Careful(w, s)
    ensures Next(w, s).Synced? && Sound(Next(w, s).world) && Settled(Next(w, s).world)
    ensures !(s.Sync? && StaleRelease(w))
  {
    NextSound(w, s);
    if s.Sync? {
      SyncExact(w, s.order, s.readings);
      SyncedHost(w, s.readings);
      assert WellFormed(KillSwitchKey, w.host.requests[KillSwitchKey]);
    } else {
      HostStepSound(w.host, s);
      if !s.KillSwitch? {
        HostStepKeeps(w.host, s, KillSwitchKey);
      }
    }
  }

  /** The key a step may write a request under. */
  predicate Writes(s: Step, k: Key) {
    match s
    case LcdText(_, _) => k == LcdKey
    case KillSwitch(_, _) => k == KillSwitchKey
    case MotorSpeed(m, _, _) => k == MotorKey(m)
    case MotorDirection(m, _, _) => k == MotorKey(m)
    case JointSpeed(j, _, _) => k == ArmKey(j)
    case JointDirection(j, _, _) => k == ArmKey(j)
    case JointPosition(j, _, _) => k == ArmKey(j)
    case BrakeArm(_) => k == AddonKey
    case Calibrate(_) => k == AddonKey
    case SwitchLight(_, _, _) => k == ExpanderKey
    case _ => false
  }

  predicate KeptAt(before: map<Key, Holder>, after: map<Key, Holder>, k: Key) {
    (k in before <==> k in after) && (k in before ==> after[k] == before[k])
  }

  lemma InsertKeeps(m: map<Key, Holder>, i: Key, h: Holder, k: Key)
    requires i != k
    ensures KeptAt(m, m[i := h], k)
  {
  }

  lemma MotorKeeps(h: Host, m: Motor, f: MotorFields, slack: Byte, k: Key)
    requires f.programmedSpeed <= MOTOR_MAX_SPEED && k != MotorKey(m)
    ensures KeptAt(h.requests, WithMotorRequest(h, m, f, slack).requests, k)
  {
    InsertKeeps(h.requests, MotorKey(m), HolderFor(MotorKey(m), MotorCommand(m, f), slack), k);
  }

  lemma JointKeeps(h: Host, j: Joint, f: JointFields, slack: Byte, k: Key)
    requires k != ArmKey(j)
    ensures KeptAt(h.requests, WithJointRequest(h, j, f, slack).requests, k)
  {
    InsertKeeps(h.requests, ArmKey(j), HolderFor(ArmKey(j), JointCommand(j, f), slack), k);
  }

  lemma JointStepKeeps(h: Host, s: Step, k: Key)
    requires (s.JointSpeed? || s.JointDirection? || s.JointPosition?) && SpeedsLegal(h) && !Writes(s, k)
    ensures KeptAt(h.requests, HostStep(h, s).requests, k)
  {
    var f := h.JointOf(s.joint);
    match s
    case JointSpeed(j, speed, slack) => JointKeeps(h, j, f.(speed := speed % 256), slack, k);
    case JointDirection(j, d, slack) => JointKeeps(h, j, f.(direction := d, settingPosition := false), slack, k);
    case JointPosition(j, p, slack) =>
      JointKeeps(h, j, f.(programmedPosition := if p <= MaxPosition(j) then p else MaxPosition(j), settingPosition := true), slack, k);
  }

  lemma HostStepKeeps(h: Host, s: Step, k: Key)
    requires SpeedsLegal(h) && !Writes(s, k)
    ensures KeptAt(h.requests, HostStep(h, s).requests, k)
  {
    match s
    case MotorSpeed(m, speed, slack) =>
      MotorKeeps(h, m, h.MotorOf(m).(programmedSpeed := if speed <= MOTOR_MAX_SPEED then speed else MOTOR_MAX_SPEED), slack, k);
    case MotorDirection(m, d, slack) => MotorKeeps(h, m, h.MotorOf(m).(direction := d), slack, k);
    case _ =>
      if s.JointSpeed? || s.JointDirection? || s.JointPosition? {
        JointStepKeeps(h, s, k);
      }
  }

  /** Every run of careful callers keeps memory and request settled, is without stale releases, and
      clean if no press was too short. */
  lemma {:induction false} CarefulRunClean(w: World, steps: seq<Step>, v: World)
    requires Sound(w) && Settled(w) && IsCarefulRun(w, steps, v)
    ensures Sound(v) && Settled(v) && !StaleRelease(v)
    ensures NoShortPress(w, steps) ==> IsCleanRun(w, steps, v)
    decreases |steps|
  {
    if steps != [] {
      NextSettled(w, steps[0]);
      CarefulRunClean(Next(w, steps[0]).world, steps[1..], v);
    }
  }

  lemma StartSettled(d: Device, slack: Byte)
    requires DeviceSound(d)
    ensures Sound(StartWorld(d, slack)) && Settled(StartWorld(d, slack))
  {
    StartSound(d, slack);
  }

  /** For callers who ask for INACTIVE only while the kill switch is believed active: no packet that
      finds the line active ever moves a dependent device, in any run ... */
  lemma CarefulNeverMovesKilled(d: Device, slack: Byte, steps: seq<Step>, w: World, r: Readings)
    requires DeviceSound(d) && Sound(StartWorld(d, slack)) && IsCarefulRun(StartWorld(d, slack), steps, w)
    requires w.device.Active() && AllWellFormed(w.host.requests)
    ensures forall k | k in SyncedWorld(w, r).device.regs :: !Dependent(k)
  {
    StartSettled(d, slack);
    CarefulRunClean(StartWorld(d, slack), steps, w);
    MovesWhileKilledIff(w, r);
  }

  /** ... no message carries INACTIVE beside a command for a dependent device ... */
  lemma CarefulNeverMixes(d: Device, slack: Byte, steps: seq<Step>, w: World)
    requires DeviceSound(d) && Sound(StartWorld(d, slack)) && IsCarefulRun(StartWorld(d, slack), steps, w)
    requires Sound(w) && KillSwitchKey in w.Changes() && KillRequest(w) == KillSwitchSet(false)
    ensures forall k | k in w.Changes() :: !Dependent(k)
  {
    StartSettled(d, slack);
    CarefulRunClean(StartWorld(d, slack), steps, w);
    MixedMessageIff(w);
  }

  /** ... and, as long as every press is long enough to be seen, differences are as good as the whole map. */
  lemma CarefulSyncRefinesFullSync(d: Device, slack: Byte, steps: seq<Step>, w: World, order: seq<Key>, r: Readings)
    requires DeviceSound(d) && Sound(StartWorld(d, slack)) && IsCarefulRun(StartWorld(d, slack), steps, w)
    requires NoShortPress(StartWorld(d, slack), steps)
    requires !w.host.killActive && !w.device.Active() && IsMerge(w.Changes(), order)
    ensures Sound(w) && AfterSync(w, order, r).Synced?
    ensures RegistersMatch(w.host.requests, AfterSync(w, order, r).world.device)
    ensures SameButArm(AfterSync(w, order, r).world.device, Delivered(w.device, w.host.requests))
    ensures forall j :: AfterSync(w, order, r).world.device.arm.At(j) == Delivered(w.device, w.host.requests).arm.At(j)
                   <==> ToldAsInFull(w, j)
  {
    StartSettled(d, slack);
    CarefulRunClean(StartWorld(d, slack), steps, w);
    DifferentialSyncRefinesFullSync(d, slack, steps, w, order, r);
  }

  // ---- When a killed robot can be released ----

  /** A synchronisation that asks an active line, held by no button, to come up does so exactly if the
      request differs from the remembered one: the same INACTIVE again is dropped as unchanged. */
  lemma ReleaseSentIff(w: World, r: Readings)
    requires Sound(w) && w.device.Active() && !w.device.pressed && KillRequest(w) == KillSwitchSet(false)
    ensures !SyncedWorld(w, r).device.Active()
       <==> KillSwitchKey !in w.previous || w.previous[KillSwitchKey] != w.host.requests[KillSwitchKey]
  {
    assert WellFormed(KillSwitchKey, w.host.requests[KillSwitchKey]);
    LineReleasedIff(w.device, w.Changes());
  }

  /** Killed by a button while the last command was INACTIVE, and nothing new to say. */
  ghost predicate LockedOut(w: World)
    requires Sound(w)
  {
    && w.device.driven && KillRequest(w) == KillSwitchSet(false)
    && KillSwitchKey in w.previous && w.previous[KillSwitchKey] == w.host.requests[KillSwitchKey]
  }

  /** Asking for INACTIVE again, with the same byte after it in memory, is nothing new. */
  ghost predicate SaysNothingNew(w: World, s: Step)
    requires Sound(w)
  {
    s.KillSwitch? ==> !s.active && s.slack == w.host.requests[KillSwitchKey].slack
  }

  ghost predicate NothingNew(w: World, steps: seq<Step>)
    requires Sound(w)
    decreases |steps|
  {
    steps == [] ||
    (Enabled(w, steps[0]) ==>
      && SaysNothingNew(w, steps[0])
      && (NextSound(w, steps[0]); NothingNew(Next(w, steps[0]).world, steps[1..])))
  }

  lemma NextLockedOut(w: World, s: Step)
    requires Sound(w) && LockedOut(w) && Enabled(w, s) && SaysNothingNew(w, s)
    ensures Next(w, s).Synced? && Sound(Next(w, s).world) && LockedOut(Next(w, s).world)
  {
    NextSound(w, s);
    assert WellFormed(KillSwitchKey, w.host.requests[KillSwitchKey]);
    if s.Sync? {
      SyncExact(w, s.order, s.readings);
      SyncedHost(w, s.readings);
      assert KillSwitchKey !in w.Changes();
    } else {
      if s.KillSwitch? {
        SameKillRequest(w.host.requests[KillSwitchKey], s.slack);
      } else {
        HostStepKeeps(w.host, s, KillSwitchKey);
      }
    }
  }

  lemma SameKillRequest(h: Holder, slack: Byte)
    requires WellFormed(KillSwitchKey, h) && CommandOf(KillSwitchKey, h) == KillSwitchSet(false) && h.slack == slack
    ensures HolderFor(KillSwitchKey, KillSwitchSet(false), slack) == h
  {
  }

  /** A robot in that state is released by no sequence of INACTIVE requests: not before ACTIVE was asked
      for once, or the byte after the request happened to differ. */
  lemma {:induction false} StaysLockedOut(w: World, steps: seq<Step>, v: World)
    requires Sound(w) && LockedOut(w) && IsRun(w, steps, v) && NothingNew(w, steps)
    ensures Sound(v) && LockedOut(v) && v.device.Active()
    decreases |steps|
  {
    if steps != [] {
      NextLockedOut(w, steps[0]);
      StaysLockedOut(Next(w, steps[0]).world, steps[1..], v);
    }
  }

  /** It is reached from reset: INACTIVE delivered, then a button pushed, seen and let go. */
  lemma LockedOutReachable(r: Readings) returns (steps: seq<Step>, w: World)
    ensures IsRun(StartWorld(RESET_BRIDGE, 0), steps, w) && Sound(w) && LockedOut(w) && !w.device.pressed
    ensures w.host.requests[KillSwitchKey].slack == 0
  {
    var asked, released := ReleasedWorld(r);
    w := WithdrawnWorld(released);
    var first := TwoSteps(StartWorld(RESET_BRIDGE, 0), KillSwitch(false, 0), asked, Sync([KillSwitchKey], r), released);
    var second := PressedTail(released, w, [], w);
    RunAppend(StartWorld(RESET_BRIDGE, 0), first, released, second, w);
    steps := first + second;
    ResentIffSlackDiffers(released);
    assert KillRequest(w) == KillRequest(released);
  }

  // ---- What the first message after a release carries ----

  /** The memory holds nothing a killed device would have to be told again. */
  ghost predicate Forgot(w: World)
    requires Sound(w)
  {
    forall k | k in w.previous :: !Dependent(k)
  }

  lemma KilledSyncForgets(w: World, r: Readings)
    requires Sound(w) && w.host.killActive
    ensures Sound(SyncedWorld(w, r)) && Forgot(SyncedWorld(w, r))
  {
    SyncSound(w, r);
    forall k | k in SyncedWorld(w, r).previous ensures !Dependent(k) {
      assert WellFormed(k, w.host.requests[k]);
    }
  }

  ghost predicate NoSync(steps: seq<Step>) { forall i | 0 <= i < |steps| :: !steps[i].Sync? }

  lemma {:induction false} ForgottenTillSync(w: World, steps: seq<Step>, v: World)
    requires Sound(w) && Forgot(w) && IsRun(w, steps, v) && NoSync(steps)
    ensures Sound(v) && Forgot(v)
    decreases |steps|
  {
    if steps != [] {
      NextSound(w, steps[0]);
      assert steps[0] in steps;
      ForgottenTillSync(Next(w, steps[0]).world, steps[1..], v);
    }
  }

  /** Over every run: the first message the server believes it may send after a synchronisation in the
      killed state carries exactly the dependent requests in the map, new and old. */
  lemma FirstMessageAfterRelease(w: World, r: Readings, steps: seq<Step>, v: World, k: Key)
    requires Sound(w) && w.host.killActive && IsRun(SyncedWorld(w, r), steps, v) && NoSync(steps)
    requires !v.host.killActive && Dependent(k)
    ensures k in v.Changes() <==> k in v.host.requests
  {
    KilledSyncForgets(w, r);
    ForgottenTillSync(SyncedWorld(w, r), steps, v);
  }

  lemma NextKeepsMotor(w: World, s: Step, m: Motor)
    requires Sound(w) && MotorKey(m) in w.host.requests && Enabled(w, s) && !Writes(s, MotorKey(m))
    ensures Next(w, s).Synced? && Sound(Next(w, s).world)
    ensures KeptAt(w.host.requests, Next(w, s).world.host.requests, MotorKey(m))
  {
    NextSound(w, s);
    if s.Sync? {
      SyncExact(w, s.order, s.readings);
      SyncKeeps(w, s.readings, MotorKey(m));
    } else {
      HostStepKeeps(w.host, s, MotorKey(m));
    }
  }

  lemma DroppedKeeps(before: map<Key, Holder>, after: map<Key, Holder>, k: Key)
    requires OnlyAddonDropped(before, after) && k != AddonKey
    ensures KeptAt(before, after, k)
  {
  }

  lemma SyncKeeps(w: World, r: Readings, k: Key)
    requires HostSound(w.host) && k != AddonKey
    ensures KeptAt(w.host.requests, SyncedWorld(w, r).host.requests, k)
  {
    SyncedHost(w, r);
    DroppedKeeps(w.host.requests, SyncedWorld(w, r).host.requests, k);
  }

  ghost predicate NoSetter(steps: seq<Step>, m: Motor) { forall i | 0 <= i < |steps| :: !Writes(steps[i], MotorKey(m)) }

  /** A motor request stays in the map through everything but the setters of its motor: synchronisations,
      reports of a kill and releases included. */
  lemma {:induction false} MotorRequestKept(w: World, steps: seq<Step>, v: World, m: Motor)
    requires Sound(w) && MotorKey(m) in w.host.requests && IsRun(w, steps, v) && NoSetter(steps, m)
    ensures Sound(v) && KeptAt(w.host.requests, v.host.requests, MotorKey(m))
    decreases |steps|
  {
    if steps != [] {
      NextKeepsMotor(w, steps[0], m);
      MotorRequestKept(Next(w, steps[0]).world, steps[1..], v, m);
    }
  }

  /** The report of a kill makes the server's own picture of both motors stopped ... */
  lemma ReportStopsPicture(w: World, r: Readings, m: Motor)
    requires Sound(w) && SyncedWorld(w, r).host.killActive
    ensures SyncedWorld(w, r).host.MotorOf(m).direction == Stop && SyncedWorld(w, r).host.MotorOf(m).programmedSpeed == 0
  {
    SyncedHost(w, r);
    PolledStopped(w.host, Delivered(w.device, w.Changes()), w.counter, w.host.killActive, r, m);
  }

  lemma PolledStopped(h: Host, d: Device, counter: nat, killActive: bool, r: Readings, m: Motor)
    requires d.Active()
    ensures var t := AbsorbAll(h, d, Polls(counter, killActive), r).MotorOf(m); t.direction == Stop && t.programmedSpeed == 0
  {
    var polls := Polls(counter, killActive);
    ReportedStopped(h, d, r, m);
    PollsKeepMotors(Absorb(h, d, GetState, r), d, polls[1..], r, m);
    assert AbsorbAll(h, d, polls, r) == AbsorbAll(Absorb(h, d, polls[0], r), d, polls[1..], r);
  }

  lemma ReportedStopped(h: Host, d: Device, r: Readings, m: Motor)
    requires d.Active()
    ensures Absorb(h, d, GetState, r).MotorOf(m) == STOPPED_MOTOR
  {
  }

  lemma PollKeepsMotor(h: Host, d: Device, c: Command, r: Readings, m: Motor)
    requires IsGetter(c) && !c.GetState?
    ensures Absorb(h, d, c, r).MotorOf(m).direction == h.MotorOf(m).direction
    ensures Absorb(h, d, c, r).MotorOf(m).programmedSpeed == h.MotorOf(m).programmedSpeed
  {
  }

  lemma {:induction false} PollsKeepMotors(h: Host, d: Device, cs: seq<Command>, r: Readings, m: Motor)
    requires forall i | 0 <= i < |cs| :: IsGetter(cs[i]) && !cs[i].GetState?
    ensures AbsorbAll(h, d, cs, r).MotorOf(m).direction == h.MotorOf(m).direction
    ensures AbsorbAll(h, d, cs, r).MotorOf(m).programmedSpeed == h.MotorOf(m).programmedSpeed
    decreases |cs|
  {
    if cs != [] {
      PollKeepsMotor(h, d, cs[0], r, m);
      PollsKeepMotors(Absorb(h, d, cs[0], r), d, cs[1..], r, m);
    }
  }

  /** ... but not its requests: over every run from before a kill to the first message after the release,
      with no setter of the motor in between, that message puts the motor back to the motion it was
      commanded before the kill. */
  lemma ResumesOldMotion(w: World, before: seq<Step>, x: World, r: Readings,
                         after: seq<Step>, v: World, q: Readings, m: Motor)
    requires Sound(w) && MotorKey(m) in w.host.requests && IsRun(w, before, x) && NoSetter(before, m)
    requires Sound(x) && x.host.killActive
    requires IsRun(SyncedWorld(x, r), after, v) && NoSync(after) && NoSetter(after, m)
    requires Up(v)
    ensures MotorKey(m) in v.Changes() && InStep(w.host.requests, SyncedWorld(v, q).device, MotorKey(m))
  {
    MotorRequestKept(w, before, x, m);
    ReportKeepsMotor(x, r, m);
    MotorRequestKept(SyncedWorld(x, r), after, v, m);
    FirstMessageAfterRelease(x, r, after, v, MotorKey(m));
    SentInStep(v, q, MotorKey(m));
    assert v.Changes()[MotorKey(m)] == w.host.requests[MotorKey(m)];
  }

  lemma ReportKeepsMotor(x: World, r: Readings, m: Motor)
    requires Sound(x) && MotorKey(m) in x.host.requests
    ensures Sound(SyncedWorld(x, r)) && KeptAt(x.host.requests, SyncedWorld(x, r).host.requests, MotorKey(m))
  {
    SyncKeeps(x, r, MotorKey(m));
    SyncSound(x, r);
  }

  /** What a message carries with the line up and believed up is in its register afterwards. */
  lemma SentInStep(v: World, q: Readings, k: Key)
    requires Up(v) && k in v.Changes()
    ensures AllWellFormed(v.Changes()) && InStep(v.Changes(), SyncedWorld(v, q).device, k)
  {
    ResentIffSlackDiffers(v);
    DeliveredAt(v.device, v.Changes(), k);
  }

  /** An ordinary way there, from any world that has just been synchronised: the kill switch asked for
      and its release, each followed by a synchronisation. */
  lemma ResumedAfterRelease(w: World, m: Motor, r: Readings) returns (steps: seq<Step>, v: World)
    requires Up(w) && w.Changes().Keys == {} && MotorKey(m) in w.host.requests
    ensures IsRun(w, steps, v) && Up(v) && NoSetter(steps, m)
    ensures MotorKey(m) in v.Changes() && InStep(w.host.requests, SyncedWorld(v, r).device, MotorKey(m))
  {
    var a, x := KilledBySoftware(w, r);
    var b;
    b, v := ReleasedBySoftware(x, r);
    var first := TwoSteps(w, KillSwitch(true, 0), a, Sync([KillSwitchKey], r), x);
    RunCons(x, KillSwitch(false, 0), b, [], b);
    var second := TwoSteps(x, KillSwitch(false, 0), b, Sync([KillSwitchKey], r), v);
    RunAppend(w, first, x, second, v);
    steps := first + second;
    NoSetterHere(m, r);
    RunAppend(w, first, x, [KillSwitch(false, 0)] + [], b);
    ResumesOldMotion(w, first + ([KillSwitch(false, 0)] + []), b, r, [], v, r, m);
  }

  lemma NoSetterHere(m: Motor, r: Readings)
    ensures NoSetter([KillSwitch(true, 0), Sync([KillSwitchKey], r)] + ([KillSwitch(false, 0)] + []), m)
    ensures NoSetter([KillSwitch(true, 0), Sync([KillSwitchKey], r)] + [KillSwitch(false, 0), Sync([KillSwitchKey], r)], m)
  {
  }

  /** The line down, and believed down, by a kill-switch request that has been sent. */
  ghost predicate DownBySoftware(w: World) {
    && Sound(w) && w.host.killActive && w.device.Active() && !w.device.pressed && w.Changes().Keys == {}
    && KillRequest(w) == KillSwitchSet(true)
  }

  lemma KilledBySoftware(w: World, r: Readings) returns (a: World, x: World)
    requires Up(w) && w.Changes().Keys == {}
    ensures StepsTo(w, KillSwitch(true, 0), a) && StepsTo(a, Sync([KillSwitchKey], r), x) && DownBySoftware(x)
  {
    a := HostStepWorld(w, KillSwitch(true, 0));
    AskedOnly(w, a);
    x := SyncStep(a, [KillSwitchKey], r);
    KilledThen(a, x, r);
  }

  lemma AskedOnly(w: World, a: World)
    requires Sound(w) && !w.host.killActive && w.Changes().Keys == {}
    requires a == w.(host := HostStep(w.host, KillSwitch(true, 0))) && Sound(a)
    ensures a.Changes().Keys == {KillSwitchKey} && IsMerge(a.Changes(), [KillSwitchKey]) && KillRequest(a) == KillSwitchSet(true)
  {
    ResentIffSlackDiffers(w);
    InsertSound(w.host, KillSwitchKey, KillSwitchSet(true), 0);
    forall k ensures k in a.Changes() <==> k == KillSwitchKey {
      assert k !in w.Changes().Keys;
      assert k in w.host.requests ==> WellFormed(k, w.host.requests[k]);
    }
    var order := [KillSwitchKey];
    assert forall k :: k in order <==> k in a.Changes();
  }

  lemma KilledThen(a: World, x: World, r: Readings)
    requires Sound(a) && a.host.killActive && !a.device.pressed && x == SyncedWorld(a, r) && Sound(x)
    requires KillSwitchKey in a.Changes() && KillRequest(a) == KillSwitchSet(true)
    ensures x.device.Active() && x.host.killActive && !x.device.pressed && x.Changes().Keys == {}
    ensures KillRequest(x) == KillSwitchSet(true)
  {
    SyncedHost(a, r);
    KilledSyncForgets(a, r);
    DroppedKeeps(a.host.requests, x.host.requests, KillSwitchKey);
    forall k ensures k !in x.Changes() {
      KilledNothingLeft(a, x, r, k);
    }
  }

  lemma KilledNothingLeft(a: World, x: World, r: Readings, k: Key)
    requires Sound(a) && a.host.killActive && x == SyncedWorld(a, r) && x.host.killActive
    requires OnlyAddonDropped(a.host.requests, x.host.requests)
    ensures k !in x.Changes()
  {
    if k in x.host.requests {
      assert WellFormed(k, a.host.requests[k]);
    }
  }

  lemma ReleasedBySoftware(x: World, r: Readings) returns (b: World, v: World)
    requires DownBySoftware(x)
    ensures StepsTo(x, KillSwitch(false, 0), b) && StepsTo(b, Sync([KillSwitchKey], r), v)
    ensures Sound(b) && b.host.killActive && v == SyncedWorld(b, r) && Up(v)
  {
    b := HostStepWorld(x, KillSwitch(false, 0));
    ReleaseAskedOnly(x, b);
    v := SyncStep(b, [KillSwitchKey], r);
    LineReleasedIff(b.device, b.Changes());
  }

  lemma ReleaseAskedOnly(x: World, b: World)
    requires Sound(x) && x.host.killActive && x.Changes().Keys == {} && KillRequest(x) == KillSwitchSet(true)
    requires b == x.(host := HostStep(x.host, KillSwitch(false, 0))) && Sound(b)
    ensures b.Changes().Keys == {KillSwitchKey} && IsMerge(b.Changes(), [KillSwitchKey]) && KillRequest(b) == KillSwitchSet(false)
    ensures b.host.killActive
  {
    InsertSound(x.host, KillSwitchKey, KillSwitchSet(false), 0);
    assert WellFormed(KillSwitchKey, x.host.requests[KillSwitchKey]);
    forall k ensures k in b.Changes() <==> k == KillSwitchKey {
      assert k !in x.Changes().Keys;
    }
    var order := [KillSwitchKey];
    assert forall k :: k in order <==> k in b.Changes();
  }

  /** From reset: a motor command, a kill and a release by software; the next message commands the motor
      again. */
  lemma ResumedFromReset(r: Readings) returns (steps: seq<Step>, v: World)
    ensures IsRun(StartWorld(RESET_BRIDGE, 0), steps, v) && Up(v)
    ensures MotorKey(Left) in v.Changes()
  {
    var first, w := DrivingFromReset(r);
    var second;
    second, v := ResumedAfterRelease(w, Left, r);
    RunAppend(StartWorld(RESET_BRIDGE, 0), first, w, second, v);
    steps := first + second;
  }
}
