/**
 The main results about the command pipeline: sending differences is as good as sending everything,
 and nothing moves in the packet that finds the robot killed; each with the exact case in which the
 code breaks it.
 */
module SafetyResults {
  import opened Protocol
  import opened DataHolders
  import opened HostInterface
  import opened BridgeFirmware
  import opened Synchronisation
  import opened Exchange
  import opened Runs

  function KillRequest(w: World): Command
    requires KillSwitchKey in w.host.requests
    requires exists c :: Fits(KillSwitchKey, c) && w.host.requests[KillSwitchKey].wire == Encode(c)
  {
    CommandOf(KillSwitchKey, w.host.requests[KillSwitchKey])
  }

  /** While the server believes the line is up, its kill-switch request is the remembered INACTIVE,
      and only the slack byte can make it be sent again. */
  lemma ResentIffSlackDiffers(w: World)
    requires Sound(w) && !w.host.killActive
    ensures KillRequest(w) == KillSwitchSet(false)
    ensures KillSwitchKey in w.Changes()
       <==> w.host.requests[KillSwitchKey].slack != w.previous[KillSwitchKey].slack
  {
    var now, before := w.host.requests[KillSwitchKey], w.previous[KillSwitchKey];
    assert WellFormed(KillSwitchKey, now) && WellFormed(KillSwitchKey, before);
    assert InStep(w.previous, w.device, KillSwitchKey);
    assert CommandOf(KillSwitchKey, before) == KillSwitchSet(false);
    assert now.wire == before.wire;
  }

  /** Never sent, or not as it is now. */
  predicate New(w: World, k: Key) {
    k in w.host.requests && (k !in w.previous || w.previous[k] != w.host.requests[k])
  }

  lemma KilledSendsNoDependent(w: World)
    requires AllWellFormed(w.host.requests) && w.host.killActive
    ensures forall k | k in w.Changes() :: !Dependent(k)
    ensures forall k :: k in w.Changes() <==> (k == KillSwitchKey || k == LcdKey) && New(w, k)
  {
    forall k | k in w.Changes() ensures !Dependent(k) {
      assert WellFormed(k, w.host.requests[k]);
    }
  }

  /** A message carries INACTIVE next to a command for a dependent device exactly when the server
      believes the line is up and the repeated INACTIVE differs in its slack byte. */
  lemma MixedMessageIff(w: World)
    requires Sound(w)
    ensures KillSwitchKey in w.Changes() && KillRequest(w) == KillSwitchSet(false)
            && (exists k :: Dependent(k) && k in w.Changes())
       <==> !w.host.killActive && w.host.requests[KillSwitchKey].slack != w.previous[KillSwitchKey].slack
            && (exists k :: Dependent(k) && k in w.Changes())
  {
    if !w.host.killActive {
      ResentIffSlackDiffers(w);
    } else {
      KilledSendsNoDependent(w);
    }
  }

  /** An active line comes up in a message only by an INACTIVE in it, with no button down. */
  lemma LineReleasedIff(d: Device, diff: map<Key, Holder>)
    requires AllWellFormed(diff) && d.Active()
    ensures !Delivered(d, diff).Active()
       <==> !d.pressed && KillSwitchKey in diff && CommandOf(KillSwitchKey, diff[KillSwitchKey]) == KillSwitchSet(false)
  {
  }

  lemma {:induction false} OnlyReleasedByInactive(s: Session, cs: seq<Command>, r: Readings)
    requires s.device.Active()
    ensures s.device.pressed ==> PerformAll(s, cs, r).device.Active() && PerformAll(s, cs, r).device.pressed
    ensures PerformAll(s, cs, r).device.Active() || KillSwitchSet(false) in cs
    decreases |cs|
  {
    if cs != [] {
      var t := Perform(s, cs[0], r);
      if t.device.Active() {
        OnlyReleasedByInactive(t, cs[1..], r);
      } else {
        assert cs[0] == KillSwitchSet(false);
      }
    }
  }

  lemma {:induction false} InactiveParsed(data: seq<Byte>, pos: nat)
    requires |data| == BUFFER_SIZE && KillSwitchSet(false) in ParseFrom(data, pos).commands
    ensures exists i :: pos <= i < PACKET_SIZE && data[i] == SET_KILLSWITCH && data[i + 1] == 0
    decreases BUFFER_SIZE - pos
  {
    match ItemAt(data, pos)
    case Run(c, size) =>
      if c != KillSwitchSet(false) {
        assert ParseFrom(data, pos).commands == [c] + ParseFrom(data, pos + size).commands;
        InactiveParsed(data, pos + size);
      }
    case Skip => InactiveParsed(data, pos + 1);
    case _ =>
  }

  /** Whatever bytes a packet holds: it lets an active line up only if no button is down and it holds a
      SET_KILLSWITCH followed by zero. */
  lemma AnyPacketFailsSafe(d: Device, packet: seq<Byte>, r: Readings)
    requires |packet| == PACKET_SIZE && d.Active() && !RunPacket(d, packet, r).Crashed?
    ensures RunPacket(d, packet, r).device.Active()
         || (!d.pressed && exists i :: 0 <= i < PACKET_SIZE && packet[i] == SET_KILLSWITCH && (packet + [0])[i + 1] == 0)
  {
    var cs := ParseFrom(packet + [0], 0).commands;
    OnlyReleasedByInactive(Session(d, []), cs, r);
    if KillSwitchSet(false) in cs {
      InactiveParsed(packet + [0], 0);
    }
  }

  /** If a packet finds the line active, a dependent device moves in it exactly in a stale release
      that has something for such a device. In every other case the first command that reaches a
      dependent device after a release comes in a later packet, after the reply that reported it. */
  lemma MovesWhileKilledIff(w: World, r: Readings)
    requires Sound(w) && w.device.Active()
    ensures (exists k :: Dependent(k) && k in SyncedWorld(w, r).device.regs)
       <==> StaleRelease(w) && (exists k :: Dependent(k) && k in w.Changes())
  {
    var diff := w.Changes();
    var d := Delivered(w.device, diff);
    LineReleasedIff(w.device, diff);
    if !w.host.killActive {
      ResentIffSlackDiffers(w);
    } else {
      KilledSendsNoDependent(w);
    }
    if k :| Dependent(k) && k in d.regs {
      DeliveredAt(w.device, diff, k);
      assert k in diff;
    }
    if StaleRelease(w) {
      if k :| Dependent(k) && k in diff {
        DeliveredAt(w.device, diff, k);
        assert k in d.regs;
      }
    }
  }

  /** A robot killed by hardware stays killed by any message of a server that does not know yet and
      does not resend its INACTIVE; sending the whole map instead would release it. */
  lemma FullResendWouldRelease(w: World)
    requires Sound(w) && !w.host.killActive && w.device.Active() && !w.device.pressed
    requires KillSwitchKey !in w.Changes()
    ensures Delivered(w.device, w.Changes()).Active()
    ensures !Delivered(w.device, w.host.requests).Active()
  {
    ResentIffSlackDiffers(w);
    LineReleasedIff(w.device, w.Changes());
    LineReleasedIff(w.device, w.host.requests);
  }

  // ---- Differences against everything ----

  ghost predicate RegistersMatch(requests: map<Key, Holder>, d: Device)
    requires AllWellFormed(requests)
  {
    forall k | k in requests :: InStep(requests, d, k)
  }

  lemma UnchangedInStep(w: World, k: Key)
    requires Sound(w) && Coherent(w) && !w.host.killActive && !w.device.Active()
    requires k in w.host.requests && k !in w.Changes()
    ensures k in w.previous && InStep(w.host.requests, w.device, k)
  {
    assert WellFormed(k, w.host.requests[k]);
    assert InStep(w.previous, w.device, k);
  }

  /** All but what the joints of the arm were told last. */
  predicate SameButArm(a: Device, b: Device) { a.(arm := UNTOLD) == b.(arm := UNTOLD) }

  /** With the line up and believed up, sending the differences leaves in every register the request of
      the map, and line and registers exactly as if the whole map had been sent. */
  lemma DifferentialIsFull(w: World)
    requires Sound(w) && Coherent(w) && !w.host.killActive && !w.device.Active()
    ensures RegistersMatch(w.host.requests, Delivered(w.device, w.Changes()))
    ensures SameButArm(Delivered(w.device, w.Changes()), Delivered(w.device, w.host.requests))
  {
    DifferencesMatch(w);
    LineUnchanged(w);
    forall k ensures SameAt(Delivered(w.device, w.Changes()), Delivered(w.device, w.host.requests), k) {
      FullSameAt(w, k);
    }
    SameRegs(Delivered(w.device, w.Changes()), Delivered(w.device, w.host.requests));
  }

  lemma DifferencesMatch(w: World)
    requires Sound(w) && Coherent(w) && !w.host.killActive && !w.device.Active()
    ensures RegistersMatch(w.host.requests, Delivered(w.device, w.Changes()))
  {
    LineUnchanged(w);
    forall k | k in w.host.requests ensures InStep(w.host.requests, Delivered(w.device, w.Changes()), k) {
      DeliveredAt(w.device, w.Changes(), k);
      if k !in w.Changes() {
        UnchangedInStep(w, k);
      }
    }
  }

  /** No message of a server that believes the line up changes a line that is up. */
  lemma LineUnchanged(w: World)
    requires Up(w)
    ensures KillSwitchApplied(w.device, w.Changes()).(regs := w.device.regs) == w.device
    ensures KillSwitchApplied(w.device, w.host.requests).(regs := w.device.regs) == w.device
    ensures !Delivered(w.device, w.Changes()).Active() && !Delivered(w.device, w.host.requests).Active()
  {
    ResentIffSlackDiffers(w);
  }

  lemma FullSameAt(w: World, k: Key)
    requires Sound(w) && Coherent(w) && !w.host.killActive && !w.device.Active()
    ensures SameAt(Delivered(w.device, w.Changes()), Delivered(w.device, w.host.requests), k)
  {
    LineUnchanged(w);
    DeliveredAt(w.device, w.Changes(), k);
    DeliveredAt(w.device, w.host.requests, k);
    if k in w.host.requests && k !in w.Changes() {
      UnchangedInStep(w, k);
    }
  }

  /** Whether a joint was last told what the whole map would tell it. Of a BRAKE or CALIBRATE left
      out of the message it must have been the last to hear; so must it of its own request, if the map
      holds neither. */
  ghost predicate ToldAsInFull(w: World, j: Joint)
    requires Sound(w)
  {
    var told := w.device.arm.At(j);
    if AddonKey in w.host.requests then
      || AddonKey in w.Changes()
      || (ArmKey(j) !in w.Changes() && told == Told(CommandOf(AddonKey, w.host.requests[AddonKey])))
    else
      || ArmKey(j) in w.Changes() || ArmKey(j) !in w.host.requests
      || told == Told(CommandOf(ArmKey(j), w.host.requests[ArmKey(j)]))
  }

  /** The differences leave a joint with the last command that the whole map would leave it with exactly
      under that condition. */
  lemma JointAsFullIff(w: World, j: Joint)
    requires Up(w)
    ensures Delivered(w.device, w.Changes()).arm.At(j) == Delivered(w.device, w.host.requests).arm.At(j)
       <==> ToldAsInFull(w, j)
  {
    LineUnchanged(w);
    ToldIff(w.device.arm, w.host.requests, w.Changes(), j);
  }

  lemma ToldIff(arm: Arm, all: map<Key, Holder>, some: map<Key, Holder>, j: Joint)
    requires AllWellFormed(all) && AllWellFormed(some)
    requires forall k | k in some :: k in all && some[k] == all[k]
    ensures LastTold(arm, some, j) == LastTold(arm, all, j)
       <==> if AddonKey in all then
              AddonKey in some || (ArmKey(j) !in some && arm.At(j) == Told(CommandOf(AddonKey, all[AddonKey])))
            else ArmKey(j) in some || ArmKey(j) !in all || arm.At(j) == Told(CommandOf(ArmKey(j), all[ArmKey(j)]))
  {
    assert AddonKey in all ==> WellFormed(AddonKey, all[AddonKey]);
    assert ArmKey(j) in some ==> WellFormed(ArmKey(j), some[ArmKey(j)]);
  }

  lemma SameRegs(a: Device, b: Device)
    requires forall k :: SameAt(a, b, k)
    ensures a.regs == b.regs
  {
    assert forall k :: (k in a.regs <==> k in b.regs) by {
      forall k ensures k in a.regs <==> k in b.regs { assert SameAt(a, b, k); }
    }
    forall k | k in a.regs ensures a.regs[k] == b.regs[k] { assert SameAt(a, b, k); }
  }

  /** After a synchronisation the dependent registers are what the server remembers, except after a
      stale release that left a dependent request unsent. */
  lemma CoherentAfterSyncIff(w: World, r: Readings)
    requires Sound(w) && Coherent(w) && Sound(SyncedWorld(w, r))
    ensures Coherent(SyncedWorld(w, r))
       <==> !StaleRelease(w) || forall k | k in w.host.requests && Dependent(k) :: k in w.Changes()
  {
    if w.host.killActive {
      KilledCoherent(w, r);
    } else if !w.device.Active() {
      ReleasedCoherent(w, r);
    } else {
      ActiveCoherentIff(w, r);
    }
  }

  lemma KilledCoherent(w: World, r: Readings)
    requires Sound(w) && w.host.killActive && Sound(SyncedWorld(w, r))
    ensures Coherent(SyncedWorld(w, r))
  {
    forall k | k in SyncedWorld(w, r).previous ensures !Dependent(k) {
      assert WellFormed(k, w.host.requests[k]);
    }
  }

  lemma ReleasedCoherent(w: World, r: Readings)
    requires Sound(w) && Coherent(w) && !w.host.killActive && !w.device.Active() && Sound(SyncedWorld(w, r))
    ensures Coherent(SyncedWorld(w, r))
  {
    var v := SyncedWorld(w, r);
    DifferentialIsFull(w);
    forall k | k in v.previous ensures InStep(v.previous, v.device, k) {
      assert InStep(w.host.requests, v.device, k);
    }
  }

  lemma ActiveCoherentIff(w: World, r: Readings)
    requires Sound(w) && !w.host.killActive && w.device.Active() && Sound(SyncedWorld(w, r))
    ensures Coherent(SyncedWorld(w, r))
       <==> !StaleRelease(w) || forall k | k in w.host.requests && Dependent(k) :: k in w.Changes()
  {
    StaleIffReleased(w, r);
    if StaleRelease(w) {
      forall k | k in SyncedWorld(w, r).previous && Dependent(k)
        ensures InStep(SyncedWorld(w, r).previous, SyncedWorld(w, r).device, k) <==> k in w.Changes()
      {
        StaleInStepIff(w, r, k);
      }
    }
  }

  lemma StaleIffReleased(w: World, r: Readings)
    requires Sound(w) && !w.host.killActive && w.device.Active()
    ensures !SyncedWorld(w, r).device.Active() <==> StaleRelease(w)
  {
    LineReleasedIff(w.device, w.Changes());
    ResentIffSlackDiffers(w);
  }

  lemma StaleInStepIff(w: World, r: Readings, k: Key)
    requires Sound(w) && StaleRelease(w) && Sound(SyncedWorld(w, r)) && !SyncedWorld(w, r).device.Active()
    requires Dependent(k) && k in SyncedWorld(w, r).previous
    ensures InStep(SyncedWorld(w, r).previous, SyncedWorld(w, r).device, k) <==> k in w.Changes()
  {
    DeliveredAt(w.device, w.Changes(), k);
    assert k !in w.device.regs;
  }

  /** A press too short for the main loop to see resets a device whose request the server still takes
      for delivered, exactly if there is one. */
  lemma ShortPressCoherentIff(w: World)
    requires Sound(w) && ShortPress(w.device, Unpress)
    ensures Next(w, Unpress).Synced? && Sound(Next(w, Unpress).world)
    ensures Coherent(Next(w, Unpress).world) <==> forall k | k in w.previous :: !Dependent(k)
  {
    NextSound(w, Unpress);
    var v := Next(w, Unpress).world;
    if k :| k in w.previous && Dependent(k) {
      assert !InStep(v.previous, v.device, k);
    }
  }

  /** The two steps that part robot and memory. */
  ghost predicate Unclean(w: World, s: Step)
    requires Sound(w)
  {
    (s.Sync? && StaleRelease(w)) || ShortPress(w.device, s)
  }

  lemma NextCoherent(w: World, s: Step)
    requires Sound(w) && Coherent(w) && Enabled(w, s) && !Unclean(w, s)
    ensures Next(w, s).Synced? && Sound(Next(w, s).world) && Coherent(Next(w, s).world)
  {
    NextSound(w, s);
    if s.Sync? {
      SyncExact(w, s.order, s.readings);
      CoherentAfterSyncIff(w, s.readings);
    } else {
      DeviceStepSound(w.device, s);
      forall k | k in w.previous && Dependent(k) && !Next(w, s).world.device.Active()
        ensures InStep(w.previous, Next(w, s).world.device, k)
      {
        assert InStep(w.previous, w.device, k);
      }
    }
  }

  /** A run without a stale release or a short press. */
  ghost predicate IsCleanRun(w: World, steps: seq<Step>, v: World)
    requires Sound(w)
    decreases |steps|
  {
    if steps == [] then v == w
    else
      && Enabled(w, steps[0]) && !Unclean(w, steps[0])
      && (NextSound(w, steps[0]); IsCleanRun(Next(w, steps[0]).world, steps[1..], v))
  }

  lemma {:induction false} CleanRunCoherent(w: World, steps: seq<Step>, v: World)
    requires Sound(w) && Coherent(w) && IsCleanRun(w, steps, v)
    ensures Sound(v) && Coherent(v)
    decreases |steps|
  {
    if steps != [] {
      NextCoherent(w, steps[0]);
      CleanRunCoherent(Next(w, steps[0]).world, steps[1..], v);
    }
  }

  /** Over every clean run from a starting server, through the bytes: a synchronisation made with the
      line up and believed up leaves line and registers as if the whole request map had been sent, and
      a joint of the arm with the same last command exactly if it is told as in a full message. */
  lemma DifferentialSyncRefinesFullSync(d: Device, slack: Byte, steps: seq<Step>, w: World, order: seq<Key>, r: Readings)
    requires DeviceSound(d) && Sound(StartWorld(d, slack)) && IsCleanRun(StartWorld(d, slack), steps, w)
    requires !w.host.killActive && !w.device.Active() && IsMerge(w.Changes(), order)
    ensures Sound(w) && AfterSync(w, order, r).Synced?
    ensures RegistersMatch(w.host.requests, AfterSync(w, order, r).world.device)
    ensures SameButArm(AfterSync(w, order, r).world.device, Delivered(w.device, w.host.requests))
    ensures forall j :: AfterSync(w, order, r).world.device.arm.At(j) == Delivered(w.device, w.host.requests).arm.At(j)
                   <==> ToldAsInFull(w, j)
  {
    StartSound(d, slack);
    CleanRunCoherent(StartWorld(d, slack), steps, w);
    SyncExact(w, order, r);
    assert AfterSync(w, order, r).world.device == Delivered(w.device, w.Changes());
    DifferentialIsFull(w);
    forall j
      ensures Delivered(w.device, w.Changes()).arm.At(j) == Delivered(w.device, w.host.requests).arm.At(j)
         <==> ToldAsInFull(w, j)
    {
      JointAsFullIff(w, j);
    }
  }

  // ---- What the server believes ----

  /** Whether the last thing the server heard or said about the line is a reply that it is up. */
  ghost function Heard(heard: bool, w: World, s: Step): bool
    requires Enabled(w, s) && Next(w, s).Synced?
  {
    if s == KillSwitch(true, if s.KillSwitch? then s.slack else 0) then false
    else if s.Sync? then !Next(w, s).world.device.Active()
    else heard
  }

  ghost function HeardInRun(heard: bool, w: World, steps: seq<Step>, v: World): bool
    requires IsRun(w, steps, v)
    decreases |steps|
  {
    if steps == [] then heard
    else HeardInRun(Heard(heard, w, steps[0]), Next(w, steps[0]).world, steps[1..], v)
  }

  /** Commands for dependent devices go out only if the last reply reported the line up and no
      activation was asked for since. */
  lemma {:induction false} BeliefIsLastReport(w: World, steps: seq<Step>, v: World, heard: bool)
    requires Sound(w) && IsRun(w, steps, v) && heard == !w.host.killActive
    ensures HeardInRun(heard, w, steps, v) == !v.host.killActive
    ensures !HeardInRun(heard, w, steps, v) ==> forall k | k in v.Changes() :: !Dependent(k)
    decreases |steps|
  {
    if steps == [] {
      if w.host.killActive {
        KilledSendsNoDependent(w);
      }
    } else {
      var s := steps[0];
      NextSound(w, s);
      if s.Sync? {
        SyncExact(w, s.order, s.readings);
        SyncedHost(w, s.readings);
      } else {
        HostStepSound(w.host, s);
      }
      BeliefIsLastReport(Next(w, s).world, steps[1..], v, Heard(heard, w, s));
    }
  }

  // ---- The breaking cases are real ----

  const RESET_BRIDGE := Device(true, false, true, false, map[], UNTOLD)

  lemma RunCons(w: World, s: Step, u: World, tail: seq<Step>, v: World)
    requires StepsTo(w, s, u) && IsRun(u, tail, v)
    ensures IsRun(w, [s] + tail, v)
  {
    assert ([s] + tail)[1..] == tail;
  }

  /** A synchronisation as a step of a run. */
  lemma SyncStep(w: World, order: seq<Key>, r: Readings) returns (v: World)
    requires Sound(w) && IsMerge(w.Changes(), order)
    ensures StepsTo(w, Sync(order, r), v) && v == SyncedWorld(w, r)
    ensures Sound(v) && v.host.killActive == v.device.Active() && OnlyAddonDropped(w.host.requests, v.host.requests)
  {
    v := SyncedWorld(w, r);
    assert StepsTo(w, Sync(order, r), v) by {
      SyncExact(w, order, r);
    }
    SyncSound(w, r);
    SyncedHost(w, r);
  }

  lemma HostStepWorld(w: World, s: Step) returns (v: World)
    requires Sound(w) && (s.KillSwitch? || s.MotorSpeed?)
    ensures StepsTo(w, s, v) && v == w.(host := HostStep(w.host, s)) && Sound(v)
  {
    NextSound(w, s);
    v := w.(host := HostStep(w.host, s));
  }

  lemma DeviceStepWorld(w: World, s: Step) returns (v: World)
    requires Sound(w) && (s.Press? || s.PollHardware? || s.Unpress?)
    ensures StepsTo(w, s, v) && v == w.(device := DeviceStep(w.device, s)) && Sound(v)
  {
    NextSound(w, s);
    v := w.(device := DeviceStep(w.device, s));
  }

  lemma {:induction false} RunAppend(w: World, first: seq<Step>, u: World, second: seq<Step>, v: World)
    requires IsRun(w, first, u) && IsRun(u, second, v)
    ensures IsRun(w, first + second, v)
    decreases |first|
  {
    if first == [] {
      assert first + second == second;
    } else {
      RunAppend(Next(w, first[0]).world, first[1..], u, second, v);
      RunCons(w, first[0], Next(w, first[0]).world, first[1..] + second, v);
      assert first + second == [first[0]] + (first[1..] + second);
    }
  }

  lemma TwoSteps(w: World, a: Step, x: World, b: Step, v: World) returns (steps: seq<Step>)
    requires StepsTo(w, a, x) && StepsTo(x, b, v)
    ensures steps == [a, b] && IsRun(w, steps, v)
  {
    RunCons(x, b, v, [], v);
    RunCons(w, a, x, [b] + [], v);
    steps := [a] + ([b] + []);
  }

  /** A server that was told INACTIVE once and repeats it after a button was pushed and let go: the
      run ends in a stale release with a motor request waiting in the same message. */
  lemma StaleReleaseReachable(r: Readings) returns (steps: seq<Step>, w: World)
    ensures IsRun(StartWorld(RESET_BRIDGE, 0), steps, w) && Sound(w)
    ensures StaleRelease(w) && MotorKey(Left) in w.Changes()
  {
    var asked, released := ReleasedWorld(r);
    var tail;
    tail, w := PressedRun(released);
    RunCons(asked, Sync([KillSwitchKey], r), released, tail, w);
    steps := [KillSwitch(false, 0)] + ([Sync([KillSwitchKey], r)] + tail);
    RunCons(StartWorld(RESET_BRIDGE, 0), KillSwitch(false, 0), asked, [Sync([KillSwitchKey], r)] + tail, w);
  }

  /** The world after the first INACTIVE has been sent and answered. */
  lemma ReleasedWorld(r: Readings) returns (asked: World, w: World)
    ensures StepsTo(StartWorld(RESET_BRIDGE, 0), KillSwitch(false, 0), asked) && StepsTo(asked, Sync([KillSwitchKey], r), w)
    ensures FirstReleased(w) && Sound(asked) && w == SyncedWorld(asked, r) && !asked.host.calibration.InProgress?
  {
    asked := AskedWorld();
    w := SyncStep(asked, [KillSwitchKey], r);
    AskedReleases(asked, r);
    AskedRemembered(asked, w, r);
  }

  ghost predicate OnlyKillSwitchKnown(w: World) {
    && w.host.requests.Keys == {KillSwitchKey} && w.previous.Keys == {KillSwitchKey}
    && w.previous[KillSwitchKey] == w.host.requests[KillSwitchKey]
  }

  ghost predicate FirstReleased(w: World) {
    Up(w) && OnlyKillSwitchKnown(w) && MotorKey(Left) !in w.previous && w.previous[KillSwitchKey].slack == 0
  }

  lemma AskedRemembered(asked: World, w: World, r: Readings)
    requires AllWellFormed(asked.host.requests) && asked.host.requests.Keys == {KillSwitchKey} && w == SyncedWorld(asked, r)
    requires asked.host.requests[KillSwitchKey] == HolderFor(KillSwitchKey, KillSwitchSet(false), 0)
    requires OnlyAddonDropped(asked.host.requests, w.host.requests)
    ensures OnlyKillSwitchKnown(w) && w.previous[KillSwitchKey].slack == 0
  {
    OnlyKillSwitch(asked.host.requests, w.host.requests);
  }

  lemma AskedWorld() returns (asked: World)
    ensures StepsTo(StartWorld(RESET_BRIDGE, 0), KillSwitch(false, 0), asked) && Sound(asked)
    ensures asked.host.requests.Keys == {KillSwitchKey} && asked.host.killActive && asked.device == RESET_BRIDGE
    ensures asked.host.requests[KillSwitchKey] == HolderFor(KillSwitchKey, KillSwitchSet(false), 0)
    ensures asked.Changes().Keys == {KillSwitchKey} && IsMerge(asked.Changes(), [KillSwitchKey])
    ensures !asked.host.calibration.InProgress?
  {
    var start := StartWorld(RESET_BRIDGE, 0);
    StartSound(RESET_BRIDGE, 0);
    asked := HostStepWorld(start, KillSwitch(false, 0));
    AskedChanges(start, asked);
  }

  lemma AskedChanges(start: World, asked: World)
    requires start == StartWorld(RESET_BRIDGE, 0) && Sound(asked)
    requires asked == start.(host := HostStep(start.host, KillSwitch(false, 0)))
    ensures asked.host.requests.Keys == {KillSwitchKey} && asked.host.killActive && asked.device == RESET_BRIDGE
    ensures asked.host.requests[KillSwitchKey] == HolderFor(KillSwitchKey, KillSwitchSet(false), 0)
    ensures asked.Changes().Keys == {KillSwitchKey} && IsMerge(asked.Changes(), [KillSwitchKey])
  {
    var order := [KillSwitchKey];
    assert forall k :: k in order <==> k in asked.Changes();
  }

  lemma AskedReleases(asked: World, r: Readings)
    requires Sound(asked) && asked.device == RESET_BRIDGE && KillSwitchKey in asked.Changes()
    requires asked.host.requests[KillSwitchKey] == HolderFor(KillSwitchKey, KillSwitchSet(false), 0)
    ensures !SyncedWorld(asked, r).device.Active()
  {
    InsertSound(asked.host, KillSwitchKey, KillSwitchSet(false), 0);
    LineReleasedIff(asked.device, asked.Changes());
  }

  lemma OnlyKillSwitch(before: map<Key, Holder>, after: map<Key, Holder>)
    requires OnlyAddonDropped(before, after) && before.Keys == {KillSwitchKey}
    ensures after == before
  {
  }

  /** A button pushed, seen and let go, then one motor request and a repeated INACTIVE. */
  lemma PressedRun(w: World) returns (steps: seq<Step>, v: World)
    requires Up(w)
    requires MotorKey(Left) !in w.previous && w.previous[KillSwitchKey].slack == 0
    ensures IsRun(w, steps, v) && Sound(v) && StaleRelease(v) && MotorKey(Left) in v.Changes()
  {
    var a := WithdrawnWorld(w);
    var tail;
    tail, v := RequestedRun(a);
    steps := PressedTail(w, a, tail, v);
  }

  lemma RequestedRun(w: World) returns (steps: seq<Step>, v: World)
    requires Sound(w) && !w.host.killActive && w.device.Active() && !w.device.pressed
    requires MotorKey(Left) !in w.previous && w.previous[KillSwitchKey].slack == 0
    ensures IsRun(w, steps, v) && Sound(v) && StaleRelease(v) && MotorKey(Left) in v.Changes()
  {
    var speed, again := MotorSpeed(Left, 5, 0), KillSwitch(false, 1);
    var u := w.(host := HostStep(w.host, speed));
    NextSound(w, speed);
    HostStepSound(w.host, speed);
    v := u.(host := HostStep(u.host, again));
    NextSound(u, again);
    RunCons(u, again, v, [], v);
    steps := [speed] + ([again] + []);
    RunCons(w, speed, u, [again] + [], v);
  }

  // ---- A delivered request that is lost ----

  /** In any world that has just been synchronised: a press, seen and let go before the server hears of
      it, and INACTIVE asked for again with another byte behind it. The next synchronisation releases the
      robot without the request `k`, and no later one brings it back: it counts as delivered. */
  lemma DeliveredRequestLost(w: World, k: Key, slack: Byte, r: Readings) returns (steps: seq<Step>, u: World, v: World)
    requires Up(w) && w.Changes().Keys == {}
    requires Dependent(k) && k != AddonKey && k in w.host.requests && slack != w.previous[KillSwitchKey].slack
    ensures IsRun(w, steps, u) && StepsTo(u, Sync([], r), v)
    ensures Up(u) && !RegistersMatch(u.host.requests, u.device)
    ensures Up(v) && k in v.host.requests && k !in v.device.regs && !RegistersMatch(v.host.requests, v.device)
  {
    var a := WithdrawnWorld(w);
    var b := HostStepWorld(a, KillSwitch(false, slack));
    ResentOnly(a, slack);
    u := StaleSync(b, k, r);
    v := IdleSync(u, k, r);
    RunCons(b, Sync([KillSwitchKey], r), u, [], u);
    var last := [Sync([KillSwitchKey], r)] + [];
    RunCons(a, KillSwitch(false, slack), b, last, u);
    var tail := [KillSwitch(false, slack)] + last;
    steps := PressedTail(w, a, tail, u);
  }

  /** A button pushed, seen by the bridge, and let go. */
  function Withdrawn(w: World): World {
    w.(device := DeviceStep(DeviceStep(DeviceStep(w.device, Press), PollHardware), Unpress))
  }

  lemma WithdrawnWorld(w: World) returns (a: World)
    requires Up(w)
    ensures a == Withdrawn(w) && Sound(a) && a.device.Active() && !a.device.pressed
  {
    var x := DeviceStepWorld(w, Press);
    var y := DeviceStepWorld(x, PollHardware);
    a := DeviceStepWorld(y, Unpress);
  }

  lemma PressedTail(w: World, a: World, tail: seq<Step>, u: World) returns (steps: seq<Step>)
    requires SpeedsLegal(w.host) && a == Withdrawn(w) && IsRun(a, tail, u)
    ensures IsRun(w, steps, u)
  {
    var x := w.(device := DeviceStep(w.device, Press));
    var y := x.(device := DeviceStep(x.device, PollHardware));
    RunCons(y, Unpress, a, tail, u);
    RunCons(x, PollHardware, y, [Unpress] + tail, u);
    steps := [Press] + ([PollHardware] + ([Unpress] + tail));
    RunCons(w, Press, x, [PollHardware] + ([Unpress] + tail), u);
  }

  lemma ResentOnly(a: World, slack: Byte)
    requires Sound(a) && !a.host.killActive && a.Changes().Keys == {} && slack != a.previous[KillSwitchKey].slack
    ensures var b := a.(host := HostStep(a.host, KillSwitch(false, slack)));
      b.Changes().Keys == {KillSwitchKey} && IsMerge(b.Changes(), [KillSwitchKey])
  {
    var b := a.(host := HostStep(a.host, KillSwitch(false, slack)));
    forall k ensures k in b.Changes() <==> k == KillSwitchKey {
      assert k in a.Changes() <==> k in a.host.requests && (k !in a.previous || a.previous[k] != a.host.requests[k]);
    }
    var order := [KillSwitchKey];
    assert forall k :: k in order <==> k in b.Changes();
  }

  lemma StaleSync(b: World, k: Key, r: Readings) returns (u: World)
    requires Sound(b) && StaleRelease(b) && b.Changes().Keys == {KillSwitchKey} && IsMerge(b.Changes(), [KillSwitchKey])
    requires Dependent(k) && k != AddonKey && k in b.host.requests
    ensures StepsTo(b, Sync([KillSwitchKey], r), u)
    ensures Up(u) && u.Changes().Keys == {}
    ensures k in u.host.requests && k !in u.device.regs
  {
    u := SyncStep(b, [KillSwitchKey], r);
    StaleSyncReleases(b, r);
    NotSentNotThere(b, k, r);
    NothingLeft(b, r);
  }

  lemma StaleSyncReleases(b: World, r: Readings)
    requires Sound(b) && StaleRelease(b)
    ensures !SyncedWorld(b, r).host.killActive && !SyncedWorld(b, r).device.Active()
  {
    SyncedHost(b, r);
    ResentIffSlackDiffers(b);
    LineReleasedIff(b.device, b.Changes());
  }

  /** A wiped register stays empty in a message that does not carry its request. */
  lemma NotSentNotThere(b: World, k: Key, r: Readings)
    requires Sound(b) && b.device.Active() && !SyncedWorld(b, r).device.Active()
    requires Dependent(k) && k != AddonKey && k in b.host.requests && k !in b.Changes()
    ensures k in SyncedWorld(b, r).host.requests && k !in SyncedWorld(b, r).device.regs
  {
    SyncedHost(b, r);
    DeliveredAt(b.device, b.Changes(), k);
  }

  lemma NothingLeft(b: World, r: Readings)
    requires Sound(b) && !b.host.killActive && !SyncedWorld(b, r).host.killActive
    ensures SyncedWorld(b, r).Changes().Keys == {}
  {
    var v := SyncedWorld(b, r);
    SyncedHost(b, r);
    forall k | k in v.host.requests ensures k in v.previous && v.previous[k] == v.host.requests[k] {}
  }

  lemma IdleSync(u: World, k: Key, r: Readings) returns (v: World)
    requires Up(u) && u.Changes().Keys == {}
    requires Dependent(k) && k != AddonKey && k in u.host.requests && k !in u.device.regs
    ensures StepsTo(u, Sync([], r), v) && Up(v)
    ensures k in v.host.requests && k !in v.device.regs
  {
    var none: seq<Key> := [];
    assert IsMerge(u.Changes(), none);
    v := SyncStep(u, none, r);
    StaysReleased(u, r);
    DeliveredAt(u.device, u.Changes(), k);
  }

  lemma StaysReleased(u: World, r: Readings)
    requires Up(u)
    ensures !SyncedWorld(u, r).device.Active()
  {
    ResentIffSlackDiffers(u);
  }

  /** From reset: INACTIVE and a motor command, both delivered. */
  lemma DrivingFromReset(r: Readings) returns (steps: seq<Step>, w: World)
    ensures IsRun(StartWorld(RESET_BRIDGE, 0), steps, w)
    ensures Up(w) && w.Changes().Keys == {}
    ensures MotorKey(Left) in w.host.requests && w.previous[KillSwitchKey].slack == 0
  {
    var asked, released := ReleasedWorld(r);
    var moved;
    moved, w := DrivingWorld(released, r);
    var first := TwoSteps(StartWorld(RESET_BRIDGE, 0), KillSwitch(false, 0), asked, Sync([KillSwitchKey], r), released);
    var second := TwoSteps(released, MotorSpeed(Left, 5, 0), moved, Sync([MotorKey(Left)], r), w);
    RunAppend(StartWorld(RESET_BRIDGE, 0), first, released, second, w);
    steps := first + second;
  }

  /** Then a button pushed and let go, and INACTIVE again. The robot ends released, with its motor command
      lost for good. */
  lemma LostFromReset(r: Readings) returns (steps: seq<Step>, v: World)
    ensures IsRun(StartWorld(RESET_BRIDGE, 0), steps, v)
    ensures Up(v) && !RegistersMatch(v.host.requests, v.device)
    ensures MotorKey(Left) in v.host.requests && MotorKey(Left) !in v.device.regs
  {
    var first, driving := DrivingFromReset(r);
    var second, u;
    second, u, v := DeliveredRequestLost(driving, MotorKey(Left), 1, r);
    RunCons(u, Sync([], r), v, [], v);
    RunAppend(driving, second, u, [Sync([], r)] + [], v);
    RunAppend(StartWorld(RESET_BRIDGE, 0), first, driving, second + ([Sync([], r)] + []), v);
    steps := first + (second + ([Sync([], r)] + []));
  }

  /** In any world that has just been synchronised, a press too short to be seen takes a delivered request
      off the robot, and the next synchronisation does not notice. */
  lemma ShortPressLoses(w: World, k: Key, r: Readings) returns (u: World, v: World)
    requires Up(w) && w.Changes().Keys == {}
    requires Dependent(k) && k != AddonKey && k in w.host.requests
    ensures IsRun(w, [Press, Unpress], u) && StepsTo(u, Sync([], r), v)
    ensures Up(v) && k in v.host.requests && k !in v.device.regs && !RegistersMatch(v.host.requests, v.device)
  {
    var x := DeviceStepWorld(w, Press);
    u := DeviceStepWorld(x, Unpress);
    var steps := TwoSteps(w, Press, x, Unpress, u);
    v := IdleSync(u, k, r);
  }

  lemma ShortPressFromReset(r: Readings) returns (steps: seq<Step>, v: World)
    ensures IsRun(StartWorld(RESET_BRIDGE, 0), steps, v)
    ensures Up(v) && !RegistersMatch(v.host.requests, v.device)
    ensures MotorKey(Left) in v.host.requests && MotorKey(Left) !in v.device.regs
  {
    var first, driving := DrivingFromReset(r);
    var u;
    u, v := ShortPressLoses(driving, MotorKey(Left), r);
    RunCons(u, Sync([], r), v, [], v);
    RunAppend(driving, [Press, Unpress], u, [Sync([], r)] + [], v);
    RunAppend(StartWorld(RESET_BRIDGE, 0), first, driving, [Press, Unpress] + ([Sync([], r)] + []), v);
    steps := first + ([Press, Unpress] + ([Sync([], r)] + []));
  }

  /** One motor command, delivered. */
  lemma DrivingWorld(w: World, r: Readings) returns (moved: World, v: World)
    requires Up(w)
    requires OnlyKillSwitchKnown(w) && w.previous[KillSwitchKey].slack == 0
    ensures StepsTo(w, MotorSpeed(Left, 5, 0), moved) && StepsTo(moved, Sync([MotorKey(Left)], r), v)
    ensures Up(v) && v.Changes().Keys == {}
    ensures MotorKey(Left) in v.host.requests && v.previous[KillSwitchKey].slack == 0
  {
    moved := HostStepWorld(w, MotorSpeed(Left, 5, 0));
    MovedChanges(w, moved);
    v := SyncStep(moved, [MotorKey(Left)], r);
    StaysReleased(moved, r);
    NothingLeft(moved, r);
  }

  lemma MovedChanges(w: World, moved: World)
    requires Sound(w) && OnlyKillSwitchKnown(w) && !w.host.killActive
    requires moved == w.(host := AfterMotorSpeed(w.host, Left, 5, 0))
    ensures moved.Changes().Keys == {MotorKey(Left)} && IsMerge(moved.Changes(), [MotorKey(Left)])
    ensures moved.host.requests[KillSwitchKey] == w.host.requests[KillSwitchKey] && moved.host.killActive == w.host.killActive
  {
    var order := [MotorKey(Left)];
    assert forall k :: k in moved.Changes() <==> k == MotorKey(Left);
    assert forall k :: k in order <==> k in moved.Changes();
  }
}
