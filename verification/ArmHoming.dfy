/**
 What a calibration is for: where it leaves the joints, and that every position can then be gone to.
 */
module ArmHoming {
  import opened ArmJoints
  import opened ArmSafety

  /** The neutral ends: shoulder and gripper backward, elbow forward. */
  function Homeward(i: nat): Direction { if i == 1 then Forward else Backward }

  function HomeOf(j: Joint, i: nat): Byte { if i == 1 then j.maximum else 0 }

  /** The position stored at the end is that of the limit the joint was driven to before. */
  lemma HomesWhereDriven(s: Sys, inputs: Inputs, k: nat)
    requires s.at == Homing(k) && k < 3
    ensures var i := IndexOf(DirectMotor(Approaching(k)));
      && MainStep(s, inputs).arm.joints[i].position
         == (if DirectWay(Approaching(k), false) == Forward then s.arm.joints[i].maximum else 0)
      && forall n | 0 <= n < TABLE_SIZE && n != i :: MainStep(s, inputs).arm.joints[n] == s.arm.joints[n]
  {
  }

  /** A joint on a switch is first driven to its neutral end, since the switch may be the other one; if
      it still is on one, that is the neutral one, and it is driven off it; in the end all go there. */
  lemma WaysLeadHome(k: nat, closed: bool)
    requires k < 3
    ensures DirectWay(Freeing(k), closed) == Homeward(IndexOf(DirectMotor(Freeing(k))))
    ensures var home := Homeward(IndexOf(DirectMotor(Leaving(k))));
      DirectWay(Leaving(k), closed) == if closed then Opposite(home) else home
    ensures DirectWay(Approaching(k), closed) == Homeward(IndexOf(DirectMotor(Approaching(k))))
  {
  }

  /** No command but getters. */
  ghost predicate Undisturbed(events: seq<Event>) {
    forall k | 0 <= k < |events| :: events[k].Receive? ==> events[k].command.Get?
  }

  // ---- The way of one joint through a calibration ----

  function FreeOrder(i: nat): nat { if i == 1 then 0 else if i == 0 then 1 else 2 }

  function HomeOrder(i: nat): nat { if i == 0 then 0 else if i == 2 then 1 else 2 }

  /** Braked, and not driven since. */
  predicate Still(at: Point, i: nat) {
    match at
    case Braking(k, _) => i < k
    case Unlocking(_, _) => true
    case Clearing(_) => true
    case Freeing(k) => k <= FreeOrder(i)
    case Finishing => true
    case Idle => true
    case _ => false
  }

  predicate Unlocked(at: Point, i: nat) {
    match at
    case Braking(_, next) => next.ToDone?
    case Unlocking(k, stage) => i < k || (i == k && stage >= 1)
    case _ => true
  }

  /** It may be driven off its neutral end; no tick is processed then. */
  predicate Loose(at: Point, i: nat) {
    match at
    case Leaving(_) => true
    case Arming(phase) => phase == 2
    case Waiting(phase) => phase == 2
    case Approaching(k) => k <= HomeOrder(i)
    case _ => false
  }

  predicate Homed(at: Point, i: nat) {
    match at
    case Homing(k) => HomeOrder(i) < k
    case Parking(_) => true
    case Braking(_, next) => next.ToDone?
    case Finishing => true
    case Idle => true
    case _ => false
  }

  ghost predicate Homebound(at: Point, j: Joint, i: nat) {
    && (Still(at, i) ==> j.current == Stop && j.pin == Stop)
    && (Unlocked(at, i) ==> InBounds(j, i) && (j.current != Opposite(Homeward(i)) || Loose(at, i)))
    && (Homed(at, i) ==> j.position == HomeOf(j, i) || (i == 2 && j.position == j.maximum))
    && (at.Homing? || Homed(at, i) ==> j.calibrated)
  }

  /** Only the neutral end has been registered since, and the joint is there as long as it is held. */
  predicate InBounds(j: Joint, i: nat) {
    j.allowed == Both || (j.allowed == Opposite(Homeward(i)) && j.position == HomeOf(j, i))
  }

  predicate Begun(at: Point) {
    match at
    case Braking(_, next) => next.ToDone?
    case Unlocking(_, _) => false
    case Clearing(_) => false
    case _ => true
  }

  /** The flags of a calibration that no command interrupts ... */
  ghost predicate FlagsOfCalibration(s: Sys) {
    && !s.at.Failing? && (s.at.Braking? ==> !s.at.next.ToFail?)
    && (Begun(s.at) || s.at == Clearing(2) ==> !s.arm.interrupt)
    && (Begun(s.at) ==> !s.arm.start)
    && (s.at.Idle? ==> s.arm.calibrated)
  }

  /** ... and the whole of it. */
  ghost predicate Calibration(s: Sys) {
    Inv(s) && FlagsOfCalibration(s) && forall i | 0 <= i < 3 :: Homebound(s.at, s.arm.joints[i], i)
  }

  lemma TickedHomebound(at: Point, j: Joint, i: nat, inputs: Inputs)
    requires i < 3 && Safe(j) && Homebound(at, j, i) && !Loose(at, i)
    ensures Homebound(at, Ticked(j, i, inputs), i)
  {
    var k := Debounced(j, i, Switch(inputs, i));
    assert Homebound(at, k, i) && k.maximum == j.maximum;
    CountedHomebound(at, k, i, Level(inputs.encoders, i));
  }

  lemma CountedHomebound(at: Point, j: Joint, i: nat, encoder: bool)
    requires i < 3 && Safe(j) && Homebound(at, j, i) && !Loose(at, i)
    ensures Homebound(at, EdgeCounted(Sampled(j, i, encoder), i), i)
  {
  }

  lemma AddressedHomebound(at: Point, j: Joint, closed: bool)
    requires Directs(at) && Legal(at) && (at.Braking? ==> !at.next.ToFail?)
    requires Safe(j) && Homebound(at, j, IndexOf(DirectMotor(at)))
    ensures Homebound(DirectNext(at), Directed(j, DirectWay(at, closed), true), IndexOf(DirectMotor(at)))
    ensures at.Freeing? ==> Homebound(DirectNext(at), j, IndexOf(DirectMotor(at)))
  {
    match at
    case Braking(k, next) =>
    case Freeing(k) =>
    case Stopping(k) =>
    case Leaving(k) =>
    case Approaching(k) =>
  }

  lemma OtherHomebound(at: Point, j: Joint, i: nat)
    requires Directs(at) && Legal(at) && (at.Braking? ==> !at.next.ToFail?)
    requires i < 3 && i != IndexOf(DirectMotor(at)) && Homebound(at, j, i)
    ensures Homebound(DirectNext(at), j, i)
  {
    match at
    case Braking(k, next) =>
    case Freeing(k) =>
    case Stopping(k) =>
    case Leaving(k) =>
    case Approaching(k) =>
  }

  lemma DirectAt(s: Sys, inputs: Inputs, i: nat)
    requires Directs(s.at) && i < 3
    ensures var j, closed := s.arm.joints[i], Switch(inputs, i);
      DirectStep(s, inputs).arm.joints[i]
      == if i != IndexOf(DirectMotor(s.at)) || (s.at.Freeing? && !closed) then j
         else Directed(j, DirectWay(s.at, closed), true)
  {
  }

  lemma DirectHomebound(s: Sys, inputs: Inputs, i: nat)
    requires Calibration(s) && Directs(s.at) && i < 3
    ensures Homebound(DirectStep(s, inputs).at, DirectStep(s, inputs).arm.joints[i], i)
  {
    assert Homebound(s.at, s.arm.joints[i], i) && Safe(s.arm.joints[i]);
    DirectAt(s, inputs, i);
    assert DirectStep(s, inputs).at == DirectNext(s.at);
    if i == IndexOf(DirectMotor(s.at)) {
      AddressedHomebound(s.at, s.arm.joints[i], Switch(inputs, i));
    } else {
      OtherHomebound(s.at, s.arm.joints[i], i);
    }
  }

  lemma StoreHomebound(s: Sys, i: nat)
    requires Calibration(s) && Stores(s.at) && i < 3
    ensures Homebound(StoreStep(s).at, StoreStep(s).arm.joints[i], i)
  {
    assert Homebound(s.at, s.arm.joints[i], i);
  }

  lemma FlagHomebound(s: Sys, i: nat)
    requires Calibration(s) && !Directs(s.at) && !Stores(s.at) && i < 3
    ensures Homebound(FlagStep(s).at, FlagStep(s).arm.joints[i], i)
  {
    assert Homebound(s.at, s.arm.joints[i], i);
  }

  lemma TickHomebound(s: Sys, inputs: Inputs, i: nat)
    requires Calibration(s) && i < 3
    ensures Homebound(s.at, Next(s, Tick(inputs)).arm.joints[i], i)
  {
    assert Homebound(s.at, s.arm.joints[i], i);
    if !s.arm.oneShot {
      TickedHomebound(s.at, s.arm.joints[i], i, inputs);
    }
  }

  lemma MainHomebound(s: Sys, inputs: Inputs, i: nat)
    requires Calibration(s) && i < 3
    ensures Homebound(MainStep(s, inputs).at, MainStep(s, inputs).arm.joints[i], i)
  {
    if Directs(s.at) {
      DirectHomebound(s, inputs, i);
    } else if Stores(s.at) {
      StoreHomebound(s, i);
    } else {
      FlagHomebound(s, i);
    }
  }

  lemma MainFlags(s: Sys, inputs: Inputs)
    requires Legal(s.at) && FlagsOfCalibration(s)
    ensures FlagsOfCalibration(MainStep(s, inputs))
  {
    if Directs(s.at) {
      assert DirectStep(s, inputs).arm.interrupt == s.arm.interrupt && DirectStep(s, inputs).arm.start == s.arm.start;
    } else if Stores(s.at) {
      assert StoreStep(s).arm.interrupt == s.arm.interrupt && StoreStep(s).arm.start == s.arm.start;
    }
  }

  lemma NextCalibration(s: Sys, e: Event)
    requires Calibration(s) && (e.Receive? ==> e.command.Get?)
    ensures Calibration(Next(s, e))
  {
    NextInv(s, e);
    match e
    case Tick(inputs) => forall i | 0 <= i < 3 ensures Homebound(s.at, Next(s, e).arm.joints[i], i) { TickHomebound(s, inputs, i); }
    case Receive(c) =>
    case Main(inputs) =>
      MainFlags(s, inputs);
      forall i | 0 <= i < 3 ensures Homebound(Next(s, e).at, Next(s, e).arm.joints[i], i) { MainHomebound(s, inputs, i); }
  }

  lemma {:induction false} RunCalibration(s: Sys, events: seq<Event>, t: Sys)
    requires Calibration(s) && IsRun(s, events, t) && Undisturbed(events)
    ensures Calibration(t)
    decreases |events|
  {
    if events != [] {
      NextCalibration(s, events[0]);
      RunCalibration(Next(s, events[0]), events[1..], t);
    }
  }

  // ---- Main results ----

  /** A calibration that receives no command, in every interleaving with ticks: it cannot fail, and when
      it is over all joints stand calibrated, shoulder and elbow at their neutral ends, the gripper at
      one of its two, and none has its way blocked at any other end than the one it stands at. */
  lemma CalibratedAtHome(s: Sys, events: seq<Event>, t: Sys)
    requires Inv(s) && s.at == Braking(0, ToUnlock) && IsRun(s, events, t) && Undisturbed(events)
    ensures !t.at.Failing? && (t.at.Idle? ==> t.arm.calibrated && !t.arm.start)
    ensures t.at.Idle? || t.at.Finishing? ==>
      var shoulder, elbow, gripper := t.arm.joints[0], t.arm.joints[1], t.arm.joints[2];
      && shoulder.position == 0 && elbow.position == elbow.maximum
      && (gripper.position == 0 || gripper.position == gripper.maximum)
    ensures t.at.Idle? || t.at.Finishing? ==>
      forall i | 0 <= i < 3 :: AtItsEnd(t.arm.joints[i])
  {
    RunCalibration(s, events, t);
    if t.at.Idle? || t.at.Finishing? {
      forall i | 0 <= i < 3 ensures AtItsEnd(t.arm.joints[i]) {
        assert Homebound(t.at, t.arm.joints[i], i);
      }
      assert Homebound(t.at, t.arm.joints[0], 0) && Homebound(t.at, t.arm.joints[1], 1) && Homebound(t.at, t.arm.joints[2], 2);
    }
  }

  predicate AtItsEnd(j: Joint) {
    && j.current == Stop && j.pin == Stop && j.calibrated
    && (j.allowed == Both || Driving(j.allowed))
    && (j.allowed == Forward ==> j.position == 0) && (j.allowed == Backward ==> j.position == j.maximum)
  }

  /** From there `setPosition` sends shoulder and elbow on their way to every other position in range. */
  lemma CalibratedReachesAll(s: Sys, events: seq<Event>, t: Sys, i: nat, position: Byte)
    requires Inv(s) && s.at == Braking(0, ToUnlock) && IsRun(s, events, t) && Undisturbed(events) && t.at.Idle?
    requires i <= 1 && position <= t.arm.joints[i].maximum && position != t.arm.joints[i].position
    ensures var j := AfterCommand(t.arm, SetPosition(MotorOf(i), position)).joints[i];
      OnItsWay(j) && j.target == position && j.pin == j.current
  {
    CalibratedAtHome(s, events, t);
    RunCalibration(s, events, t);
    assert Homebound(t.at, t.arm.joints[i], i);
    SentIffPermitted(t.arm.joints[i], i, position);
  }

  // ---- Releases, and the gripper ----

  /** The sixth open reading of a switch that was held: both ways are free again, and a gripper counts as
      open. */
  lemma ReleaseFrees(s: Sys, inputs: Inputs, i: nat, d: Direction)
    requires i < 3 && !s.arm.oneShot && Driving(d)
    requires s.arm.joints[i].pressed && s.arm.joints[i].counter == DEBOUNCE && !Switch(inputs, i)
    ensures var k := Next(s, Tick(inputs)).arm.joints[i];
      && !k.pressed && Permitted(k.allowed, d)
      && (i == 2 ==> k.position == k.maximum == s.arm.joints[i].maximum)
  {
  }

  /** A switch that closes under a joint that is not driven says nothing about where it is: the joint
      counts as calibrated, and its ways stay as they were. */
  lemma IdlePressKeepsWays(s: Sys, inputs: Inputs, i: nat)
    requires i < 3 && !s.arm.oneShot && s.arm.joints[i].current == Stop && !s.arm.joints[i].mode.Positional?
    requires !s.arm.joints[i].pressed && s.arm.joints[i].counter == DEBOUNCE && Switch(inputs, i)
    ensures var j, k := s.arm.joints[i], Next(s, Tick(inputs)).arm.joints[i];
      k.pressed && k.calibrated && k.allowed == j.allowed && k.position == j.position && k.current == Stop
  {
    StoppedCounts(Debounced(s.arm.joints[i], i, true), i, Level(inputs.encoders, i));
  }

  ghost predicate OpensOrCloses(j: Joint) { j.mode.Positional? ==> j.target == 0 || j.target == j.maximum }

  lemma {:induction false} BrakeOpensOrCloses(js: Table, i: nat)
    requires OpensOrCloses(js[2]) && i <= TABLE_SIZE
    ensures OpensOrCloses(BrakedFrom(js, i)[2])
    decreases TABLE_SIZE - i
  {
    if i < TABLE_SIZE {
      BrakeOpensOrCloses(WithDirection(js, MotorOf(i), Stop), i + 1);
    }
  }

  lemma CommandOpensOrCloses(a: Arm, c: Command)
    requires OpensOrCloses(a.joints[2])
    ensures OpensOrCloses(AfterCommand(a, c).joints[2])
  {
    if c.Brake? {
      BrakeOpensOrCloses(a.joints, 0);
    }
  }

  lemma MainOpensOrCloses(s: Sys, inputs: Inputs)
    requires OpensOrCloses(s.arm.joints[2])
    ensures OpensOrCloses(MainStep(s, inputs).arm.joints[2])
  {
    if Directs(s.at) {
      assert OpensOrCloses(DirectStep(s, inputs).arm.joints[2]);
    } else if Stores(s.at) {
      assert OpensOrCloses(Stored(s.at, s.arm.joints[StoreIndex(s.at)])) || StoreIndex(s.at) != 2;
    } else {
      FlagLeavesAlone(s);
    }
  }

  lemma NextOpensOrCloses(s: Sys, e: Event)
    requires OpensOrCloses(s.arm.joints[2])
    ensures OpensOrCloses(Next(s, e).arm.joints[2])
  {
    match e
    case Tick(inputs) =>
    case Receive(c) => CommandOpensOrCloses(s.arm, c);
    case Main(inputs) => MainOpensOrCloses(s, inputs);
  }

  /** Over every run the gripper, which has no encoder, is never on its way to a position in between. */
  lemma {:induction false} GripperOpensOrCloses(s: Sys, events: seq<Event>, t: Sys)
    requires OpensOrCloses(s.arm.joints[2]) && IsRun(s, events, t)
    ensures OpensOrCloses(t.arm.joints[2])
    decreases |events|
  {
    if events != [] {
      NextOpensOrCloses(s, events[0]);
      GripperOpensOrCloses(Next(s, events[0]), events[1..], t);
    }
  }

  /** A tick that does not flip its switch leaves the gripper's position alone, whatever its pins show. */
  lemma GripperCountsNothing(s: Sys, inputs: Inputs)
    requires Next(s, Tick(inputs)).arm.joints[2].pressed == s.arm.joints[2].pressed
    ensures var j, k := s.arm.joints[2], Next(s, Tick(inputs)).arm.joints[2];
      k.position == j.position && k.current == j.current && k.mode == j.mode
  {
  }

  // ---- Interrupted calibrations ----

  /** Under way, with a check still to come. */
  predicate UnderWay(at: Point) {
    Passed(at) == 0 || Passed(at) == 1 || Passed(at) == 2
  }

  /** Interrupted, or given up for that. */
  ghost predicate Doomed(s: Sys) {
    && !s.arm.calibrated
    && if UnderWay(s.at) then s.arm.interrupt
       else s.at.Failing? || s.at.Idle? || (s.at.Braking? && s.at.next != ToDone) || s.at.Unlocking? || s.at == Clearing(0) || s.at == Clearing(1)
  }

  lemma NextDoomed(s: Sys, e: Event)
    requires Legal(s.at) && Doomed(s) && !(e.Main? && s.at == Clearing(1))
    ensures Legal(Next(s, e).at) && Doomed(Next(s, e))
  {
    match e
    case Tick(_) =>
    case Receive(_) =>
    case Main(inputs) =>
      if Directs(s.at) {
        DirectNextLegal(s.at);
      } else if Stores(s.at) {
      } else {
        FlagStepDuties(s);
      }
  }

  /** The clearing of the flag, where a calibration begins anew. */
  ghost predicate NeverClears(s: Sys, events: seq<Event>)
    decreases |events|
  {
    events == [] || (!(events[0].Main? && s.at == Clearing(1)) && NeverClears(Next(s, events[0]), events[1..]))
  }

  lemma {:induction false} RunDoomed(s: Sys, events: seq<Event>, t: Sys)
    requires Legal(s.at) && Doomed(s) && IsRun(s, events, t) && NeverClears(s, events)
    ensures Legal(t.at) && Doomed(t)
    decreases |events|
  {
    if events != [] {
      NextDoomed(s, events[0]);
      RunDoomed(Next(s, events[0]), events[1..], t);
    }
  }

  /** Any command but a getter, CALIBRATE included, that comes before the last check of a calibration
      keeps it from completing: in no run is the driver calibrated before the next one has begun, and
      none of the positions is stored. */
  lemma CommandEndsCalibration(s: Sys, c: Command, events: seq<Event>, t: Sys)
    requires Legal(s.at) && UnderWay(s.at) && !s.arm.calibrated && !c.Get?
    requires IsRun(Next(s, Receive(c)), events, t) && NeverClears(Next(s, Receive(c)), events)
    ensures !t.arm.calibrated && !t.at.Homing? && !t.at.Finishing?
  {
    RunDoomed(Next(s, Receive(c)), events, t);
  }
}
