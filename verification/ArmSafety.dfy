/**
 The arm driver as a whole: timer ticks and commands interleaved with every step of the calibration
 routine, and what holds over all such runs.
 */
module ArmSafety {
  import opened ArmJoints

  /** What a `brake()` inside the routine is followed by. */
  datatype Follow = ToUnlock | ToFail | ToDone

  /** The next step of the main loop. Each `setDirection` call and each store is one step. */
  datatype Point =
    | Idle
    | Braking(i: nat, next: Follow)
    | Unlocking(i: nat, stage: nat)
    | Clearing(stage: nat)
    | Freeing(k: nat)
    | Arming(phase: nat)
    | Waiting(phase: nat)
    | Checking(phase: nat)
    | Stopping(k: nat)
    | Leaving(k: nat)
    | Approaching(k: nat)
    | Resuming
    | Seeking
    | Homing(k: nat)
    | Parking(i: nat)
    | Finishing
    | Failing

  /** `registered`: the joints that registered a press since their flag was cleared. `quiet`: the
      checks of the current calibration that found no interruption. */
  datatype Sys = Sys(arm: Arm, at: Point, registered: set<nat>, quiet: nat)

  datatype Event =
    | Tick(inputs: Inputs)
    | Receive(command: Command)
    | Main(inputs: Inputs)

  function Seeked(js: Table): bool { js[1].calibrated && js[0].calibrated && js[2].calibrated }

  /** `brake()` ends by one of three ways. */
  function AfterBraking(next: Follow): Point {
    match next case ToUnlock => Unlocking(0, 0) case ToFail => Failing case ToDone => Finishing
  }

  function Motor3(k: nat, first: Byte, second: Byte, third: Byte): Byte {
    if k == 0 then first else if k == 1 then second else third
  }

  /** The points at which the routine calls `setDirection`, ... */
  predicate Directs(at: Point) { at.Braking? || at.Freeing? || at.Stopping? || at.Leaving? || at.Approaching? }

  /** ... for which motor, ... */
  function DirectMotor(at: Point): Byte
    requires Directs(at)
  {
    match at
    case Braking(i, _) => MotorOf(i)
    case Approaching(k) => Motor3(k, SHOULDER, GRIPPER, ELBOW)
    case Freeing(k) => Motor3(k, ELBOW, SHOULDER, GRIPPER)
    case Stopping(k) => Motor3(k, ELBOW, SHOULDER, GRIPPER)
    case Leaving(k) => Motor3(k, ELBOW, SHOULDER, GRIPPER)
  }

  /** ... and which way. `closed` is that motor's limit switch, read at this moment. */
  function DirectWay(at: Point, closed: bool): Direction
    requires Directs(at)
  {
    match at
    case Freeing(k) => if k == 0 then Forward else Backward
    case Leaving(k) => if closed == (k == 0) then Backward else Forward
    case Approaching(k) => if k < 2 then Backward else Forward
    case _ => Stop
  }

  function DirectNext(at: Point): Point
    requires Directs(at)
  {
    match at
    case Braking(i, next) => if i < 3 then Braking(i + 1, next) else AfterBraking(next)
    case Freeing(k) => if k < 2 then Freeing(k + 1) else Arming(1)
    case Stopping(k) => if k < 2 then Stopping(k + 1) else Leaving(0)
    case Leaving(k) => if k < 2 then Leaving(k + 1) else Arming(2)
    case Approaching(k) => if k < 2 then Approaching(k + 1) else Checking(2)
  }

  function DirectStep(s: Sys, inputs: Inputs): Sys
    requires Directs(s.at)
  {
    var m := DirectMotor(s.at);
    var closed := Switch(inputs, IndexOf(m));
    if s.at.Freeing? && !closed then s.(at := DirectNext(s.at))
    else s.(arm := s.arm.(joints := WithDirection(s.arm.joints, m, DirectWay(s.at, closed))), at := DirectNext(s.at))
  }

  /** The points at which it stores into one entry of the table. */
  predicate Stores(at: Point) { at.Unlocking? || at.Homing? || at.Parking? }

  function StoreIndex(at: Point): (i: nat)
    requires Stores(at)
    ensures i < TABLE_SIZE
  {
    match at
    case Homing(k) => if k == 0 then 0 else if k == 1 then 2 else 1
    case Unlocking(i, _) => i % TABLE_SIZE
    case Parking(i) => i % TABLE_SIZE
  }

  function Stored(at: Point, j: Joint): Joint
    requires Stores(at)
  {
    match at
    case Unlocking(_, stage) =>
      if stage == 0 then j.(allowed := Both) else if stage == 1 then j.(calibrated := false) else j.(mode := Calibrating)
    case Homing(k) => j.(position := if k < 2 then 0 else j.maximum)
    case Parking(_) => j.(mode := Free)
  }

  function StoreNext(at: Point): Point
    requires Stores(at)
  {
    match at
    case Unlocking(i, stage) =>
      if stage < 2 then Unlocking(i, stage + 1) else if i < 3 then Unlocking(i + 1, 0) else Clearing(0)
    case Homing(k) => if k < 2 then Homing(k + 1) else Parking(0)
    case Parking(i) => if i < 3 then Parking(i + 1) else Braking(0, ToDone)
  }

  function StoreStep(s: Sys): Sys
    requires Stores(s.at)
  {
    var i := StoreIndex(s.at);
    s.(arm := s.arm.(joints := s.arm.joints[i := Stored(s.at, s.arm.joints[i])]), at := StoreNext(s.at),
       registered := if s.at.Unlocking? && s.at.stage == 1 then s.registered - {i} else s.registered)
  }

  /** Everything else touches flags and timer only. */
  function FlagStep(s: Sys): Sys
    requires !Directs(s.at) && !Stores(s.at)
  {
    var a := s.arm;
    match s.at
    case Idle => if a.start then s.(at := Braking(0, ToUnlock)) else s
    case Clearing(stage) =>
      if stage == 0 then s.(arm := a.(calibrated := false), at := Clearing(1))
      else if stage == 1 then s.(arm := a.(interrupt := false), at := Clearing(2), quiet := 0)
      else s.(arm := a.(start := false), at := Freeing(0))
    case Arming(phase) => s.(arm := a.(notClear := true, oneShot := true, timerOn := true), at := Waiting(phase))
    case Waiting(phase) =>
      if !a.notClear || a.interrupt then s.(at := if phase == 1 then Checking(1) else Approaching(0)) else s
    case Checking(phase) =>
      if a.interrupt then s.(at := Braking(0, ToFail))
      else s.(at := if phase == 1 then Stopping(0) else if phase == 2 then Resuming else Homing(0), quiet := s.quiet + 1)
    case Resuming => s.(arm := a.(oneShot := false, timerOn := true), at := Seeking)
    case Seeking => if a.interrupt || Seeked(a.joints) then s.(at := Checking(3)) else s
    case Finishing => s.(arm := a.(calibrated := true), at := Idle)
    case Failing => s.(arm := a.(calibrated := false), at := Idle)
  }

  function MainStep(s: Sys, inputs: Inputs): Sys {
    if Directs(s.at) then DirectStep(s, inputs) else if Stores(s.at) then StoreStep(s) else FlagStep(s)
  }

  /** The joints whose debounced switch closes in a tick. */
  function Registering(a: Arm, inputs: Inputs): set<nat> {
    set i: nat | i < TABLE_SIZE && !a.oneShot && !a.joints[i].pressed && Debounced(a.joints[i], i, Switch(inputs, i)).pressed
  }

  ghost predicate Enabled(s: Sys, e: Event) { e.Tick? ==> s.arm.timerOn }

  function Next(s: Sys, e: Event): Sys {
    match e
    case Tick(inputs) =>
      s.(arm := AfterTick(s.arm, inputs), registered := s.registered + Registering(s.arm, inputs))
    case Receive(c) => s.(arm := AfterCommand(s.arm, c))
    case Main(inputs) => MainStep(s, inputs)
  }

  ghost predicate IsRun(s: Sys, events: seq<Event>, t: Sys)
    decreases |events|
  {
    if events == [] then t == s
    else Enabled(s, events[0]) && IsRun(Next(s, events[0]), events[1..], t)
  }

  // ---- Invariants of one joint ----

  /** A driven direction is a permitted one; counts and, in positional mode, the target are in range. */
  ghost predicate Safe(j: Joint) {
    && (Driving(j.current) ==> Permitted(j.allowed, j.current))
    && j.position <= j.maximum && j.counter <= DEBOUNCE
    && (j.mode.Positional? ==> j.target <= j.maximum)
  }

  /** In positional mode the joint never runs past its target. */
  ghost predicate OnCourse(j: Joint) {
    j.mode.Positional? ==>
      (j.current == Forward ==> j.position <= j.target) && (j.current == Backward ==> j.position >= j.target)
  }

  ghost predicate Agrees(j: Joint) { j.pin == Wire(j.current) }

  lemma DirectedSafe(j: Joint, d: Direction, wired: bool)
    requires Safe(j)
    ensures Safe(Directed(j, d, wired)) && OnCourse(Directed(j, d, wired))
    ensures wired ==> Agrees(Directed(j, d, wired))
    ensures Directed(j, d, wired).calibrated == j.calibrated
  {
  }

  lemma PositionedSafe(j: Joint, index: nat, position: Byte, wired: bool)
    requires Safe(j)
    ensures Safe(Positioned(j, index, position, wired))
    ensures OnCourse(j) ==> OnCourse(Positioned(j, index, position, wired))
    ensures wired && Agrees(j) ==> Agrees(Positioned(j, index, position, wired))
    ensures Positioned(j, index, position, wired).calibrated == j.calibrated
  {
    if j.calibrated && position <= j.maximum {
      var target := if index == 2 && position > 0 then j.maximum else position;
      var d := if j.position < target then Forward else if j.position > target then Backward else Stop;
      AimedSafe(j.(target := target), d, wired);
    }
  }

  lemma AimedSafe(j: Joint, d: Direction, wired: bool)
    requires Safe(j) && j.target <= j.maximum
    requires (d == Forward ==> j.position < j.target) && (d == Backward ==> j.position > j.target)
    ensures var k := Directed(j, d, wired).(mode := if Driving(d) then Positional else Free);
      Safe(k) && OnCourse(k) && (wired ==> Agrees(k)) && k.calibrated == j.calibrated
  {
    DirectedSafe(j, d, wired);
  }

  lemma DebouncedSafe(j: Joint, index: nat, switch: bool)
    requires Safe(j)
    ensures Safe(Debounced(j, index, switch))
    ensures index != 2 && OnCourse(j) ==> OnCourse(Debounced(j, index, switch))
    ensures Agrees(j) ==> Agrees(Debounced(j, index, switch))
    ensures Debounced(j, index, switch).calibrated == (j.calibrated || (!j.pressed && Debounced(j, index, switch).pressed))
  {
  }

  lemma CountedSafe(j: Joint, index: nat, encoder: bool)
    requires Safe(j)
    ensures var k := EdgeCounted(Sampled(j, index, encoder), index);
      && Safe(k) && (OnCourse(j) ==> OnCourse(k)) && (Agrees(j) ==> Agrees(k))
      && k.calibrated == j.calibrated && k.pressed == j.pressed && k.allowed == j.allowed
  {
  }

  lemma TickedSafe(j: Joint, index: nat, inputs: Inputs)
    requires Safe(j)
    ensures Safe(Ticked(j, index, inputs))
    ensures index != 2 && OnCourse(j) ==> OnCourse(Ticked(j, index, inputs))
    ensures Agrees(j) ==> Agrees(Ticked(j, index, inputs))
    ensures Ticked(j, index, inputs).calibrated
         == (j.calibrated || (!j.pressed && Debounced(j, index, Switch(inputs, index)).pressed))
  {
    DebouncedSafe(j, index, Switch(inputs, index));
    CountedSafe(Debounced(j, index, Switch(inputs, index)), index, Level(inputs.encoders, index));
  }

  // ---- Convergence in positional mode ----

  function Distance(j: Joint): nat {
    if j.position <= j.target then j.target - j.position else j.position - j.target
  }

  /** The joint after a list of ticks and nothing else. */
  function TickedAll(j: Joint, index: nat, inputs: seq<Inputs>): Joint
    decreases |inputs|
  {
    if inputs == [] then j else TickedAll(Ticked(j, index, inputs[0]), index, inputs[1..])
  }

  predicate Edge(j: Joint, index: nat, inputs: Inputs) { Level(inputs.encoders, index) != j.encoder }

  function Edges(j: Joint, index: nat, inputs: seq<Inputs>): nat
    decreases |inputs|
  {
    if inputs == [] then 0
    else (if Edge(j, index, inputs[0]) then 1 else 0) + Edges(Ticked(j, index, inputs[0]), index, inputs[1..])
  }

  ghost predicate NoPress(j: Joint, index: nat, inputs: seq<Inputs>)
    decreases |inputs|
  {
    inputs == [] ||
    (&& !(!j.pressed && Debounced(j, index, Switch(inputs[0], index)).pressed)
     && NoPress(Ticked(j, index, inputs[0]), index, inputs[1..]))
  }

  ghost predicate OnItsWay(j: Joint) {
    j.mode.Positional? && Driving(j.current) && Safe(j) && OnCourse(j)
  }

  lemma UnpressedKeepsWay(j: Joint, index: nat, switch: bool)
    requires index <= 1 && OnItsWay(j) && !(!j.pressed && Debounced(j, index, switch).pressed)
    ensures var k := Debounced(j, index, switch);
      OnItsWay(k) && k.position == j.position && k.target == j.target && k.current == j.current && k.encoder == j.encoder
  {
  }

  predicate SameWay(j: Joint, k: Joint) { k.target == j.target && k.current == j.current }

  lemma EdgeStep(j: Joint, index: nat, encoder: bool)
    requires index <= 1 && OnItsWay(j)
    ensures var k := EdgeCounted(Sampled(j, index, encoder), index);
      if encoder == j.encoder then OnItsWay(k) && Distance(k) == Distance(j) && SameWay(j, k)
      else if Distance(j) > 0 then OnItsWay(k) && Distance(k) == Distance(j) - 1 && SameWay(j, k)
      else k.mode.Free? && k.current == Stop && k.pin == Stop && k.position == j.target
  {
  }

  /** One tick without a press: the distance shrinks by one on each edge; on target the next edge stops
      the joint there. */
  lemma ApproachStep(j: Joint, index: nat, inputs: Inputs)
    requires index <= 1 && OnItsWay(j)
    requires !(!j.pressed && Debounced(j, index, Switch(inputs, index)).pressed)
    ensures var k := Ticked(j, index, inputs);
      if !Edge(j, index, inputs) then OnItsWay(k) && Distance(k) == Distance(j) && SameWay(j, k)
      else if Distance(j) > 0 then OnItsWay(k) && Distance(k) == Distance(j) - 1 && SameWay(j, k)
      else k.mode.Free? && k.current == Stop && k.pin == Stop && k.position == j.target
  {
    UnpressedKeepsWay(j, index, Switch(inputs, index));
    EdgeStep(Debounced(j, index, Switch(inputs, index)), index, Level(inputs.encoders, index));
  }

  lemma {:induction false} StoppedStays(j: Joint, index: nat, inputs: seq<Inputs>)
    requires index <= 1 && j.mode.Free? && j.current == Stop && j.pin == Stop && NoPress(j, index, inputs)
    ensures var k := TickedAll(j, index, inputs);
      k.mode.Free? && k.current == Stop && k.pin == Stop && k.position == j.position
    decreases |inputs|
  {
    if inputs != [] {
      StoppedStays(Ticked(j, index, inputs[0]), index, inputs[1..]);
    }
  }

  lemma {:induction false} TickedConverges(j: Joint, index: nat, inputs: seq<Inputs>)
    requires index <= 1 && OnItsWay(j) && NoPress(j, index, inputs)
    ensures var k := TickedAll(j, index, inputs);
      if Edges(j, index, inputs) <= Distance(j)
      then OnItsWay(k) && Distance(k) == Distance(j) - Edges(j, index, inputs) && k.current == j.current
      else k.mode.Free? && k.current == Stop && k.pin == Stop && k.position == j.target
    decreases |inputs|
  {
    if inputs != [] {
      var k := Ticked(j, index, inputs[0]);
      ApproachStep(j, index, inputs[0]);
      if OnItsWay(k) {
        TickedConverges(k, index, inputs[1..]);
      } else {
        StoppedStays(k, index, inputs[1..]);
      }
    }
  }

  // The same in runs of the whole driver.

  /** A step that does not address joint `i`: a tick, or a command or calibration step for others. */
  predicate LeavesAlone(s: Sys, e: Event, i: nat) {
    match e
    case Tick(_) => true
    case Receive(c) =>
      !c.Brake? && (c.SetDirection? ==> IndexOf(c.motor) != i) && (c.SetPosition? ==> IndexOf(c.motor) != i)
    case Main(_) => (Directs(s.at) ==> IndexOf(DirectMotor(s.at)) != i) && (Stores(s.at) ==> StoreIndex(s.at) != i)
  }

  ghost predicate LeftAlone(s: Sys, events: seq<Event>, i: nat)
    decreases |events|
  {
    events == [] || (LeavesAlone(s, events[0], i) && LeftAlone(Next(s, events[0]), events[1..], i))
  }

  /** What the ticks of a run see, those of the one-shot timer left out. */
  function Seen(s: Sys, events: seq<Event>): seq<Inputs>
    decreases |events|
  {
    if events == [] then []
    else
      (if events[0].Tick? && !s.arm.oneShot then [events[0].inputs] else []) + Seen(Next(s, events[0]), events[1..])
  }

  lemma NextLeftAlone(s: Sys, e: Event, i: nat)
    requires i < TABLE_SIZE && LeavesAlone(s, e, i)
    ensures Next(s, e).arm.joints[i]
         == if e.Tick? && !s.arm.oneShot then Ticked(s.arm.joints[i], i, e.inputs) else s.arm.joints[i]
  {
    match e
    case Tick(inputs) =>
    case Receive(c) => CommandLeavesAlone(s.arm, c, i);
    case Main(inputs) => MainLeavesAlone(s, inputs, i);
  }

  lemma CommandLeavesAlone(a: Arm, c: Command, i: nat)
    requires i < TABLE_SIZE && !c.Brake?
    requires (c.SetDirection? ==> IndexOf(c.motor) != i) && (c.SetPosition? ==> IndexOf(c.motor) != i)
    ensures AfterCommand(a, c).joints[i] == a.joints[i]
  {
  }

  lemma MainLeavesAlone(s: Sys, inputs: Inputs, i: nat)
    requires i < TABLE_SIZE && LeavesAlone(s, Main(inputs), i)
    ensures MainStep(s, inputs).arm.joints[i] == s.arm.joints[i]
  {
    if Directs(s.at) {
      DirectLeavesAlone(s, inputs, i);
    } else if Stores(s.at) {
      StoreLeavesAlone(s, i);
    } else {
      FlagLeavesAlone(s);
    }
  }

  lemma DirectLeavesAlone(s: Sys, inputs: Inputs, i: nat)
    requires i < TABLE_SIZE && Directs(s.at) && IndexOf(DirectMotor(s.at)) != i
    ensures DirectStep(s, inputs).arm.joints[i] == s.arm.joints[i]
  {
  }

  lemma StoreLeavesAlone(s: Sys, i: nat)
    requires i < TABLE_SIZE && Stores(s.at) && StoreIndex(s.at) != i
    ensures StoreStep(s).arm.joints[i] == s.arm.joints[i]
  {
  }

  lemma FlagLeavesAlone(s: Sys)
    requires !Directs(s.at) && !Stores(s.at)
    ensures FlagStep(s).arm.joints == s.arm.joints
  {
  }

  lemma {:induction false} RunLeftAlone(s: Sys, events: seq<Event>, t: Sys, i: nat)
    requires i < TABLE_SIZE && IsRun(s, events, t) && LeftAlone(s, events, i)
    ensures t.arm.joints[i] == TickedAll(s.arm.joints[i], i, Seen(s, events))
    decreases |events|
  {
    if events != [] {
      var rest := Seen(Next(s, events[0]), events[1..]);
      NextLeftAlone(s, events[0], i);
      RunLeftAlone(Next(s, events[0]), events[1..], t, i);
      if events[0].Tick? && !s.arm.oneShot {
        assert ([events[0].inputs] + rest)[1..] == rest;
      } else {
        assert [] + rest == rest;
      }
    }
  }

  /** Shoulder or elbow sent to a position, then not addressed by any command or calibration step, and
      its limit not reached, whatever else the driver does: while fewer edges than the distance have
      been seen it is still on its way, exactly that much closer; from the edge after the distance on it
      stands still on the target, out of positional mode. */
  lemma PositionalConverges(s: Sys, events: seq<Event>, t: Sys, i: nat)
    requires i <= 1 && OnItsWay(s.arm.joints[i]) && IsRun(s, events, t) && LeftAlone(s, events, i)
    requires NoPress(s.arm.joints[i], i, Seen(s, events))
    ensures var j, k, edges := s.arm.joints[i], t.arm.joints[i], Edges(s.arm.joints[i], i, Seen(s, events));
      if edges <= Distance(j)
      then OnItsWay(k) && Distance(k) == Distance(j) - edges && k.current == j.current
      else k.mode.Free? && k.current == Stop && k.pin == Stop && k.position == j.target
  {
    RunLeftAlone(s, events, t, i);
    TickedConverges(s.arm.joints[i], i, Seen(s, events));
  }

  /** `setPosition` sends a calibrated joint on such a way, unless the way is not permitted or no way
      is left. */
  lemma SentIffPermitted(j: Joint, index: nat, position: Byte)
    requires index <= 1 && Safe(j) && j.calibrated && position <= j.maximum && j.position != position
    ensures OnItsWay(Positioned(j, index, position, true))
       <==> Permitted(j.allowed, if j.position < position then Forward else Backward)
    ensures Positioned(j, index, position, true).target == position
  {
  }

  // ---- Debouncing ----

  function DebouncedAll(j: Joint, index: nat, switches: seq<bool>): Joint
    decreases |switches|
  {
    if switches == [] then j else DebouncedAll(Debounced(j, index, switches[0]), index, switches[1..])
  }

  function Disagreeing(state: bool, switches: seq<bool>): nat {
    if switches == [] then 0 else (if switches[0] != state then 1 else 0) + Disagreeing(state, switches[1..])
  }

  lemma {:induction false} DebouncedHolds(j: Joint, index: nat, switches: seq<bool>)
    requires j.counter + Disagreeing(j.pressed, switches) <= DEBOUNCE
    ensures DebouncedAll(j, index, switches) == j.(counter := j.counter + Disagreeing(j.pressed, switches))
    decreases |switches|
  {
    if switches != [] {
      DebouncedHolds(Debounced(j, index, switches[0]), index, switches[1..]);
    }
  }

  lemma {:induction false} DebouncedFlips(j: Joint, index: nat, switches: seq<bool>)
    requires switches != [] && switches[|switches| - 1] != j.pressed
    requires j.counter + Disagreeing(j.pressed, switches) == DEBOUNCE + 1
    ensures DebouncedAll(j, index, switches).pressed == !j.pressed && DebouncedAll(j, index, switches).counter == 0
    decreases |switches|
  {
    if |switches| > 1 {
      assert switches[1..][|switches| - 2] == switches[|switches| - 1];
      LastDisagrees(j.pressed, switches[1..]);
      DebouncedFlips(Debounced(j, index, switches[0]), index, switches[1..]);
    }
  }

  lemma {:induction false} LastDisagrees(state: bool, switches: seq<bool>)
    requires switches != [] && switches[|switches| - 1] != state
    ensures Disagreeing(state, switches) > 0
  {
    if |switches| > 1 {
      LastDisagrees(state, switches[1..]);
    }
  }

  // ---- Invariants of the whole driver ----

  /** The current calibration has cleared the flag of joint `i`. */
  ghost predicate Cleared(at: Point, i: nat) {
    match at
    case Idle => false
    case Braking(_, next) => next != ToUnlock
    case Unlocking(k, stage) => i < k || (i == k && stage == 2)
    case _ => true
  }

  /** Positions have been overwritten at the end of a calibration, the mode not yet. */
  ghost predicate Window(at: Point, i: nat) { at.Homing? || (at.Parking? && at.i <= i) }

  ghost predicate Legal(at: Point) {
    match at
    case Braking(i, _) => i < TABLE_SIZE
    case Unlocking(i, stage) => i < TABLE_SIZE && stage <= 2
    case Clearing(stage) => stage <= 2
    case Parking(i) => i < TABLE_SIZE
    case Arming(phase) => 1 <= phase <= 2
    case Waiting(phase) => 1 <= phase <= 2
    case Checking(phase) => 1 <= phase <= 3
    case _ => true
  }

  /** The checks passed on the way to a point, from the clearing of the interruption flag on. */
  function Passed(at: Point): int {
    match at
    case Clearing(stage) => if stage == 2 then 0 else -1
    case Freeing(_) => 0
    case Arming(phase) => phase - 1
    case Waiting(phase) => phase - 1
    case Checking(phase) => phase - 1
    case Stopping(_) => 1
    case Leaving(_) => 1
    case Approaching(_) => 1
    case Resuming => 2
    case Seeking => 2
    case Homing(_) => 3
    case Parking(_) => 3
    case Finishing => 3
    case Braking(_, next) => if next == ToDone then 3 else -1
    case _ => -1
  }

  ghost predicate TableInv(js: Table, registered: set<nat>, at: Point) {
    && (forall i | 0 <= i < 3 :: Safe(js[i]))
    && (forall i | 0 <= i < 2 :: OnCourse(js[i]) || Window(at, i))
    && (forall i | 0 <= i < 3 :: Cleared(at, i) && js[i].calibrated ==> i in registered)
  }

  ghost predicate Inv(s: Sys) {
    Legal(s.at) && TableInv(s.arm.joints, s.registered, s.at) && FlagsInv(s)
  }

  /** What is known of flags and timer at each point. */
  ghost predicate FlagsInv(s: Sys) {
    && (Passed(s.at) >= 0 ==> s.quiet == Passed(s.at))
    && (s.at == Checking(3) ==> s.arm.interrupt || Seeked(s.arm.joints))
    && (Passed(s.at) == 3 ==> {0, 1, 2} <= s.registered)
    && (Passed(s.at) == 1 || s.at.Waiting? || s.at == Checking(1) || s.at == Checking(2) || s.at.Resuming?
        ==> s.arm.oneShot)
    && (Passed(s.at) >= 2 && !s.at.Resuming? ==> !s.arm.oneShot)
  }

  lemma UpdateKeeps(js: Table, registered: set<nat>, at: Point, i: nat, j: Joint)
    requires TableInv(js, registered, at) && i < TABLE_SIZE
    requires i < 3 ==> Safe(j)
    requires i < 2 ==> OnCourse(j) || Window(at, i)
    requires i < 3 && Cleared(at, i) && j.calibrated ==> i in registered
    ensures TableInv(js[i := j], registered, at)
  {
  }

  lemma DirectionKeeps(js: Table, registered: set<nat>, at: Point, motor: Byte, d: Direction)
    requires TableInv(js, registered, at)
    ensures TableInv(WithDirection(js, motor, d), registered, at)
  {
    var i := IndexOf(motor);
    DirectedSafe(js[i], d, Wired(motor));
    UpdateKeeps(js, registered, at, i, Directed(js[i], d, Wired(motor)));
  }

  lemma PositionKeeps(js: Table, registered: set<nat>, at: Point, motor: Byte, position: Byte)
    requires TableInv(js, registered, at)
    ensures TableInv(WithPosition(js, motor, position), registered, at)
  {
    var i := IndexOf(motor);
    PositionedSafe(js[i], i, position, Wired(motor));
    UpdateKeeps(js, registered, at, i, Positioned(js[i], i, position, Wired(motor)));
  }

  lemma {:induction false} BrakeKeeps(js: Table, registered: set<nat>, at: Point, i: nat)
    requires TableInv(js, registered, at) && i <= TABLE_SIZE
    ensures TableInv(BrakedFrom(js, i), registered, at)
    decreases TABLE_SIZE - i
  {
    if i < TABLE_SIZE {
      DirectionKeeps(js, registered, at, MotorOf(i), Stop);
      BrakeKeeps(WithDirection(js, MotorOf(i), Stop), registered, at, i + 1);
    }
  }

  lemma TickKeepsJoint(s: Sys, inputs: Inputs, i: nat)
    requires Inv(s) && i < 3 && !s.arm.oneShot
    ensures var t, j := Next(s, Tick(inputs)), Next(s, Tick(inputs)).arm.joints[i];
      && Safe(j) && (i < 2 ==> OnCourse(j) || Window(t.at, i))
      && (Cleared(t.at, i) && j.calibrated ==> i in t.registered)
      && (s.arm.joints[i].calibrated ==> j.calibrated)
  {
    TickedSafe(s.arm.joints[i], i, inputs);
  }

  lemma FromJoints(js: Table, registered: set<nat>, at: Point)
    requires Safe(js[0]) && Safe(js[1]) && Safe(js[2])
    requires (OnCourse(js[0]) || Window(at, 0)) && (OnCourse(js[1]) || Window(at, 1))
    requires Cleared(at, 0) && js[0].calibrated ==> 0 in registered
    requires Cleared(at, 1) && js[1].calibrated ==> 1 in registered
    requires Cleared(at, 2) && js[2].calibrated ==> 2 in registered
    ensures TableInv(js, registered, at)
  {
  }

  lemma TickKeeps(s: Sys, inputs: Inputs)
    requires Inv(s)
    ensures var t := Next(s, Tick(inputs)); TableInv(t.arm.joints, t.registered, t.at)
    ensures Seeked(s.arm.joints) ==> Seeked(Next(s, Tick(inputs)).arm.joints)
  {
    if !s.arm.oneShot {
      var t := Next(s, Tick(inputs));
      TickKeepsJoint(s, inputs, 0);
      TickKeepsJoint(s, inputs, 1);
      TickKeepsJoint(s, inputs, 2);
      FromJoints(t.arm.joints, t.registered, t.at);
    }
  }

  lemma CommandKeeps(s: Sys, c: Command)
    requires Inv(s)
    ensures Inv(Next(s, Receive(c)))
  {
    var js := s.arm.joints;
    match c
    case SetDirection(m, d) =>
      DirectionKeeps(js, s.registered, s.at, m, d);
    case SetPosition(m, p) =>
      PositionKeeps(js, s.registered, s.at, m, p);
    case Brake =>
      BrakeKeeps(js, s.registered, s.at, 0);
    case _ =>
  }

  /** Only the window of the final stores can grow or shrink the duties of a point. */
  ghost predicate NoNewDuty(at: Point, to: Point) {
    && (forall i | 0 <= i < 2 :: Window(at, i) ==> Window(to, i))
    && (forall i | 0 <= i < 3 :: Cleared(to, i) ==> Cleared(at, i))
  }

  lemma PointKeeps(js: Table, registered: set<nat>, at: Point, to: Point)
    requires TableInv(js, registered, at) && NoNewDuty(at, to)
    ensures TableInv(js, registered, to)
  {
  }

  lemma DirectStepKeeps(s: Sys, motor: Byte, d: Direction, to: Point)
    requires Inv(s) && NoNewDuty(s.at, to)
    ensures TableInv(WithDirection(s.arm.joints, motor, d), s.registered, to)
  {
    DirectionKeeps(s.arm.joints, s.registered, s.at, motor, d);
    PointKeeps(WithDirection(s.arm.joints, motor, d), s.registered, s.at, to);
  }

  lemma EditStepKeeps(s: Sys, i: nat, j: Joint, to: Point, registered: set<nat>)
    requires Inv(s) && i < TABLE_SIZE && (i < 3 ==> Safe(j))
    requires forall k | 0 <= k < 2 && k != i :: Window(s.at, k) ==> Window(to, k)
    requires forall k | 0 <= k < 3 && k != i :: (Cleared(to, k) ==> Cleared(s.at, k)) && (k in s.registered ==> k in registered)
    requires i < 2 ==> OnCourse(j) || Window(to, i)
    requires i < 3 && Cleared(to, i) && j.calibrated ==> i in registered
    ensures TableInv(s.arm.joints[i := j], registered, to)
  {
  }

  lemma StoreStepInv(s: Sys)
    requires Inv(s) && Stores(s.at)
    ensures Inv(StoreStep(s))
  {
    var i, t := StoreIndex(s.at), StoreStep(s);
    EditStepKeeps(s, i, Stored(s.at, s.arm.joints[i]), StoreNext(s.at), t.registered);
  }

  lemma DirectStepInv(s: Sys, inputs: Inputs)
    requires Inv(s) && Directs(s.at)
    ensures Inv(DirectStep(s, inputs))
  {
    var m, to := DirectMotor(s.at), DirectNext(s.at);
    DirectNextLegal(s.at);
    DirectStepKeeps(s, m, DirectWay(s.at, Switch(inputs, IndexOf(m))), to);
    PointKeeps(s.arm.joints, s.registered, s.at, to);
  }

  lemma DirectNextLegal(at: Point)
    requires Directs(at) && Legal(at)
    ensures Legal(DirectNext(at)) && NoNewDuty(at, DirectNext(at))
    ensures DirectNext(at) != Checking(3) && !DirectNext(at).Waiting? && !DirectNext(at).Resuming?
    ensures Passed(DirectNext(at)) == Passed(at) || Passed(DirectNext(at)) < 0
  {
  }

  lemma FlagStepInv(s: Sys)
    requires Inv(s) && !Directs(s.at) && !Stores(s.at)
    ensures Inv(FlagStep(s))
  {
    FlagStepDuties(s);
    PointKeeps(s.arm.joints, s.registered, s.at, FlagStep(s).at);
    FlagStepFlags(s);
  }

  lemma FlagStepDuties(s: Sys)
    requires Legal(s.at) && !Directs(s.at) && !Stores(s.at)
    ensures Legal(FlagStep(s).at) && NoNewDuty(s.at, FlagStep(s).at)
    ensures FlagStep(s).arm.joints == s.arm.joints && FlagStep(s).registered == s.registered
  {
  }

  lemma FlagStepFlags(s: Sys)
    requires Legal(s.at) && FlagsInv(s) && !Directs(s.at) && !Stores(s.at)
    requires Cleared(s.at, 0) && s.arm.joints[0].calibrated ==> 0 in s.registered
    requires Cleared(s.at, 1) && s.arm.joints[1].calibrated ==> 1 in s.registered
    requires Cleared(s.at, 2) && s.arm.joints[2].calibrated ==> 2 in s.registered
    ensures FlagsInv(FlagStep(s))
  {
  }

  /** Every interleaving of ticks, commands and calibration steps keeps the invariant. */
  lemma NextInv(s: Sys, e: Event)
    requires Inv(s)
    ensures Inv(Next(s, e))
  {
    match e
    case Tick(inputs) => TickKeeps(s, inputs);
    case Receive(c) => CommandKeeps(s, c);
    case Main(inputs) =>
      if Directs(s.at) {
        DirectStepInv(s, inputs);
      } else if Stores(s.at) {
        StoreStepInv(s);
      } else {
        FlagStepInv(s);
      }
  }

  /** After a reset: the table survives it, with whatever legal counts and permissions it held. */
  ghost predicate IsStart(s: Sys) {
    && s.at == Idle && !s.arm.oneShot
    && forall i | 0 <= i < 3 ::
      var j := s.arm.joints[i];
      j.current == Stop && j.pin == Stop && j.mode.Free? && j.position <= j.maximum && j.counter <= DEBOUNCE
  }

  lemma {:induction false} RunInv(s: Sys, events: seq<Event>, t: Sys)
    requires Inv(s) && IsRun(s, events, t)
    ensures Inv(t)
    decreases |events|
  {
    if events != [] {
      NextInv(s, events[0]);
      RunInv(Next(s, events[0]), events[1..], t);
    }
  }

  lemma StartInv(s: Sys)
    requires IsStart(s)
    ensures Inv(s)
  {
  }

  // ---- Debouncing over runs ----

  /** The readings of a limit switch that a run takes: one a tick, none while the timer is one-shot. */
  function SwitchReadings(s: Sys, events: seq<Event>, i: nat): seq<bool>
    decreases |events|
  {
    if events == [] then []
    else
      (if events[0].Tick? && !s.arm.oneShot then [Switch(events[0].inputs, i)] else [])
      + SwitchReadings(Next(s, events[0]), events[1..], i)
  }

  predicate SameSwitch(j: Joint, k: Joint) { j.pressed == k.pressed && j.counter == k.counter }

  lemma {:induction false} SameSwitchDebounced(j: Joint, k: Joint, i: nat, switches: seq<bool>)
    requires SameSwitch(j, k)
    ensures SameSwitch(DebouncedAll(j, i, switches), DebouncedAll(k, i, switches))
    decreases |switches|
  {
    if switches != [] {
      SameSwitchDebounced(Debounced(j, i, switches[0]), Debounced(k, i, switches[0]), i, switches[1..]);
    }
  }

  lemma {:induction false} BrakeKeepsSwitch(js: Table, k: nat, i: nat)
    requires k <= TABLE_SIZE && i < TABLE_SIZE
    ensures SameSwitch(js[i], BrakedFrom(js, k)[i])
    decreases TABLE_SIZE - k
  {
    if k < TABLE_SIZE {
      BrakeKeepsSwitch(WithDirection(js, MotorOf(k), Stop), k + 1, i);
    }
  }

  /** Only a tick of the continuous timer touches debounced state and counter. */
  lemma NextDebounces(s: Sys, e: Event, i: nat)
    requires Inv(s) && i < 3
    ensures var j, k := s.arm.joints[i], Next(s, e).arm.joints[i];
      SameSwitch(k, if e.Tick? && !s.arm.oneShot then Debounced(j, i, Switch(e.inputs, i)) else j)
  {
    match e
    case Tick(inputs) => TickDebounces(s.arm, inputs, i);
    case Receive(c) => CommandKeepsSwitch(s.arm, c, i);
    case Main(inputs) => MainKeepsSwitch(s, inputs, i);
  }

  lemma TickDebounces(a: Arm, inputs: Inputs, i: nat)
    requires i < 3
    ensures SameSwitch(AfterTick(a, inputs).joints[i],
                       if a.oneShot then a.joints[i] else Debounced(a.joints[i], i, Switch(inputs, i)))
  {
  }

  lemma CommandKeepsSwitch(a: Arm, c: Command, i: nat)
    requires i < 3
    ensures SameSwitch(AfterCommand(a, c).joints[i], a.joints[i])
  {
    match c
    case SetDirection(m, d) => DirectionKeepsSwitch(a.joints, m, d, i);
    case SetPosition(m, p) => PositionKeepsSwitch(a.joints, m, p, i);
    case Brake => BrakeKeepsSwitch(a.joints, 0, i);
    case _ =>
  }

  lemma DirectionKeepsSwitch(js: Table, motor: Byte, d: Direction, i: nat)
    requires i < TABLE_SIZE
    ensures SameSwitch(WithDirection(js, motor, d)[i], js[i])
  {
  }

  lemma PositionKeepsSwitch(js: Table, motor: Byte, position: Byte, i: nat)
    requires i < TABLE_SIZE
    ensures SameSwitch(WithPosition(js, motor, position)[i], js[i])
  {
    var k := IndexOf(motor);
    assert SameSwitch(Positioned(js[k], k, position, Wired(motor)), js[k]);
  }

  lemma MainKeepsSwitch(s: Sys, inputs: Inputs, i: nat)
    requires Inv(s) && i < 3
    ensures SameSwitch(MainStep(s, inputs).arm.joints[i], s.arm.joints[i])
  {
    MainEdits(s, inputs, i);
  }

  /** In every interleaving of ticks, commands and calibration steps, a switch is debounced as if its
      readings were all there is. */
  lemma {:induction false} RunDebounces(s: Sys, events: seq<Event>, t: Sys, i: nat)
    requires Inv(s) && IsRun(s, events, t) && i < 3
    ensures SameSwitch(t.arm.joints[i], DebouncedAll(s.arm.joints[i], i, SwitchReadings(s, events, i)))
    decreases |events|
  {
    if events != [] {
      var u, rest := Next(s, events[0]), SwitchReadings(Next(s, events[0]), events[1..], i);
      NextInv(s, events[0]);
      NextDebounces(s, events[0], i);
      RunDebounces(u, events[1..], t, i);
      if events[0].Tick? && !s.arm.oneShot {
        var switch := Switch(events[0].inputs, i);
        assert ([switch] + rest)[1..] == rest;
        SameSwitchDebounced(u.arm.joints[i], Debounced(s.arm.joints[i], i, switch), i, rest);
      } else {
        assert [] + rest == rest;
        SameSwitchDebounced(u.arm.joints[i], s.arm.joints[i], i, rest);
      }
    }
  }

  /** Over every run: counted from the last flip, the debounced state holds through any five disagreeing
      readings, spread out however they are ... */
  lemma HoldsForFive(s: Sys, events: seq<Event>, t: Sys, i: nat)
    requires Inv(s) && IsRun(s, events, t) && i < 3
    requires var j := s.arm.joints[i]; j.counter + Disagreeing(j.pressed, SwitchReadings(s, events, i)) <= 5
    ensures var j, k := s.arm.joints[i], t.arm.joints[i];
      k.pressed == j.pressed && k.counter == j.counter + Disagreeing(j.pressed, SwitchReadings(s, events, i))
  {
    RunDebounces(s, events, t, i);
    DebouncedHolds(s.arm.joints[i], i, SwitchReadings(s, events, i));
  }

  /** The last reading is the sixth that disagrees. */
  predicate SixthDisagrees(j: Joint, readings: seq<bool>) {
    && readings != [] && readings[|readings| - 1] != j.pressed
    && j.counter + Disagreeing(j.pressed, readings) == 6
  }

  /** ... and flips exactly on the sixth. */
  lemma FlipsOnSixth(s: Sys, events: seq<Event>, t: Sys, i: nat)
    requires Inv(s) && IsRun(s, events, t) && i < 3 && SixthDisagrees(s.arm.joints[i], SwitchReadings(s, events, i))
    ensures t.arm.joints[i].pressed == !s.arm.joints[i].pressed && t.arm.joints[i].counter == 0
  {
    RunDebounces(s, events, t, i);
    DebouncedFlips(s.arm.joints[i], i, SwitchReadings(s, events, i));
  }

  // ---- Calibration ----

  /** The driver reports itself calibrated only after a calibration in which shoulder, elbow and gripper
      each registered a press after their flags were cleared, and all three checks found no
      interruption. */
  lemma CalibratedOnlyIf(start: Sys, events: seq<Event>, s: Sys, e: Event)
    requires IsStart(start) && IsRun(start, events, s)
    requires !s.arm.calibrated && Next(s, e).arm.calibrated
    ensures s.at == Finishing && e.Main? && {0, 1, 2} <= s.registered && s.quiet == 3
  {
    StartInv(start);
    RunInv(start, events, s);
    OnlyFinishingSets(s, e);
  }

  lemma OnlyFinishingSets(s: Sys, e: Event)
    requires !s.arm.calibrated && Next(s, e).arm.calibrated
    ensures s.at == Finishing && e.Main?
  {
  }

  /** The last stores of a calibration put the elbow at its maximum before they end positional mode: the
      elbow is then past its target exactly if a command that slipped in after the last check drives it
      forward to a lower one. The mode store soon after ends that. */
  lemma HomingBreaksCourseIff(s: Sys, inputs: Inputs)
    requires Inv(s) && s.at == Homing(2)
    ensures var elbow := s.arm.joints[1];
      !OnCourse(MainStep(s, inputs).arm.joints[1])
      <==> elbow.mode.Positional? && elbow.current == Forward && elbow.target < elbow.maximum
  {
  }

  // ---- Limit safety ----

  /** The limit switch was reached driving `d`, and is still held. */
  predicate Blocked(j: Joint, d: Direction) { j.pressed && j.allowed == Opposite(d) }

  lemma PressBlocks(j: Joint, index: nat, d: Direction)
    requires Driving(d) && j.current == d && !j.pressed && j.counter == DEBOUNCE
    ensures var k := Debounced(j, index, true);
      Blocked(k, d) && k.current == Stop && k.pin == Stop && k.calibrated && !k.mode.Positional?
      && k.position == if d == Forward then j.maximum else 0
  {
  }

  /** The sixth closed reading of a driven joint in a run: it stops, and the way it went is blocked. */
  lemma PressRegistered(s: Sys, inputs: Inputs, i: nat, d: Direction)
    requires i < 3 && !s.arm.oneShot && Driving(d) && s.arm.joints[i].current == d
    requires !s.arm.joints[i].pressed && s.arm.joints[i].counter == DEBOUNCE && Switch(inputs, i)
    ensures var k := Next(s, Tick(inputs)).arm.joints[i];
      && Blocked(k, d) && k.current == Stop && k.pin == Stop && k.calibrated
      && k.position == (if d == Forward then s.arm.joints[i].maximum else 0)
      && i in Next(s, Tick(inputs)).registered
  {
    PressBlocks(s.arm.joints[i], i, d);
    StoppedCounts(Debounced(s.arm.joints[i], i, true), i, Level(inputs.encoders, i));
  }

  lemma StoppedCounts(j: Joint, index: nat, encoder: bool)
    requires j.current == Stop && j.pin == Stop && !j.mode.Positional?
    ensures var k := EdgeCounted(Sampled(j, index, encoder), index);
      && k.current == Stop && k.pin == Stop && k.position == j.position && k.calibrated == j.calibrated
      && k.pressed == j.pressed && k.allowed == j.allowed
  {
  }

  /** What one step of the calibration routine may do to joint `i`. */
  ghost predicate MainEdit(at: Point, i: nat, j: Joint, k: Joint) {
    || (exists d: Direction :: k == Directed(j, d, true))
    || (at == Unlocking(i, 0) && k == j.(allowed := Both))
    || (k == j.(calibrated := k.calibrated, mode := k.mode, position := k.position)
        && (k.position == j.position || (at.Homing? && k.position == if i == 1 then j.maximum else 0)))
  }

  lemma DirectEdits(js: Table, at: Point, motor: Byte, d: Direction, i: nat)
    requires Wired(motor) && i < 3
    ensures MainEdit(at, i, js[i], WithDirection(js, motor, d)[i])
  {
    if i == IndexOf(motor) {
      assert WithDirection(js, motor, d)[i] == Directed(js[i], d, true);
    }
  }

  lemma MainEdits(s: Sys, inputs: Inputs, i: nat)
    requires Inv(s) && i < 3
    ensures MainEdit(s.at, i, s.arm.joints[i], MainStep(s, inputs).arm.joints[i])
  {
    if Directs(s.at) {
      var m := DirectMotor(s.at);
      DirectEdits(s.arm.joints, s.at, m, DirectWay(s.at, Switch(inputs, IndexOf(m))), i);
    } else if Stores(s.at) && i == StoreIndex(s.at) {
      StoredEdits(s.at, s.arm.joints[i]);
    }
  }

  lemma StoredEdits(at: Point, j: Joint)
    requires Stores(at) && Legal(at)
    ensures MainEdit(at, StoreIndex(at), j, Stored(at, j))
  {
  }

  /** The two ways out: a debounced release, and a new calibration. */
  ghost predicate Unblocks(s: Sys, e: Event, i: nat)
    requires i < TABLE_SIZE
  {
    || (e.Tick? && s.arm.joints[i].pressed && !Next(s, e).arm.joints[i].pressed)
    || (e.Main? && s.at == Unlocking(i, 0))
  }

  lemma {:induction false} BrakeKeepsBlock(js: Table, k: nat, i: nat, d: Direction)
    requires k <= TABLE_SIZE && i < TABLE_SIZE && Blocked(js[i], d)
    ensures Blocked(BrakedFrom(js, k)[i], d)
    decreases TABLE_SIZE - k
  {
    if k < TABLE_SIZE {
      BrakeKeepsBlock(WithDirection(js, MotorOf(k), Stop), k + 1, i, d);
    }
  }

  lemma TickKeepsBlock(j: Joint, index: nat, inputs: Inputs, d: Direction)
    requires Safe(j) && Blocked(j, d)
    ensures Blocked(Ticked(j, index, inputs), d) || !Ticked(j, index, inputs).pressed
  {
    CountedSafe(Debounced(j, index, Switch(inputs, index)), index, Level(inputs.encoders, index));
  }

  lemma CommandKeepsBlock(a: Arm, c: Command, i: nat, d: Direction)
    requires i < 3 && Blocked(a.joints[i], d)
    ensures Blocked(AfterCommand(a, c).joints[i], d)
  {
    if c.Brake? {
      BrakeKeepsBlock(a.joints, 0, i, d);
    }
  }

  lemma MainKeepsBlock(s: Sys, inputs: Inputs, i: nat, d: Direction)
    requires Inv(s) && i < 3 && Blocked(s.arm.joints[i], d) && s.at != Unlocking(i, 0)
    ensures Blocked(MainStep(s, inputs).arm.joints[i], d)
  {
    MainEdits(s, inputs, i);
  }

  lemma NextKeepsBlock(s: Sys, e: Event, i: nat, d: Direction)
    requires Inv(s) && i < 3 && Blocked(s.arm.joints[i], d) && !Unblocks(s, e, i)
    ensures Blocked(Next(s, e).arm.joints[i], d)
  {
    match e
    case Tick(inputs) => TickKeepsBlock(s.arm.joints[i], i, inputs, d);
    case Receive(c) => CommandKeepsBlock(s.arm, c, i, d);
    case Main(inputs) => MainKeepsBlock(s, inputs, i, d);
  }

  ghost predicate NeverUnblocks(s: Sys, events: seq<Event>, i: nat)
    requires i < TABLE_SIZE
    decreases |events|
  {
    events == [] || (!Unblocks(s, events[0], i) && NeverUnblocks(Next(s, events[0]), events[1..], i))
  }

  /** Once a press is registered while driving one way, no sequence of ticks, commands and calibration
      steps drives the joint that way again before a debounced release or a new calibration. */
  lemma {:induction false} LimitHolds(s: Sys, events: seq<Event>, t: Sys, i: nat, d: Direction)
    requires Inv(s) && i < 3 && Driving(d) && Blocked(s.arm.joints[i], d)
    requires IsRun(s, events, t) && NeverUnblocks(s, events, i)
    ensures Blocked(t.arm.joints[i], d) && t.arm.joints[i].current != d
    decreases |events|
  {
    if events != [] {
      NextInv(s, events[0]);
      NextKeepsBlock(s, events[0], i, d);
      LimitHolds(Next(s, events[0]), events[1..], t, i, d);
    } else {
      assert Safe(s.arm.joints[i]);
    }
  }

  // ---- The table and the pins ----

  ghost predicate WiredCommand(e: Event) {
    e.Receive? ==> (e.command.SetDirection? ==> Wired(e.command.motor)) && (e.command.SetPosition? ==> Wired(e.command.motor))
  }

  ghost predicate PinsAgree(js: Table) { forall i | 0 <= i < 3 :: Agrees(js[i]) }

  lemma DirectionPins(js: Table, motor: Byte, d: Direction)
    requires PinsAgree(js) && Wired(motor)
    ensures PinsAgree(WithDirection(js, motor, d))
  {
  }

  lemma {:induction false} BrakePins(js: Table, k: nat)
    requires PinsAgree(js) && k <= TABLE_SIZE
    ensures PinsAgree(BrakedFrom(js, k))
    decreases TABLE_SIZE - k
  {
    if k < TABLE_SIZE {
      DirectionPins(js, MotorOf(k), Stop);
      BrakePins(WithDirection(js, MotorOf(k), Stop), k + 1);
    }
  }

  lemma PositionPins(js: Table, motor: Byte, position: Byte)
    requires PinsAgree(js) && Wired(motor)
    ensures PinsAgree(WithPosition(js, motor, position))
  {
  }

  lemma TickPins(s: Sys, inputs: Inputs, i: nat)
    requires Inv(s) && i < 3 && Agrees(s.arm.joints[i])
    ensures Agrees(AfterTick(s.arm, inputs).joints[i])
  {
    if !s.arm.oneShot {
      TickedSafe(s.arm.joints[i], i, inputs);
    }
  }

  lemma MainPins(s: Sys, inputs: Inputs, i: nat)
    requires Inv(s) && i < 3 && Agrees(s.arm.joints[i])
    ensures Agrees(MainStep(s, inputs).arm.joints[i])
  {
    MainEdits(s, inputs, i);
  }

  lemma CommandPins(a: Arm, c: Command)
    requires PinsAgree(a.joints) && WiredCommand(Receive(c))
    ensures PinsAgree(AfterCommand(a, c).joints)
  {
    match c
    case SetDirection(m, d) => DirectionPins(a.joints, m, d);
    case SetPosition(m, p) => PositionPins(a.joints, m, p);
    case Brake => BrakePins(a.joints, 0);
    case _ =>
  }

  lemma NextPins(s: Sys, e: Event)
    requires Inv(s) && PinsAgree(s.arm.joints) && WiredCommand(e)
    ensures PinsAgree(Next(s, e).arm.joints)
  {
    match e
    case Tick(inputs) => forall i | 0 <= i < 3 ensures Agrees(Next(s, e).arm.joints[i]) { TickPins(s, inputs, i); }
    case Receive(c) => CommandPins(s.arm, c);
    case Main(inputs) => forall i | 0 <= i < 3 ensures Agrees(Next(s, e).arm.joints[i]) { MainPins(s, inputs, i); }
  }

  /** As long as commands name the three motors there are, the motors are told what the table says ... */
  lemma {:induction false} PinsFollowTable(s: Sys, events: seq<Event>, t: Sys)
    requires Inv(s) && PinsAgree(s.arm.joints) && IsRun(s, events, t)
    requires forall e | e in events :: WiredCommand(e)
    ensures PinsAgree(t.arm.joints)
    decreases |events|
  {
    if events != [] {
      NextInv(s, events[0]);
      NextPins(s, events[0]);
      PinsFollowTable(Next(s, events[0]), events[1..], t);
    }
  }

  /** ... and every one of them is driven, if at all, in a permitted direction. */
  lemma PinsPermitted(s: Sys, i: nat)
    requires Inv(s) && PinsAgree(s.arm.joints) && i < 3
    ensures Driving(s.arm.joints[i].pin) ==> Permitted(s.arm.joints[i].allowed, s.arm.joints[i].pin)
  {
  }

  /** Any other id changes the elbow's entry without its pins: they agree afterwards exactly if the new
      entry says what the pins were told before. */
  lemma UnknownMotorAgreesIff(js: Table, motor: Byte, d: Direction)
    requires !Wired(motor) && Agrees(js[1])
    ensures var elbow := WithDirection(js, motor, d)[1];
      Agrees(elbow) <==> Wire(if Permitted(js[1].allowed, d) then d else Stop) == Wire(js[1].current)
  {
  }

  // ---- The timer after an interrupted calibration ----

  /** A calibration interrupted in one of its two timed phases leaves the timer in its one-shot mode;
      an interruption seen by the last check does not. */
  lemma TimerLeftOneShotIff(s: Sys, inputs: Inputs)
    requires Inv(s) && s.at.Checking? && s.arm.interrupt
    ensures MainStep(s, inputs).at == Braking(0, ToFail)
    ensures MainStep(s, inputs).arm.oneShot <==> s.at.phase < 3
  {
  }

  /** On the way out of an interrupted calibration, or back in the main loop with none requested. */
  ghost predicate Deaf(s: Sys) {
    s.arm.oneShot && !s.arm.start && (s.at.Idle? || s.at.Failing? || (s.at.Braking? && s.at.next == ToFail))
  }

  /** From there on, until the next CALIBRATE command, no tick reads a limit switch or an encoder. */
  lemma {:induction false} StaysDeaf(s: Sys, events: seq<Event>, t: Sys, e: Event)
    requires Deaf(s) && IsRun(s, events, t) && Receive(Calibrate) !in events
    ensures Deaf(t) && (e.Tick? ==> Next(t, e).arm.joints == t.arm.joints)
    decreases |events|
  {
    if events != [] {
      assert Deaf(Next(s, events[0]));
      StaysDeaf(Next(s, events[0]), events[1..], t, e);
    }
  }

  /** While the timer is in its continuous mode, and only then, the sixth closed reading stops a driven
      joint. */
  lemma LimitStopsIff(s: Sys, inputs: Inputs, i: nat)
    requires i < 3 && Driving(s.arm.joints[i].current)
    requires !s.arm.joints[i].pressed && s.arm.joints[i].counter == DEBOUNCE && Switch(inputs, i)
    ensures AfterTick(s.arm, inputs).joints[i].current == Stop <==> !s.arm.oneShot
  {
    PressBlocks(s.arm.joints[i], i, s.arm.joints[i].current);
    StopStays(Debounced(s.arm.joints[i], i, true), i, Level(inputs.encoders, i));
  }

  lemma StopStays(j: Joint, index: nat, encoder: bool)
    requires j.current == Stop
    ensures EdgeCounted(Sampled(j, index, encoder), index).current == Stop
  {
  }
}
