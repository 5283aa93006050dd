/**
 Two runs of the arm driver from reset, into the states where it fails: a calibration interrupted in a
 timed phase, and one whose last stores meet a command.
 */
module ArmRuns {
  import opened ArmJoints
  import opened ArmSafety

  // ---- Putting runs together ----

  lemma {:induction false} RunAppend(s: Sys, es: seq<Event>, t: Sys, fs: seq<Event>, u: Sys)
    requires IsRun(s, es, t) && IsRun(t, fs, u)
    ensures IsRun(s, es + fs, u)
    decreases |es|
  {
    if es == [] {
      assert es + fs == fs;
    } else {
      assert (es + fs)[1..] == es[1..] + fs;
      RunAppend(Next(s, es[0]), es[1..], t, fs, u);
    }
  }

  lemma Advance(s: Sys, events: seq<Event>, t: Sys, e: Event) returns (longer: seq<Event>, u: Sys)
    requires IsRun(s, events, t) && Enabled(t, e)
    ensures longer == events + [e] && u == Next(t, e) && IsRun(s, longer, u)
  {
    longer, u := events + [e], Next(t, e);
    assert [e][1..] == [];
    assert IsRun(t, [e], u);
    RunAppend(s, events, t, [e], u);
  }

  // ---- The driver after reset ----

  function Resting(maximum: Byte): Joint {
    Joint(0, 0, maximum, Both, Stop, false, Free, 0, false, false, false, Stop)
  }

  const RESET_TABLE: Table := [Resting(79), Resting(105), Resting(255), Resting(0)]

  const RESET: Sys := Sys(Arm(RESET_TABLE, false, false, false, false, true, true), Idle, {}, 0)

  const OPEN: Inputs := Inputs(map[], map[])
  const CLOSED: Inputs := Inputs(map[0 := true, 1 := true, 2 := true], map[])

  lemma ResetIsStart()
    ensures IsStart(RESET)
  {
  }

  predicate Rests(j: Joint) { j.current == Stop && j.pin == Stop && !j.mode.Positional? }

  lemma StopRests(js: Table, motor: Byte)
    requires Rests(js[IndexOf(motor)])
    ensures WithDirection(js, motor, Stop) == js
  {
  }

  predicate AllRest(js: Table) { forall k | 0 <= k < TABLE_SIZE :: Rests(js[k]) }

  lemma {:induction false} BrakesThrough(s: Sys) returns (events: seq<Event>)
    requires s.at.Braking? && s.at.i < TABLE_SIZE && AllRest(s.arm.joints)
    ensures IsRun(s, events, s.(at := AfterBraking(s.at.next)))
    decreases TABLE_SIZE - s.at.i
  {
    var t := Next(s, Main(OPEN));
    StopRests(s.arm.joints, MotorOf(s.at.i));
    assert t == s.(at := DirectNext(s.at));
    var rest := [];
    if s.at.i < 3 {
      rest := BrakesThrough(t);
    }
    events := [Main(OPEN)] + rest;
    assert events[1..] == rest;
  }

  function Unlocked(j: Joint): Joint { j.(allowed := Both, calibrated := false, mode := Calibrating) }

  function UnlockedFrom(js: Table, i: nat): Table
    requires i <= TABLE_SIZE
    decreases TABLE_SIZE - i
  {
    if i == TABLE_SIZE then js else UnlockedFrom(js[i := Unlocked(js[i])], i + 1)
  }

  lemma StoreEffect(s: Sys)
    requires Stores(s.at) && s.registered == {}
    ensures var i := StoreIndex(s.at);
      Next(s, Main(OPEN)) == s.(arm := s.arm.(joints := s.arm.joints[i := Stored(s.at, s.arm.joints[i])]), at := StoreNext(s.at))
  {
  }

  lemma DirectEffect(s: Sys)
    requires Directs(s.at) && !s.at.Freeing?
    ensures Next(s, Main(OPEN))
         == s.(arm := s.arm.(joints := WithDirection(s.arm.joints, DirectMotor(s.at), DirectWay(s.at, false))), at := DirectNext(s.at))
  {
  }

  lemma UnlockOne(s: Sys) returns (events: seq<Event>)
    requires s.at.Unlocking? && s.at.stage == 0 && s.at.i < TABLE_SIZE && s.registered == {}
    ensures IsRun(s, events, s.(arm := s.arm.(joints := s.arm.joints[s.at.i := Unlocked(s.arm.joints[s.at.i])]),
                                at := if s.at.i < 3 then Unlocking(s.at.i + 1, 0) else Clearing(0)))
  {
    var i, js, t := s.at.i, s.arm.joints, s;
    StoreEffect(t);
    events, t := Advance(s, [], t, Main(OPEN));
    StoreEffect(t);
    events, t := Advance(s, events, t, Main(OPEN));
    StoreEffect(t);
    events, t := Advance(s, events, t, Main(OPEN));
    assert t.arm.joints == js[i := Unlocked(js[i])];
  }

  lemma {:induction false} UnlocksThrough(s: Sys) returns (events: seq<Event>)
    requires s.at.Unlocking? && s.at.stage == 0 && s.at.i < TABLE_SIZE && s.registered == {}
    ensures IsRun(s, events, s.(arm := s.arm.(joints := UnlockedFrom(s.arm.joints, s.at.i)), at := Clearing(0)))
    decreases TABLE_SIZE - s.at.i
  {
    var i, js := s.at.i, s.arm.joints;
    var first := UnlockOne(s);
    var t := s.(arm := s.arm.(joints := js[i := Unlocked(js[i])]), at := if i < 3 then Unlocking(i + 1, 0) else Clearing(0));
    if i < 3 {
      var rest := UnlocksThrough(t);
      RunAppend(s, first, t, rest, s.(arm := s.arm.(joints := UnlockedFrom(js, i)), at := Clearing(0)));
      events := first + rest;
    } else {
      events := first;
      assert UnlockedFrom(t.arm.joints, 4) == t.arm.joints;
    }
  }

  /** Clears its flags, finds every switch open, and arms the timer. */
  lemma ClearsThrough(s: Sys) returns (events: seq<Event>)
    requires s.at == Clearing(0)
    ensures IsRun(s, events, Sys(Arm(s.arm.joints, false, false, false, true, true, true), Waiting(1), s.registered, 0))
  {
    var t := s;
    events := [];
    events, t := Advance(s, events, t, Main(OPEN));
    events, t := Advance(s, events, t, Main(OPEN));
    events, t := Advance(s, events, t, Main(OPEN));
    assert t == Sys(s.arm.(calibrated := false, interrupt := false, start := false), Freeing(0), s.registered, 0);
    events, t := Advance(s, events, t, Main(OPEN));
    events, t := Advance(s, events, t, Main(OPEN));
    events, t := Advance(s, events, t, Main(OPEN));
    assert t.at == Arming(1);
    events, t := Advance(s, events, t, Main(OPEN));
  }

  const UNLOCKED: Table :=
    [Unlocked(Resting(79)), Unlocked(Resting(105)), Unlocked(Resting(255)), Unlocked(Resting(0))]

  /** In the first timed phase of a calibration that found no limit switch closed. */
  const WAITING: Sys := Sys(Arm(UNLOCKED, false, false, false, true, true, true), Waiting(1), {}, 0)

  lemma UnlockedReset()
    ensures UnlockedFrom(RESET_TABLE, 0) == UNLOCKED
  {
    var a := RESET_TABLE[0 := Unlocked(RESET_TABLE[0])];
    var b := a[1 := Unlocked(a[1])];
    var c := b[2 := Unlocked(b[2])];
    var d := c[3 := Unlocked(c[3])];
    assert UnlockedFrom(c, 3) == UnlockedFrom(d, 4) == d;
    assert UnlockedFrom(a, 1) == UnlockedFrom(b, 2) == UnlockedFrom(c, 3);
  }

  lemma ReachesWaiting() returns (events: seq<Event>)
    ensures IsRun(RESET, events, WAITING)
  {
    var t := RESET;
    events := [];
    events, t := Advance(RESET, events, t, Receive(Calibrate));
    events, t := Advance(RESET, events, t, Main(OPEN));
    assert t.at == Braking(0, ToUnlock) && t.arm.joints == RESET_TABLE;
    var brakes := BrakesThrough(t);
    var u := t.(at := Unlocking(0, 0));
    RunAppend(RESET, events, t, brakes, u);
    var unlocks := UnlocksThrough(u);
    UnlockedReset();
    var v := u.(arm := u.arm.(joints := UNLOCKED), at := Clearing(0));
    RunAppend(RESET, events + brakes, u, unlocks, v);
    var clears := ClearsThrough(v);
    RunAppend(RESET, events + brakes + unlocks, v, clears, WAITING);
    events := events + brakes + unlocks + clears;
  }

  // ---- Deaf, and driving ----

  /** A command interrupts the calibration in its first timed phase, and another drives the elbow: from
      then on until the next CALIBRATE the elbow is driven whatever its limit switch shows. */
  lemma DeafReachable() returns (events: seq<Event>, t: Sys)
    ensures IsRun(RESET, events, t) && Deaf(t) && t.at == Idle
    ensures t.arm.joints[1].current == Forward && t.arm.joints[1].pin == Forward && !t.arm.joints[1].pressed
    ensures forall inputs: Inputs :: Next(t, Tick(inputs)).arm.joints == t.arm.joints
  {
    events := ReachesWaiting();
    t := WAITING;
    events, t := Advance(RESET, events, t, Receive(SetSpeed));
    events, t := Advance(RESET, events, t, Main(OPEN));
    events, t := Advance(RESET, events, t, Main(OPEN));
    assert t == WAITING.(arm := WAITING.arm.(interrupt := true), at := Braking(0, ToFail));
    var brakes := BrakesThrough(t);
    RunAppend(RESET, events, t, brakes, t.(at := Failing));
    events, t := Advance(RESET, events + brakes, t.(at := Failing), Main(OPEN));
    assert t == INTERRUPTED;
    DrivenDeaf();
    events, t := Advance(RESET, events, t, Receive(SetDirection(ELBOW, Forward)));
  }

  /** Back in the main loop after an interruption in the first timed phase. */
  const INTERRUPTED: Sys := WAITING.(arm := WAITING.arm.(interrupt := true), at := Idle)

  lemma DrivenDeaf()
    ensures var t := Next(INTERRUPTED, Receive(SetDirection(ELBOW, Forward)));
      && Deaf(t) && t.at == Idle
      && t.arm.joints[1].current == Forward && t.arm.joints[1].pin == Forward && !t.arm.joints[1].pressed
      && forall inputs: Inputs :: Next(t, Tick(inputs)).arm.joints == t.arm.joints
  {
  }

  // ---- A calibration that meets a command ----

  function Driven(maximum: Byte, d: Direction): Joint { Unlocked(Resting(maximum)).(current := d, pin := d) }

  const SEARCHING: Table := [Driven(79, Backward), Driven(105, Forward), Driven(255, Backward), Unlocked(Resting(0))]

  /** Both timed phases pass undisturbed. */
  lemma ReachesSecondWait() returns (events: seq<Event>)
    ensures IsRun(RESET, events, Sys(Arm(SEARCHING, false, false, false, true, true, true), Waiting(2), {}, 1))
  {
    events := ReachesWaiting();
    var t := WAITING;
    events, t := Advance(RESET, events, t, Tick(OPEN));
    events, t := Advance(RESET, events, t, Main(OPEN));
    events, t := Advance(RESET, events, t, Main(OPEN));
    assert t == Sys(WAITING.arm.(notClear := false, timerOn := false), Stopping(0), {}, 1);
    events := StopsAll(events, t);
    events := LeavesAll(events, t.(at := Leaving(0)));
    t := t.(arm := t.arm.(joints := SEARCHING), at := Arming(2));
    events, t := Advance(RESET, events, t, Main(OPEN));
  }

  lemma StopOnce(s: Sys)
    requires s.at.Stopping? && s.at.k < 3 && s.arm.joints == UNLOCKED
    ensures Next(s, Main(OPEN)) == s.(at := DirectNext(s.at))
  {
    DirectEffect(s);
    StopRests(UNLOCKED, DirectMotor(s.at));
  }

  lemma StopsAll(events: seq<Event>, s: Sys) returns (longer: seq<Event>)
    requires IsRun(RESET, events, s) && s.at == Stopping(0) && s.arm.joints == UNLOCKED
    ensures IsRun(RESET, longer, s.(at := Leaving(0)))
  {
    var t := s;
    StopOnce(t);
    longer, t := Advance(RESET, events, t, Main(OPEN));
    StopOnce(t);
    longer, t := Advance(RESET, longer, t, Main(OPEN));
    StopOnce(t);
    longer, t := Advance(RESET, longer, t, Main(OPEN));
  }

  lemma LeavesAll(events: seq<Event>, s: Sys) returns (longer: seq<Event>)
    requires IsRun(RESET, events, s) && s.at == Leaving(0) && s.arm.joints == UNLOCKED
    ensures IsRun(RESET, longer, s.(arm := s.arm.(joints := SEARCHING), at := Arming(2)))
  {
    var t := s;
    longer, t := Advance(RESET, events, t, Main(OPEN));
    assert t.at == Leaving(1) && t.arm.joints == UNLOCKED[1 := Driven(105, Forward)];
    longer, t := Advance(RESET, longer, t, Main(OPEN));
    assert t.at == Leaving(2) && t.arm.joints == UNLOCKED[1 := Driven(105, Forward)][0 := Driven(79, Backward)];
    longer, t := Advance(RESET, longer, t, Main(OPEN));
    assert t.arm.joints == SEARCHING;
  }

  lemma ApproachOnce(s: Sys)
    requires s.at.Approaching? && s.at.k < 3 && s.arm.joints == SEARCHING
    ensures Next(s, Main(OPEN)) == s.(at := DirectNext(s.at))
  {
    DirectEffect(s);
    assert WithDirection(SEARCHING, DirectMotor(s.at), DirectWay(s.at, false)) == SEARCHING;
  }

  lemma ApproachesAll(events: seq<Event>, s: Sys) returns (longer: seq<Event>)
    requires IsRun(RESET, events, s) && s.at == Approaching(0) && s.arm.joints == SEARCHING
    ensures IsRun(RESET, longer, s.(at := Checking(2)))
  {
    var t := s;
    ApproachOnce(t);
    longer, t := Advance(RESET, events, t, Main(OPEN));
    ApproachOnce(t);
    longer, t := Advance(RESET, longer, t, Main(OPEN));
    ApproachOnce(t);
    longer, t := Advance(RESET, longer, t, Main(OPEN));
  }

  lemma ReachesSeeking() returns (events: seq<Event>)
    ensures IsRun(RESET, events, Sys(Arm(SEARCHING, false, false, false, false, false, true), Seeking, {}, 2))
  {
    events := ReachesSecondWait();
    var t := Sys(Arm(SEARCHING, false, false, false, true, true, true), Waiting(2), {}, 1);
    events, t := Advance(RESET, events, t, Tick(OPEN));
    events, t := Advance(RESET, events, t, Main(OPEN));
    assert t == Sys(Arm(SEARCHING, false, false, false, true, false, false), Approaching(0), {}, 1);
    events := ApproachesAll(events, t);
    t := t.(at := Checking(2));
    events, t := Advance(RESET, events, t, Main(OPEN));
    assert t == Sys(Arm(SEARCHING, false, false, false, true, false, false), Resuming, {}, 2);
    events, t := Advance(RESET, events, t, Main(OPEN));
    assert t == Sys(Arm(SEARCHING, false, false, false, false, false, true), Seeking, {}, 2);
  }

  function Counting(js: Table, n: Byte): Table {
    [js[0].(counter := n), js[1].(counter := n), js[2].(counter := n), js[3]]
  }

  lemma ClosedTick(n: Byte)
    requires n < DEBOUNCE
    ensures TableTicked(Counting(SEARCHING, n), CLOSED) == Counting(SEARCHING, n + 1)
  {
    assert Ticked(Counting(SEARCHING, n)[0], 0, CLOSED) == Counting(SEARCHING, n + 1)[0];
    assert Ticked(Counting(SEARCHING, n)[1], 1, CLOSED) == Counting(SEARCHING, n + 1)[1];
    assert Ticked(Counting(SEARCHING, n)[2], 2, CLOSED) == Counting(SEARCHING, n + 1)[2];
    assert Ticked(Counting(SEARCHING, n)[3], 3, CLOSED) == Counting(SEARCHING, n + 1)[3];
  }

  lemma {:induction false} ClosedTicks(n: Byte) returns (events: seq<Event>, t: Sys)
    requires n <= DEBOUNCE
    ensures IsRun(RESET, events, t) && t.at == Seeking && t.arm == Arm(Counting(SEARCHING, n), false, false, false, false, false, true)
    decreases n
  {
    if n == 0 {
      events := ReachesSeeking();
      t := Sys(Arm(SEARCHING, false, false, false, false, false, true), Seeking, {}, 2);
      assert Counting(SEARCHING, 0) == SEARCHING;
    } else {
      events, t := ClosedTicks(n - 1);
      ClosedTick(n - 1);
      assert Next(t, Tick(CLOSED)).arm == t.arm.(joints := Counting(SEARCHING, n));
      events, t := Advance(RESET, events, t, Tick(CLOSED));
    }
  }

  /** Stopped at its upper limit. */
  const AT_LIMIT: Joint := Driven(105, Stop).(position := 105, allowed := Backward, calibrated := true, pressed := true)

  /** All joints found their limits, the last check is passed. */
  lemma ReachesHoming() returns (events: seq<Event>, t: Sys)
    ensures IsRun(RESET, events, t) && t.at == Homing(0) && t.arm.joints[1] == AT_LIMIT
    ensures !t.arm.oneShot && t.arm.timerOn
  {
    events, t := ClosedTicks(DEBOUNCE);
    SixthClosedTick();
    assert Next(t, Tick(CLOSED)).arm == t.arm.(joints := TableTicked(Counting(SEARCHING, DEBOUNCE), CLOSED));
    events, t := Advance(RESET, events, t, Tick(CLOSED));
    FoundAll(t);
    events, t := Advance(RESET, events, t, Main(OPEN));
    events, t := Advance(RESET, events, t, Main(OPEN));
  }

  lemma SixthClosedTick()
    ensures var js := TableTicked(Counting(SEARCHING, DEBOUNCE), CLOSED); Seeked(js) && js[1] == AT_LIMIT
  {
    var js := Counting(SEARCHING, DEBOUNCE);
    assert Ticked(js[0], 0, CLOSED).calibrated;
    assert Ticked(js[1], 1, CLOSED) == AT_LIMIT;
    assert Ticked(js[2], 2, CLOSED).calibrated;
  }

  lemma FoundAll(s: Sys)
    requires s.at == Seeking && Seeked(s.arm.joints) && !s.arm.interrupt
    ensures Next(s, Main(OPEN)) == s.(at := Checking(3))
    ensures Next(s.(at := Checking(3)), Main(OPEN)) == s.(at := Homing(0), quiet := s.quiet + 1)
  {
  }

  /** The elbow's encoder at one level or the other. */
  function Turning(level: bool): Inputs { Inputs(map[], map[1 := level]) }

  function Returning(n: Byte): Joint
    requires n <= DEBOUNCE
  {
    AT_LIMIT.(mode := Positional, current := Backward, pin := Backward, position := 105 - n, counter := n,
              encoder := n % 2 == 1, previousEncoder := n > 0 && n % 2 == 0)
  }

  lemma ReturningTick(n: Byte)
    requires n < DEBOUNCE
    ensures Ticked(Returning(n), 1, Turning(n % 2 == 0)) == Returning(n + 1)
  {
  }

  /** The elbow sent back down while the stores of the calibration are still to come. */
  lemma {:induction false} ReturningTicks(n: Byte) returns (events: seq<Event>, t: Sys)
    requires n <= DEBOUNCE
    ensures IsRun(RESET, events, t) && t.at == Homing(0) && t.arm.joints[1] == Returning(n)
    ensures !t.arm.oneShot && t.arm.timerOn
    decreases n
  {
    if n == 0 {
      events, t := ReachesHoming();
      events, t := Advance(RESET, events, t, Receive(SetPosition(ELBOW, 0)));
    } else {
      events, t := ReturningTicks(n - 1);
      ReturningTick(n - 1);
      events, t := Advance(RESET, events, t, Tick(Turning((n - 1) % 2 == 0)));
    }
  }

  lemma SentUpAgain()
    ensures var j := Positioned(Ticked(Returning(DEBOUNCE), 1, Turning(false)), 1, 100, true);
      j.mode.Positional? && j.current == Forward && j.target == 100 && j.maximum == 105
  {
  }

  lemma HomesOthers(s: Sys)
    requires s.at.Homing? && s.at.k < 2
    ensures var t := Next(s, Main(OPEN)); t.at == Homing(s.at.k + 1) && t.arm.joints[1] == s.arm.joints[1]
  {
  }

  /** Two commands that slip in after the last check, the second up again but not to the end: the store
      of the elbow's position then puts it past its target, in positional mode and still driven away
      from it. */
  lemma BrokenCourseReachable() returns (events: seq<Event>, t: Sys)
    ensures IsRun(RESET, events, t) && Inv(t) && t.at == Homing(2)
    ensures OnCourse(t.arm.joints[1]) && !OnCourse(MainStep(t, OPEN).arm.joints[1])
  {
    events, t := ReturningTicks(DEBOUNCE);
    events, t := Advance(RESET, events, t, Tick(Turning(false)));
    assert t.arm.joints[1] == Ticked(Returning(DEBOUNCE), 1, Turning(false));
    SentUpAgain();
    events, t := Advance(RESET, events, t, Receive(SetPosition(ELBOW, 100)));
    HomesOthers(t);
    events, t := Advance(RESET, events, t, Main(OPEN));
    HomesOthers(t);
    events, t := Advance(RESET, events, t, Main(OPEN));
    ResetIsStart();
    StartInv(RESET);
    RunInv(RESET, events, t);
    HomingBreaksCourseIff(t, OPEN);
  }
}
