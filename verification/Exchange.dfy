/**
 One exchange with the bridge, through its bytes: what a message does to the robot and what the
 response does to the server.
 */
module Exchange {
  import opened Protocol
  import opened DataHolders
  import opened HostInterface
  import opened BridgeFirmware
  import opened Synchronisation

  // ---- The response comes back as the device's values ----

  /** What one polled value should do to the server's picture. */
  function Absorb(h: Host, d: Device, c: Command, r: Readings): Host
    requires IsGetter(c)
  {
    match c
    case GetState =>
      (if d.Active() then AfterKill(h.(killActive := true, killByHardware := d.byHardware))
       else h.(killActive := false, killByHardware := false)).(sensors := r.sensors)
    case GetMotor(id) =>
      var m := MotorNumbered(id);
      h.WithMotor(m, h.MotorOf(m).(power := r.motorPower))
    case GetJoint(id) =>
      var j := JointNumbered(id);
      h.WithJoint(j, h.JointOf(j).(direction := DirectionNumbered(r.jointDirection), speed := r.jointSpeed, position := r.jointPosition))
    case GetGeneral => AfterGeneralState(h, r.calibrated, r.mode)
    case GetExpander => h.(expander := BitsOf(r.expander))
  }

  function AbsorbAll(h: Host, d: Device, cs: seq<Command>, r: Readings): Host
    requires forall i | 0 <= i < |cs| :: IsGetter(cs[i])
    decreases |cs|
  {
    if cs == [] then h else AbsorbAll(Absorb(h, d, cs[0], r), d, cs[1..], r)
  }

  /** Every listener that is asked about a polled value takes exactly the bytes the bridge pushed for
      it, and the value. */
  lemma ReplyTaken(h: Host, d: Device, c: Command, r: Readings, data: seq<Byte>)
    requires IsGetter(c) && |data| >= STATE_SIZE && Reply(d, c, r) <= data
    ensures Dispatch(h, LISTENERS, Encode(c)[0], data) == (Absorb(h, d, c, r), |Reply(d, c, r)|)
    ensures 0 < |Reply(d, c, r)| <= STATE_SIZE
  {
    var reply := Reply(d, c, r);
    assert forall i | 0 <= i < |reply| :: data[i] == reply[i];
    ExactlyOneListener(h, Encode(c)[0], data);
  }

  lemma {:induction false} ResponseRoundTrip(h: Host, s: Session, cs: seq<Command>, r: Readings, response: seq<Byte>)
    requires forall i | 0 <= i < |cs| :: IsGetter(cs[i])
    requires |s.pushed| + RoomFor(|cs|) < |response|
    requires PerformAll(s, cs, r).pushed + [MESSAGE_END] <= response
    ensures AfterResponse(h, Codes(cs), response, |s.pushed|) == Updated(AbsorbAll(h, s.device, cs, r))
    decreases |cs|
  {
    if cs == [] {
    } else {
      var t := Perform(s, cs[0], r);
      PushedGrows(t, cs[1..], r);
      assert t.pushed <= response;
      assert Reply(s.device, cs[0], r) <= response[|s.pushed|..];
      ReplyTaken(h, s.device, cs[0], r, response[|s.pushed|..]);
      assert Codes(cs)[1..] == Codes(cs[1..]);
      ResponseRoundTrip(Absorb(h, s.device, cs[0], r), t, cs[1..], r, response);
    }
  }

  lemma {:induction false} PushedGrows(s: Session, cs: seq<Command>, r: Readings)
    ensures s.pushed <= PerformAll(s, cs, r).pushed
    decreases |cs|
  {
    if cs != [] {
      PushedGrows(Perform(s, cs[0], r), cs[1..], r);
    }
  }

  lemma {:induction false} GettersOnly(s: Session, cs: seq<Command>, r: Readings)
    requires forall i | 0 <= i < |cs| :: IsGetter(cs[i])
    ensures PerformAll(s, cs, r).device == s.device
    ensures |PerformAll(s, cs, r).pushed| <= |s.pushed| + RoomFor(|cs|)
    decreases |cs|
  {
    if cs != [] {
      GettersOnly(Perform(s, cs[0], r), cs[1..], r);
    }
  }

  /** The answer to the polls of one packet is at most 17 bytes long, so it fits its 64-byte packet with
      the end mark to spare. */
  lemma ReplyBound(d: Device, counter: nat, killActive: bool, r: Readings)
    ensures |PerformAll(Session(d, []), Polls(counter, killActive), r).pushed| + 1 <= 18 <= RESPONSE_SIZE
  {
    var s, ps := Session(d, []), Polls(counter, killActive);
    var t := Perform(s, ps[0], r);
    assert PerformAll(s, ps, r) == PerformAll(t, ps[1..], r);
    if !killActive {
      var u := Perform(t, ps[1], r);
      assert PerformAll(t, ps[1..], r) == PerformAll(u, ps[1..][1..], r);
      assert PerformAll(u, ps[1..][1..], r) == PerformAll(Perform(u, ps[2], r), [], r);
    }
  }

  // ---- What a set of requests does to the robot ----

  function Accepted(d: Device, diff: map<Key, Holder>): map<Key, Command>
    requires AllWellFormed(diff)
  {
    map k | k in diff && !(Dependent(k) && d.Active()) :: CommandOf(k, diff[k])
  }

  function KillSwitchApplied(d: Device, diff: map<Key, Holder>): Device
    requires AllWellFormed(diff)
  {
    if KillSwitchKey in diff then Exec(d, CommandOf(KillSwitchKey, diff[KillSwitchKey])) else d
  }

  /** The last command to a joint after a message: BRAKE and CALIBRATE come behind the joints' own. */
  function LastTold(before: Arm, diff: map<Key, Holder>, j: Joint): Told
    requires AllWellFormed(diff)
  {
    if AddonKey in diff then Told(CommandOf(AddonKey, diff[AddonKey]))
    else if ArmKey(j) in diff then Told(CommandOf(ArmKey(j), diff[ArmKey(j)]))
    else before.At(j)
  }

  function ArmTold(d: Device, diff: map<Key, Holder>): Arm
    requires AllWellFormed(diff)
  {
    if d.Active() then d.arm
    else Arm(LastTold(d.arm, diff, Shoulder), LastTold(d.arm, diff, Elbow), LastTold(d.arm, diff, Gripper))
  }

  /** The effect of a message, whatever the queue made of equal priorities: the kill switch first,
      then everything the line lets through. */
  function Delivered(d: Device, diff: map<Key, Holder>): Device
    requires AllWellFormed(diff)
  {
    var e := KillSwitchApplied(d, diff);
    e.(regs := e.regs + Accepted(e, diff), arm := ArmTold(e, diff))
  }

  lemma ExecStores(d: Device, k: Key, h: Holder)
    requires WellFormed(k, h) && k != KillSwitchKey
    ensures RegisterOf(CommandOf(k, h)) == k
    ensures Exec(d, CommandOf(k, h))
         == if Dependent(k) && d.Active() then d
            else d.(regs := d.regs[k := CommandOf(k, h)], arm := d.arm.After(CommandOf(k, h)))
  {
    match k
    case ArmKey(j) => match j { case Shoulder => case Elbow => case Gripper => }
    case MotorKey(m) => match m { case Left => case Right => }
    case _ =>
  }

  /** What an order leaves in the registers while the line is `down` or not. */
  function Stored(down: bool, diff: map<Key, Holder>, order: seq<Key>): map<Key, Command>
    requires AllWellFormed(diff) && forall k | k in order :: k in diff
  {
    map k | k in order && !(Dependent(k) && down) :: CommandOf(k, diff[k])
  }

  lemma CommandsCons(diff: map<Key, Holder>, order: seq<Key>)
    requires AllWellFormed(diff) && order != [] && forall k | k in order :: k in diff
    ensures Commands(diff, order) == [CommandOf(order[0], diff[order[0]])] + Commands(diff, order[1..])
  {
  }

  lemma OverlayCons<K, V>(under: map<K, V>, small: map<K, V>, big: map<K, V>, k: K)
    requires big.Keys == small.Keys + {k}
    requires forall j | j in small :: small[j] == big[j]
    ensures under[k := big[k]] + small == under + big
  {
  }

  lemma StoredKeys(down: bool, diff: map<Key, Holder>, order: seq<Key>)
    requires AllWellFormed(diff) && order != [] && forall k | k in order :: k in diff
    ensures Stored(down, diff, order).Keys
         == Stored(down, diff, order[1..]).Keys + if Dependent(order[0]) && down then {} else {order[0]}
  {
    assert forall k :: k in order <==> k == order[0] || k in order[1..];
  }

  lemma StoredCons(d: Device, diff: map<Key, Holder>, order: seq<Key>)
    requires AllWellFormed(diff) && order != [] && forall k | k in order :: k in diff
    ensures (if Dependent(order[0]) && d.Active() then d.regs else d.regs[order[0] := CommandOf(order[0], diff[order[0]])])
            + Stored(d.Active(), diff, order[1..])
         == d.regs + Stored(d.Active(), diff, order)
  {
    StoredKeys(d.Active(), diff, order);
    if Dependent(order[0]) && d.Active() {
      assert Stored(d.Active(), diff, order[1..]) == Stored(d.Active(), diff, order);
    } else {
      OverlayCons(d.regs, Stored(d.Active(), diff, order[1..]), Stored(d.Active(), diff, order), order[0]);
    }
  }

  /** No command to one joint stands behind one to all of them. */
  ghost predicate AddonBehind(order: seq<Key>) {
    forall i, j | 0 <= i < j < |order| && order[i] == AddonKey :: !order[j].ArmKey?
  }

  function OrderTold(before: Arm, down: bool, diff: map<Key, Holder>, order: seq<Key>, j: Joint): Told
    requires AllWellFormed(diff) && forall k | k in order :: k in diff
  {
    if down then before.At(j)
    else if AddonKey in order then Told(CommandOf(AddonKey, diff[AddonKey]))
    else if ArmKey(j) in order then Told(CommandOf(ArmKey(j), diff[ArmKey(j)]))
    else before.At(j)
  }

  function OrderArm(before: Arm, down: bool, diff: map<Key, Holder>, order: seq<Key>): Arm
    requires AllWellFormed(diff) && forall k | k in order :: k in diff
  {
    Arm(OrderTold(before, down, diff, order, Shoulder), OrderTold(before, down, diff, order, Elbow),
        OrderTold(before, down, diff, order, Gripper))
  }

  lemma AfterAt(a: Arm, k: Key, h: Holder, j: Joint)
    requires WellFormed(k, h)
    ensures a.After(CommandOf(k, h)).At(j) == if k == AddonKey || k == ArmKey(j) then Told(CommandOf(k, h)) else a.At(j)
  {
    match k
    case ArmKey(i) => match i { case Shoulder => case Elbow => case Gripper => }
    case _ =>
  }

  lemma OrderToldCons(a: Arm, diff: map<Key, Holder>, order: seq<Key>, j: Joint)
    requires AllWellFormed(diff) && order != [] && (forall k | k in order :: k in diff) && AddonBehind(order)
    ensures OrderTold(a.After(CommandOf(order[0], diff[order[0]])), false, diff, order[1..], j) == OrderTold(a, false, diff, order, j)
  {
    AfterAt(a, order[0], diff[order[0]], j);
    assert forall k :: k in order <==> k == order[0] || k in order[1..];
    assert order[0] == AddonKey ==> forall i | 0 < i < |order| :: !order[i].ArmKey?;
  }

  lemma OrderArmCons(a: Arm, down: bool, diff: map<Key, Holder>, order: seq<Key>)
    requires AllWellFormed(diff) && order != [] && (forall k | k in order :: k in diff) && AddonBehind(order)
    ensures OrderArm(if Dependent(order[0]) && down then a else a.After(CommandOf(order[0], diff[order[0]])), down, diff, order[1..])
         == OrderArm(a, down, diff, order)
  {
    if !down {
      OrderToldCons(a, diff, order, Shoulder);
      OrderToldCons(a, diff, order, Elbow);
      OrderToldCons(a, diff, order, Gripper);
    } else if !Dependent(order[0]) {
      AfterAt(a, order[0], diff[order[0]], Shoulder);
      AfterAt(a, order[0], diff[order[0]], Elbow);
      AfterAt(a, order[0], diff[order[0]], Gripper);
    }
  }

  /** Behind the kill switch the order of a message matters for the arm only, and there only in that
      commands to all joints come last. */
  lemma {:induction false} OrderIrrelevant(s: Session, diff: map<Key, Holder>, order: seq<Key>, r: Readings)
    requires AllWellFormed(diff) && KillSwitchKey !in order && (forall k | k in order :: k in diff) && AddonBehind(order)
    ensures var d := s.device;
      PerformAll(s, Commands(diff, order), r)
      == Session(d.(regs := d.regs + Stored(d.Active(), diff, order), arm := OrderArm(d.arm, d.Active(), diff, order)), s.pushed)
    decreases |order|
  {
    if order == [] {
      assert s.device.regs + Stored(s.device.Active(), diff, order) == s.device.regs;
    } else {
      var c := CommandOf(order[0], diff[order[0]]);
      CommandsCons(diff, order);
      PerformCons(s, c, Commands(diff, order[1..]), r);
      BehindTail(order);
      OrderIrrelevant(Perform(s, c, r), diff, order[1..], r);
      ExecStores(s.device, order[0], diff[order[0]]);
      StoredCons(s.device, diff, order);
      OrderArmCons(s.device.arm, s.device.Active(), diff, order);
    }
  }

  lemma BehindTail(order: seq<Key>)
    requires AddonBehind(order) && order != []
    ensures AddonBehind(order[1..])
  {
  }

  lemma MergeAddonBehind(diff: map<Key, Holder>, order: seq<Key>)
    requires AllWellFormed(diff) && IsMerge(diff, order)
    ensures AddonBehind(order)
  {
    forall i, j | 0 <= i < j < |order| && order[i] == AddonKey ensures !order[j].ArmKey? {
      AddonAfterJoints(diff, order, i, j);
    }
  }

  /** The only priority 0 is the kill switch's. */
  lemma KillSwitchFirst(diff: map<Key, Holder>, order: seq<Key>)
    requires AllWellFormed(diff) && IsMerge(diff, order) && KillSwitchKey in diff
    ensures order != [] && order[0] == KillSwitchKey && KillSwitchKey !in order[1..]
  {
    var i :| 0 <= i < |order| && order[i] == KillSwitchKey;
  }

  lemma KillSwitchMergeDelivers(d: Device, diff: map<Key, Holder>, order: seq<Key>, r: Readings)
    requires AllWellFormed(diff) && IsMerge(diff, order) && KillSwitchKey in diff
    ensures PerformAll(Session(d, []), Commands(diff, order), r) == Session(Delivered(d, diff), [])
  {
    var c := CommandOf(KillSwitchKey, diff[KillSwitchKey]);
    var e := Exec(d, c);
    KillSwitchFirst(diff, order);
    CommandsCons(diff, order);
    PerformCons(Session(d, []), c, Commands(diff, order[1..]), r);
    MergeAddonBehind(diff, order);
    BehindTail(order);
    OrderIrrelevant(Session(e, []), diff, order[1..], r);
    StoredRest(e, diff, order);
    assert forall k :: k in diff <==> k == KillSwitchKey || k in order[1..];
    OrderArmAll(e, diff, order[1..]);
  }

  lemma OrderArmAll(d: Device, diff: map<Key, Holder>, order: seq<Key>)
    requires AllWellFormed(diff) && (forall k | k in order :: k in diff)
    requires forall k | Dependent(k) && k in diff :: k in order
    ensures OrderArm(d.arm, d.Active(), diff, order) == ArmTold(d, diff)
  {
  }

  lemma MergeDelivers(d: Device, diff: map<Key, Holder>, order: seq<Key>, r: Readings)
    requires AllWellFormed(diff) && IsMerge(diff, order)
    ensures PerformAll(Session(d, []), Commands(diff, order), r) == Session(Delivered(d, diff), [])
  {
    if KillSwitchKey in diff {
      KillSwitchMergeDelivers(d, diff, order, r);
    } else {
      PlainMergeDelivers(d, diff, order, r);
    }
  }

  lemma PlainMergeDelivers(d: Device, diff: map<Key, Holder>, order: seq<Key>, r: Readings)
    requires AllWellFormed(diff) && IsMerge(diff, order) && KillSwitchKey !in diff
    ensures PerformAll(Session(d, []), Commands(diff, order), r) == Session(Delivered(d, diff), [])
  {
    MergeAddonBehind(diff, order);
    OrderIrrelevant(Session(d, []), diff, order, r);
    StoredAll(d, diff, order);
    OrderArmAll(d, diff, order);
  }

  lemma StoredAll(d: Device, diff: map<Key, Holder>, order: seq<Key>)
    requires AllWellFormed(diff) && IsMerge(diff, order)
    ensures Stored(d.Active(), diff, order) == Accepted(d, diff)
  {
  }

  lemma StoredRest(e: Device, diff: map<Key, Holder>, order: seq<Key>)
    requires AllWellFormed(diff) && IsMerge(diff, order) && order != [] && order[0] == KillSwitchKey
    requires KillSwitchKey in e.regs && e.regs[KillSwitchKey] == CommandOf(KillSwitchKey, diff[KillSwitchKey])
    ensures e.regs + Stored(e.Active(), diff, order[1..]) == e.regs + Accepted(e, diff)
  {
    StoredCons(e, diff, order);
    StoredAll(e, diff, order);
    SameUpdate(e.regs, KillSwitchKey, CommandOf(KillSwitchKey, diff[KillSwitchKey]));
  }

  lemma SameUpdate<K, V>(m: map<K, V>, k: K, v: V)
    requires k in m && m[k] == v
    ensures m[k := v] == m
  {
  }

  /** No joint SET comes after a BRAKE or CALIBRATE in the same message. */
  lemma AddonAfterJoints(diff: map<Key, Holder>, order: seq<Key>, i: nat, j: nat)
    requires AllWellFormed(diff) && IsMerge(diff, order) && i < j < |order|
    requires order[i] == AddonKey
    ensures !order[j].ArmKey?
  {
    assert WellFormed(order[i], diff[order[i]]) && WellFormed(order[j], diff[order[j]]);
  }

  // ---- A whole synchronisation ----

  /** One synchronisation as its meaning: the changes delivered, the polled values absorbed. */
  function SyncedWorld(w: World, r: Readings): World
    requires AllWellFormed(w.host.requests)
  {
    var d := Delivered(w.device, w.Changes());
    World(AbsorbAll(w.host, d, Polls(w.counter, w.host.killActive), r), Remembered(w.host.requests, w.host.killActive),
          if w.host.killActive then w.counter else w.counter + 1, d)
  }

  /** What the bridge pushes for the polls that close a message. */
  function PollReplies(w: World, r: Readings): seq<Byte>
    requires AllWellFormed(w.host.requests)
  {
    PerformAll(Session(Delivered(w.device, w.Changes()), []), Polls(w.counter, w.host.killActive), r).pushed
  }

  /** The packet as the bridge takes it: all changes delivered, all polls answered. */
  lemma PacketAnswered(w: World, order: seq<Key>, r: Readings)
    requires AllWellFormed(w.host.requests) && IsMerge(w.Changes(), order)
    ensures |PollReplies(w, r)| < RESPONSE_SIZE
    ensures RunPacket(w.device, Resized(Message(w.Changes(), order, w.counter, w.host.killActive)), r)
         == Answered(Delivered(w.device, w.Changes()), Filled(PollReplies(w, r))[..RESPONSE_SIZE])
  {
    PacketPerformed(w, order, r);
    PacketRoundTrip(w.Changes(), order, w.counter, w.host.killActive);
    RepliesFit(w, r);
  }

  lemma RepliesFit(w: World, r: Readings)
    requires AllWellFormed(w.host.requests)
    ensures |PollReplies(w, r)| < 18
  {
    ReplyBound(Delivered(w.device, w.Changes()), w.counter, w.host.killActive, r);
  }

  lemma PacketPerformed(w: World, order: seq<Key>, r: Readings)
    requires AllWellFormed(w.host.requests) && IsMerge(w.Changes(), order)
    ensures PerformAll(Session(w.device, []), Commands(w.Changes(), order) + Polls(w.counter, w.host.killActive), r)
         == Session(Delivered(w.device, w.Changes()), PollReplies(w, r))
  {
    var diff, polls := w.Changes(), Polls(w.counter, w.host.killActive);
    MergeDelivers(w.device, diff, order, r);
    PerformAppend(Session(w.device, []), Commands(diff, order), polls, r);
    GettersOnly(Session(Delivered(w.device, diff), []), polls, r);
  }

  lemma ReplyAbsorbed(w: World, r: Readings)
    requires AllWellFormed(w.host.requests) && |PollReplies(w, r)| < RESPONSE_SIZE
    ensures var d, polls := Delivered(w.device, w.Changes()), Polls(w.counter, w.host.killActive);
      AfterResponse(w.host, Codes(polls), Filled(PollReplies(w, r))[..RESPONSE_SIZE], 0)
      == Updated(AbsorbAll(w.host, d, polls, r))
  {
    var pushed := PollReplies(w, r);
    var response := Filled(pushed)[..RESPONSE_SIZE];
    assert response[|pushed|] == MESSAGE_END;
    assert pushed + [MESSAGE_END] <= response;
    ResponseRoundTrip(w.host, Session(Delivered(w.device, w.Changes()), []), Polls(w.counter, w.host.killActive), r, response);
  }

  /** The bytes on the wire, the firmware's loop, its reply and the server's listeners together do
      exactly that, for every order the queue may choose; none of the failures can happen. */
  lemma SyncExact(w: World, order: seq<Key>, r: Readings)
    requires AllWellFormed(w.host.requests) && IsMerge(w.Changes(), order)
    ensures AfterSync(w, order, r) == Synced(SyncedWorld(w, r))
  {
    PacketAnswered(w, order, r);
    ReplyAbsorbed(w, r);
  }
}
