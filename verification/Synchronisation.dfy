/**
 The server's synchronisation with the bridge: only requests that changed since the last message
 are sent, merged by priority, followed by rotating polls.
 */
module Synchronisation {
  import opened Protocol
  import opened DataHolders
  import opened HostInterface
  import opened BridgeFirmware

  // ---- What one message holds ----

  function Diff(requests: map<Key, Holder>, previous: map<Key, Holder>, killActive: bool): map<Key, Holder> {
    map k | k in requests && (k !in previous || previous[k] != requests[k]) && !(killActive && requests[k].dependent)
      :: requests[k]
  }

  /** What the next message is compared with. */
  function Remembered(requests: map<Key, Holder>, killActive: bool): map<Key, Holder> {
    map k | k in requests && !(killActive && requests[k].dependent) :: requests[k]
  }

  /** An order in which a priority queue may hand out the requests: ties are open. */
  ghost predicate IsMerge(diff: map<Key, Holder>, order: seq<Key>) {
    && (forall k :: k in order <==> k in diff)
    && (forall i, j | 0 <= i < j < |order| ::
          order[i] != order[j] && diff[order[i]].priority <= diff[order[j]].priority)
  }

  function Wires(diff: map<Key, Holder>, order: seq<Key>): seq<Byte>
    requires forall k | k in order :: k in diff
  {
    Flatten(seq(|order|, i requires 0 <= i < |order| => diff[order[i]].wire))
  }

  function Polls(counter: nat, killActive: bool): seq<Command> {
    if killActive then [GetState]
    else [
      GetState,
      GetMotor(MotorId(if counter % 2 == 1 then Left else Right)),
      match counter % 4
      case 0 => GetJoint(JointId(Elbow))
      case 1 => GetJoint(JointId(Gripper))
      case 2 => GetJoint(JointId(Shoulder))
      case _ => GetGeneral]
  }

  function Codes(cs: seq<Command>): seq<Byte> {
    seq(|cs|, i requires 0 <= i < |cs| => Encode(cs[i])[0])
  }

  function Message(diff: map<Key, Holder>, order: seq<Key>, counter: nat, killActive: bool): seq<Byte>
    requires forall k | k in order :: k in diff
  {
    Wires(diff, order) + EncodeAll(Polls(counter, killActive)) + [MESSAGE_END]
  }

  /** The USB layer pads to the packet size, and would cut a longer message. */
  function Resized(message: seq<Byte>): (p: seq<Byte>)
    ensures |p| == PACKET_SIZE
  {
    if |message| >= PACKET_SIZE then message[..PACKET_SIZE]
    else message + seq(PACKET_SIZE - |message|, _ => 0)
  }

  /** The server, its memory of the last message, and the robot. */
  datatype World = World(host: Host, previous: map<Key, Holder>, counter: nat, device: Device)
  {
    function Changes(): map<Key, Holder> { Diff(host.requests, previous, host.killActive) }
  }

  datatype SyncResult = Synced(world: World) | Failed

  /** One synchronisation through the real bytes. It fails if the bridge runs off a buffer or reboots, or
      the server throws one of its two exceptions. */
  function AfterSync(w: World, order: seq<Key>, r: Readings): SyncResult
    requires forall k | k in order :: k in w.Changes()
  {
    var kill := w.host.killActive;
    var packet := Resized(Message(w.Changes(), order, w.counter, kill));
    match RunPacket(w.device, packet, r)
    case Crashed => Failed
    case Rebooting(_) => Failed
    case Answered(device, response) =>
      match AfterResponse(w.host, Codes(Polls(w.counter, kill)), response, 0)
      case Unhandled => Failed
      case EndMissing => Failed
      case Updated(host) =>
        Synced(World(host, Remembered(w.host.requests, kill), if kill then w.counter else w.counter + 1, device))
  }

  // ---- The packet reads back as the commands ----

  function Commands(diff: map<Key, Holder>, order: seq<Key>): (cs: seq<Command>)
    requires AllWellFormed(diff) && forall k | k in order :: k in diff
    ensures |cs| == |order| && AllEncodable(cs)
    ensures forall i | 0 <= i < |order| :: cs[i] == CommandOf(order[i], diff[order[i]])
  {
    seq(|order|, i requires 0 <= i < |order| => CommandOf(order[i], diff[order[i]]))
  }

  lemma WiresEncode(diff: map<Key, Holder>, order: seq<Key>)
    requires AllWellFormed(diff) && forall k | k in order :: k in diff
    ensures Wires(diff, order) == EncodeAll(Commands(diff, order))
  {
    var cs := Commands(diff, order);
    var wires := seq(|order|, i requires 0 <= i < |order| => diff[order[i]].wire);
    assert wires == seq(|cs|, i requires 0 <= i < |cs| => Encode(cs[i]));
  }

  function WireBound(k: Key): nat {
    match k
    case KillSwitchKey => 2
    case ArmKey(_) => 6
    case MotorKey(_) => 4
    case AddonKey => 2
    case ExpanderKey => 2
    case LcdKey => 35
  }

  function Load(m: multiset<Key>): nat {
    2 * (m[KillSwitchKey] + m[AddonKey] + m[ExpanderKey]) + 35 * m[LcdKey]
    + 4 * (m[MotorKey(Left)] + m[MotorKey(Right)])
    + 6 * (m[ArmKey(Shoulder)] + m[ArmKey(Elbow)] + m[ArmKey(Gripper)])
  }

  lemma LoadOfOne(m: multiset<Key>, k: Key)
    ensures Load(multiset{k} + m) == WireBound(k) + Load(m)
  {
    match k
    case ArmKey(j) => match j { case Shoulder => case Elbow => case Gripper => }
    case MotorKey(m) => match m { case Left => case Right => }
    case _ =>
  }

  lemma CommandBound(k: Key, c: Command)
    requires Fits(k, c)
    ensures |Encode(c)| <= WireBound(k)
  {
  }

  lemma WiresCons(diff: map<Key, Holder>, order: seq<Key>)
    requires order != [] && forall k | k in order :: k in diff
    ensures Wires(diff, order) == diff[order[0]].wire + Wires(diff, order[1..])
  {
    var rest := order[1..];
    var wires := seq(|order|, i requires 0 <= i < |order| => diff[order[i]].wire);
    assert wires[1..] == seq(|rest|, i requires 0 <= i < |rest| => diff[rest[i]].wire);
  }

  lemma {:induction false} WiresBounded(diff: map<Key, Holder>, order: seq<Key>)
    requires AllWellFormed(diff) && forall k | k in order :: k in diff
    ensures |Wires(diff, order)| <= Load(multiset(order))
  {
    if order == [] {
    } else {
      var k, rest := order[0], order[1..];
      WiresCons(diff, order);
      WiresBounded(diff, rest);
      assert order == [k] + rest;
      LoadOfOne(multiset(rest), k);
      CommandBound(k, CommandOf(k, diff[k]));
    }
  }

  lemma {:induction false} DistinctOnce(order: seq<Key>, k: Key)
    requires forall i, j | 0 <= i < j < |order| :: order[i] != order[j]
    ensures multiset(order)[k] <= 1
  {
    if order == [] {
    } else {
      assert order == [order[0]] + order[1..];
      DistinctOnce(order[1..], k);
    }
  }

  /** Nine keys with bounded commands: a message never exceeds 73 bytes. */
  lemma MessageBound(diff: map<Key, Holder>, order: seq<Key>, counter: nat, killActive: bool)
    requires AllWellFormed(diff) && IsMerge(diff, order)
    ensures |Message(diff, order, counter, killActive)| <= 73
  {
    WiresBounded(diff, order);
    forall k ensures multiset(order)[k] <= 1 { DistinctOnce(order, k); }
    PollsBound(counter, killActive);
  }

  lemma PollsBound(counter: nat, killActive: bool)
    ensures |EncodeAll(Polls(counter, killActive))| <= 5
  {
    var ps := Polls(counter, killActive);
    EncodeAllCons(ps);
    if !killActive {
      EncodeAllCons(ps[1..]);
      EncodeAllCons(ps[1..][1..]);
      assert EncodeAll(ps[1..][1..][1..]) == [];
    } else {
      assert EncodeAll(ps[1..]) == [];
    }
  }

  /** The firmware loop run on the padded packet ends by itself and finds exactly the changed
      requests in queue order, then the polls. */
  lemma PacketRoundTrip(diff: map<Key, Holder>, order: seq<Key>, counter: nat, killActive: bool)
    requires AllWellFormed(diff) && IsMerge(diff, order)
    ensures ParseFrom(Resized(Message(diff, order, counter, killActive)) + [0], 0)
         == Parse(Commands(diff, order) + Polls(counter, killActive), Finished)
  {
    var cs, ps := Commands(diff, order), Polls(counter, killActive);
    var message := Message(diff, order, counter, killActive);
    var data := Resized(message) + [0];
    MessageBound(diff, order, counter, killActive);
    WiresEncode(diff, order);
    EncodeAllAppend(cs, ps);
    assert message == EncodeAll(cs + ps) + [MESSAGE_END];
    assert data[..|message|] == message;
    assert data[0..|EncodeAll(cs + ps)|] == message[..|EncodeAll(cs + ps)|] == EncodeAll(cs + ps);
    assert data[|EncodeAll(cs + ps)|] == message[|EncodeAll(cs + ps)|];
    ParseRoundTrip(data, 0, cs + ps);
  }
}
