/**
 The object behind one synchronisation: it rebuilds its memory of the last message in place, drains
 a priority queue into the message and bumps the poll counter.
 */
module Manager {
  import opened Protocol
  import opened DataHolders
  import opened HostInterface
  import opened BridgeFirmware
  import opened Synchronisation
  import opened Exchange

  class InterfaceManager {
    const interface: Interface
    var previousRequests: map<Key, Holder>
    var counter: nat

    constructor (interface: Interface)
      ensures this.interface == interface && previousRequests == map[] && counter == 0
    {
      this.interface := interface;
      previousRequests, counter := map[], 0;
    }

    method Compare() returns (diff: map<Key, Holder>)
      ensures diff == Diff(interface.requests, previousRequests, false)
    {
      var requests := interface.requests;
      diff := map[];
      var keys := requests.Keys;
      while keys != {}
        invariant keys <= requests.Keys
        invariant diff == map k | k in requests && k !in keys && (k !in previousRequests || previousRequests[k] != requests[k])
                             :: requests[k]
        decreases |keys|
      {
        var k :| k in keys;
        if k !in previousRequests || previousRequests[k] != requests[k] {
          diff := diff[k := requests[k]];
        }
        keys := keys - {k};
      }
    }

    method CopyRequests()
      modifies this`previousRequests
      ensures previousRequests == interface.requests
    {
      var requests := interface.requests;
      previousRequests := map[];
      var keys := requests.Keys;
      while keys != {}
        invariant keys <= requests.Keys
        invariant previousRequests == map k | k in requests && k !in keys :: requests[k]
        decreases |keys|
      {
        var k :| k in keys;
        previousRequests := previousRequests[k := requests[k]];
        keys := keys - {k};
      }
    }

    method GenerateDifferentialRequests(killActive: bool) returns (diff: map<Key, Holder>)
      modifies this`previousRequests
      ensures diff == Diff(interface.requests, old(previousRequests), killActive)
      ensures previousRequests == Remembered(interface.requests, killActive)
    {
      var requests := interface.requests;
      diff := Compare();
      CopyRequests();
      if killActive {
        ghost var all := diff;
        var keys := requests.Keys;
        while keys != {}
          invariant keys <= requests.Keys
          invariant previousRequests == map k | k in requests && (k in keys || !requests[k].dependent) :: requests[k]
          invariant diff == map k | k in all && (k in keys || !requests[k].dependent) :: requests[k]
          decreases |keys|
        {
          var k :| k in keys;
          if requests[k].dependent {
            diff := diff - {k};
            previousRequests := previousRequests - {k};
          }
          keys := keys - {k};
        }
      }
    }

    method GenerateGetRequests(killActive: bool) returns (commands: seq<Byte>, responseOrder: seq<Byte>)
      modifies this`counter
      ensures commands == EncodeAll(Polls(old(counter), killActive))
      ensures responseOrder == Codes(Polls(old(counter), killActive))
      ensures counter == if killActive then old(counter) else old(counter) + 1
    {
      ghost var polls := Polls(counter, killActive);
      EncodeAllCons(polls);
      assert EncodeAll([]) == [];
      commands, responseOrder := [GET_STATE], [GET_STATE];
      if killActive {
        assert polls[1..] == [];
        return;
      }
      EncodeAllCons(polls[1..]);
      EncodeAllCons(polls[1..][1..]);
      assert polls[1..][1..][1..] == [];
      commands, responseOrder := commands + [MOTOR_GET], responseOrder + [MOTOR_GET];
      if counter % 2 != 0 {
        commands := commands + [MotorId(Left)];
      } else {
        commands := commands + [MotorId(Right)];
      }
      commands, responseOrder := commands + [ARM_GET], responseOrder + [ARM_GET];
      match counter % 4 {
        case 0 => commands := commands + [JointId(Elbow)];
        case 1 => commands := commands + [JointId(Gripper)];
        case 2 => commands := commands + [JointId(Shoulder)];
        case _ =>
          commands := commands[..|commands| - 1] + [ARM_GET_GENERAL];
          responseOrder := responseOrder[..|responseOrder| - 1] + [ARM_GET_GENERAL];
      }
      counter := counter + 1;
    }

    /** Drains a priority queue; of several requests with the top priority any may come first. */
    method Merge(diff: map<Key, Holder>) returns (concatenated: seq<Byte>, ghost order: seq<Key>)
      ensures IsMerge(diff, order) && concatenated == Wires(diff, order)
    {
      concatenated, order := [], [];
      var queue := diff.Keys;
      while queue != {}
        invariant queue <= diff.Keys
        invariant forall k :: k in order <==> k in diff && k !in queue
        invariant forall i, j | 0 <= i < j < |order| ::
          order[i] != order[j] && diff[order[i]].priority <= diff[order[j]].priority
        invariant forall i, k | 0 <= i < |order| && k in queue :: diff[order[i]].priority <= diff[k].priority
        invariant concatenated == Wires(diff, order)
        decreases |queue|
      {
        TopExists(diff, queue);
        var k :| k in queue && forall j | j in queue :: diff[k].priority <= diff[j].priority;
        WiresSnoc(diff, order, k);
        concatenated := concatenated + diff[k].wire;
        order := order + [k];
        queue := queue - {k};
      }
    }

    ghost function State(bridge: Bridge): World
      reads this, interface, bridge
    {
      World(interface.State(), previousRequests, counter, bridge.State())
    }

    /** `order` is the order in which the queue handed the requests out. */
    method SyncWithDevice(bridge: Bridge, r: Readings) returns (ghost order: seq<Key>)
      requires bridge.Valid() && AllWellFormed(interface.requests)
      modifies this, interface, bridge, bridge.input, bridge.input.data, bridge.output, bridge.output.data
      ensures bridge.Valid()
      ensures IsMerge(old(State(bridge)).Changes(), order)
      ensures State(bridge) == SyncedWorld(old(State(bridge)), r)
      ensures AfterSync(old(State(bridge)), order, r) == Synced(State(bridge))
    {
      ghost var w := State(bridge);
      var concatenated, responseOrder;
      concatenated, responseOrder, order := Prepare(interface.killActive);
      var response := Transfer(bridge, concatenated, r, w, order);
      ReplyAbsorbed(w, r);
      var outcome := interface.UpdateDataStructures(responseOrder, response);
      assert State(bridge) == SyncedWorld(w, r);
      SyncExact(w, order, r);
    }

    /** The message to the bridge and the 64 bytes back. */
    method Transfer(bridge: Bridge, message: seq<Byte>, r: Readings, ghost w: World, ghost order: seq<Key>)
      returns (response: seq<Byte>)
      requires bridge.Valid() && bridge.State() == w.device
      requires AllWellFormed(w.host.requests) && IsMerge(w.Changes(), order)
      requires message == Message(w.Changes(), order, w.counter, w.host.killActive)
      modifies bridge, bridge.input, bridge.input.data, bridge.output, bridge.output.data
      ensures bridge.Valid() && bridge.State() == Delivered(w.device, w.Changes())
      ensures |PollReplies(w, r)| < RESPONSE_SIZE && response == Filled(PollReplies(w, r))[..RESPONSE_SIZE]
    {
      PacketAnswered(w, order, r);
      var answer := bridge.Poll(Resized(message), r);
      response := answer.response;
    }

    /** The message of this synchronisation, and the getters whose answers it will bring. */
    method Prepare(killActive: bool) returns (concatenated: seq<Byte>, responseOrder: seq<Byte>, ghost order: seq<Key>)
      modifies this`previousRequests, this`counter
      ensures var diff := Diff(interface.requests, old(previousRequests), killActive);
        IsMerge(diff, order) && concatenated == Message(diff, order, old(counter), killActive)
      ensures responseOrder == Codes(Polls(old(counter), killActive))
      ensures previousRequests == Remembered(interface.requests, killActive)
      ensures counter == if killActive then old(counter) else old(counter) + 1
    {
      var diff := GenerateDifferentialRequests(killActive);
      concatenated, order := Merge(diff);
      var commands;
      commands, responseOrder := GenerateGetRequests(killActive);
      concatenated := concatenated + commands + [MESSAGE_END];
    }
  }

  lemma TopExists(diff: map<Key, Holder>, queue: set<Key>)
    requires queue != {} && queue <= diff.Keys
    ensures exists k | k in queue :: forall j | j in queue :: diff[k].priority <= diff[j].priority
    decreases |queue|
  {
    var k :| k in queue;
    var rest := queue - {k};
    if rest != {} {
      TopExists(diff, rest);
      var t :| t in rest && forall j | j in rest :: diff[t].priority <= diff[j].priority;
      var top := if diff[k].priority <= diff[t].priority then k else t;
      assert forall j | j in queue :: j == k || j in rest;
      assert forall j | j in queue :: diff[top].priority <= diff[j].priority;
    } else {
      assert queue == {k};
    }
  }

  lemma WiresSnoc(diff: map<Key, Holder>, order: seq<Key>, k: Key)
    requires k in diff && forall j | j in order :: j in diff
    ensures Wires(diff, order + [k]) == Wires(diff, order) + diff[k].wire
  {
    var longer := order + [k];
    var wires := seq(|order|, i requires 0 <= i < |order| => diff[order[i]].wire);
    assert seq(|longer|, i requires 0 <= i < |longer| => diff[longer[i]].wire) == wires + [diff[k].wire];
    FlattenAppend(wires, [diff[k].wire]);
    assert Flatten([diff[k].wire]) == diff[k].wire + Flatten([]);
  }
}
