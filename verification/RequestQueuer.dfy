/**
 The server's request queue: any number of producers under one lock, and one executor thread that
 compares and assigns the last serial outside it.
 */
module RequestQueue {

  const MAX_SIZE: nat := 100
  const INVALID_MESSAGE: int := -1
  const FIRST_ID: int := 2

  datatype Option<T> = None | Some(value: T)

  datatype Request = Request(id: int, serial: nat)

  /** What the executor thread holds: nothing, a request it has yet to compare with the last serial,
      or one that passed and whose serial it has yet to assign. */
  datatype Hand = Empty | Popped(request: Request) | Passed(request: Request)

  datatype Queue = Queue(requests: set<Request>, lastSerial: nat, lastId: int, hand: Hand)

  /** A part that a priority queue may deliver first; it leaves open which of equal serials come first. */
  predicate Lowest(part: set<Request>, whole: set<Request>) {
    part <= whole && forall a, b | a in part && b in whole - part :: a.serial <= b.serial
  }

  lemma {:induction false} LowestExists(whole: set<Request>)
    requires whole != {}
    ensures exists top :: top in whole && Lowest({top}, whole)
  {
    var r :| r in whole;
    if whole - {r} == {} {
      assert whole == {r} && Lowest({r}, whole);
    } else {
      LowestExists(whole - {r});
      var top :| top in whole - {r} && Lowest({top}, whole - {r});
      assert Lowest({if r.serial < top.serial then r else top}, whole);
    }
  }

  /** No request of `left` has a lower serial than one of `gone`. */
  predicate NoneLower(left: set<Request>, gone: set<Request>) {
    forall r, x | r in left && x in gone :: r.serial >= x.serial
  }

  /** `parsed` is the serial found in the JSON text, -1 if there is none, `None` if it is no JSON. */
  predicate Accepted(q: Queue, parsed: Option<int>) {
    parsed.Some? && parsed.value >= 0 && (parsed.value == 0 || parsed.value > q.lastSerial)
  }

  /** A full queue loses its lowest request; a serial of 0 then costs it the lower half of the rest. */
  ghost predicate Losses(q: Queue, serial: nat, evicted: set<Request>, dropped: set<Request>) {
    var rest := q.requests - evicted;
    && Lowest(evicted, q.requests) && |evicted| == (if |q.requests| == MAX_SIZE then 1 else 0)
    && Lowest(dropped, rest) && |dropped| == (if serial == 0 then (|rest| + 1) / 2 else 0)
  }

  function AfterAdd(q: Queue, serial: nat, evicted: set<Request>, dropped: set<Request>): Queue {
    Queue(q.requests - evicted - dropped + {Request(q.lastId + 1, serial)}, if serial == 0 then 0 else q.lastSerial,
          q.lastId + 1, q.hand)
  }

  function AfterPop(q: Queue, top: Request): Queue { q.(requests := q.requests - {top}, hand := Popped(top)) }

  function AfterCompare(q: Queue): Queue
    requires q.hand.Popped?
  {
    q.(hand := if q.hand.request.serial < q.lastSerial then Empty else Passed(q.hand.request))
  }

  function AfterAssign(q: Queue): Queue
    requires q.hand.Passed?
  {
    q.(lastSerial := q.hand.request.serial, hand := Empty)
  }

  class RequestQueuer {
    var requests: set<Request>
    var lastSerial: nat
    var lastId: int
    var hand: Hand

    function State(): Queue
      reads this
    {
      Queue(requests, lastSerial, lastId, hand)
    }

    constructor ()
      ensures State() == Queue({}, 0, FIRST_ID - 1, Empty)
    {
      requests, lastSerial, lastId, hand := {}, 0, FIRST_ID - 1, Empty;
    }

    /** `top` and `pop` */
    method PopLowest() returns (top: Request)
      requires requests != {}
      modifies this`requests
      ensures top in old(requests) && Lowest({top}, old(requests))
      ensures requests == old(requests) - {top}
      ensures forall r | r in requests :: r.serial >= top.serial
    {
      LowestExists(requests);
      top :| top in requests && Lowest({top}, requests);
      requests := requests - {top};
    }

    /** The loop that means to clear the queue compares its count with the shrinking size. */
    method PopWhileCounting() returns (ghost dropped: set<Request>)
      modifies this`requests
      ensures Lowest(dropped, old(requests)) && |dropped| == (|old(requests)| + 1) / 2
      ensures requests == old(requests) - dropped
      ensures forall r, x | r in requests && x in dropped :: r.serial >= x.serial
    {
      dropped := {};
      var i := 0;
      while i < |requests|
        invariant Lowest(dropped, old(requests)) && requests == old(requests) - dropped
        invariant |dropped| == i <= (|old(requests)| + 1) / 2
        invariant forall r, x | r in requests && x in dropped :: r.serial >= x.serial
        decreases |requests| - i
      {
        var top := PopLowest();
        dropped := dropped + {top};
        i := i + 1;
      }
    }

    /** A full queue gives up its lowest request, and the remover is told. */
    method MakeRoom() returns (ghost evicted: set<Request>, rejected: Option<int>)
      modifies this`requests
      ensures Lowest(evicted, old(requests)) && |evicted| == if |old(requests)| == MAX_SIZE then 1 else 0
      ensures requests == old(requests) - evicted
      ensures forall r, x | r in requests && x in evicted :: r.serial >= x.serial
      ensures rejected.None? ==> evicted == {}
      ensures rejected.Some? ==> exists r :: evicted == {r} && rejected.value == r.id
    {
      evicted, rejected := {}, None;
      if |requests| == MAX_SIZE {
        var top := PopLowest();
        evicted, rejected := {top}, Some(top.id);
      }
    }

    /** Runs under the lock. It reads the last serial or writes it, never both, so what the executor
        does to it meanwhile is as if done before or after. `rejected` goes to the remover. */
    method AddRequest(parsed: Option<int>)
      returns (id: int, rejected: Option<int>, ghost evicted: set<Request>, ghost dropped: set<Request>)
      requires |requests| <= MAX_SIZE
      modifies this
      ensures !Accepted(old(State()), parsed) ==>
        id == INVALID_MESSAGE && rejected == None && State() == old(State())
      ensures Accepted(old(State()), parsed) ==>
        && Losses(old(State()), parsed.value, evicted, dropped)
        && State() == AfterAdd(old(State()), parsed.value, evicted, dropped)
        && id == lastId
        && NoneLower(old(requests) - evicted - dropped, evicted + dropped)
        && (rejected.None? ==> evicted == {})
        && (rejected.Some? ==> exists r :: evicted == {r} && rejected.value == r.id)
    {
      evicted, dropped, rejected := {}, {}, None;
      if parsed.None? || parsed.value < 0 {
        return INVALID_MESSAGE, None, {}, {};
      }
      if parsed.value != 0 && parsed.value <= lastSerial {
        return INVALID_MESSAGE, None, {}, {};
      }
      id, rejected, evicted, dropped := Admit(parsed.value);
    }

    /** The rest of it, for a serial that is not too old. */
    method Admit(serial: nat)
      returns (id: int, rejected: Option<int>, ghost evicted: set<Request>, ghost dropped: set<Request>)
      requires |requests| <= MAX_SIZE
      modifies this
      ensures Losses(old(State()), serial, evicted, dropped)
      ensures State() == AfterAdd(old(State()), serial, evicted, dropped) && id == lastId
      ensures NoneLower(old(requests) - evicted - dropped, evicted + dropped)
      ensures rejected.None? ==> evicted == {}
      ensures rejected.Some? ==> exists r :: evicted == {r} && rejected.value == r.id
    {
      evicted, rejected := MakeRoom();
      dropped := {};
      if serial == 0 {
        dropped := PopWhileCounting();
        lastSerial := 0;
      }
      lastId := lastId + 1;
      id := lastId;
      requests := requests + {Request(id, serial)};
    }

    /** The executor thread under the lock, ... */
    method Pop() returns (top: Request)
      requires requests != {} && hand.Empty?
      modifies this
      ensures Lowest({top}, old(requests)) && State() == AfterPop(old(State()), top)
      ensures forall r | r in requests :: r.serial >= top.serial
    {
      top := PopLowest();
      hand := Popped(top);
    }

    /** ... outside it, reading the last serial, ... */
    method Compare()
      requires hand.Popped?
      modifies this`hand
      ensures State() == AfterCompare(old(State()))
    {
      if hand.request.serial < lastSerial {
        hand := Empty;
      } else {
        hand := Passed(hand.request);
      }
    }

    /** ... and writing it, before it executes the request. */
    method Assign() returns (executed: Request)
      requires hand.Passed?
      modifies this
      ensures State() == AfterAssign(old(State())) && executed == old(hand).request
    {
      executed := hand.request;
      lastSerial, hand := executed.serial, Empty;
    }
  }

  // ---- Runs ----

  /** The queue with its history. `eras[i]` is the number of resets accepted before `executed[i]` ran. */
  datatype Sys = Sys(q: Queue, accepted: seq<Request>, executed: seq<Request>, eras: seq<nat>, era: nat,
                     skipped: multiset<Request>, evicted: multiset<Request>, dropped: multiset<Request>)

  datatype Event =
    | Add(parsed: Option<int>, evicted: set<Request>, dropped: set<Request>)
    | Pop(top: Request)
    | Compare
    | Assign

  ghost predicate Enabled(s: Sys, e: Event) {
    match e
    case Add(parsed, evicted, dropped) => Accepted(s.q, parsed) ==> Losses(s.q, parsed.value, evicted, dropped)
    case Pop(top) => s.q.hand.Empty? && Lowest({top}, s.q.requests)
    case Compare => s.q.hand.Popped?
    case Assign => s.q.hand.Passed?
  }

  function Next(s: Sys, e: Event): Sys
    requires Enabled(s, e)
  {
    match e
    case Add(parsed, evicted, dropped) =>
      if !Accepted(s.q, parsed) then s
      else
        var q := AfterAdd(s.q, parsed.value, evicted, dropped);
        s.(q := q, accepted := s.accepted + [Request(q.lastId, parsed.value)],
           era := if parsed.value == 0 then s.era + 1 else s.era,
           evicted := s.evicted + multiset(evicted), dropped := s.dropped + multiset(dropped))
    case Pop(top) => s.(q := AfterPop(s.q, top))
    case Compare =>
      var q := AfterCompare(s.q);
      s.(q := q, skipped := if q.hand.Empty? then s.skipped + multiset{s.q.hand.request} else s.skipped)
    case Assign =>
      s.(q := AfterAssign(s.q), executed := s.executed + [s.q.hand.request], eras := s.eras + [s.era])
  }

  ghost predicate IsRun(s: Sys, events: seq<Event>, t: Sys)
    decreases |events|
  {
    if events == [] then t == s
    else Enabled(s, events[0]) && IsRun(Next(s, events[0]), events[1..], t)
  }

  const START := Sys(Queue({}, 0, FIRST_ID - 1, Empty), [], [], [], 0, multiset{}, multiset{}, multiset{})

  function InHand(h: Hand): multiset<Request> { if h.Empty? then multiset{} else multiset{h.request} }

  /** Where a request can be. */
  function Places(s: Sys): multiset<Request> {
    multiset(s.q.requests) + InHand(s.q.hand) + multiset(s.executed) + s.skipped + s.evicted + s.dropped
  }

  ghost predicate Conserved(s: Sys) {
    && |s.q.requests| <= MAX_SIZE
    && s.q.lastId == FIRST_ID - 1 + |s.accepted|
    && Numbered(s.accepted)
    && multiset(s.accepted) == Places(s)
  }

  ghost predicate Numbered(accepted: seq<Request>) {
    forall k | 0 <= k < |accepted| :: accepted[k].id == FIRST_ID + k
  }

  ghost predicate Ordered(s: Sys) {
    && |s.eras| == |s.executed|
    && (forall i | 0 <= i < |s.eras| :: s.eras[i] <= s.era)
    && (forall i, j | 0 <= i < j < |s.eras| && s.eras[i] == s.eras[j] :: s.executed[i].serial <= s.executed[j].serial)
    && (forall i | 0 <= i < |s.eras| && s.eras[i] == s.era :: s.executed[i].serial <= s.q.lastSerial)
    && (s.q.lastSerial == 0 || exists i :: 0 <= i < |s.eras| && s.eras[i] == s.era && s.executed[i].serial == s.q.lastSerial)
    && (s.q.hand.Passed? ==> s.q.hand.request.serial >= s.q.lastSerial)
  }

  lemma SplitSet(whole: set<Request>, part: set<Request>)
    requires part <= whole
    ensures multiset(whole) == multiset(part) + multiset(whole - part)
  {
  }

  lemma FreshId(s: Sys, r: Request)
    requires Conserved(s) && r in s.q.requests
    ensures r.id <= s.q.lastId
  {
    assert r in Places(s);
    assert r in s.accepted;
  }

  lemma AddSplits(q: Queue, serial: nat, evicted: set<Request>, dropped: set<Request>)
    requires evicted <= q.requests && dropped <= q.requests - evicted
    requires Request(q.lastId + 1, serial) !in q.requests
    ensures var t, r := AfterAdd(q, serial, evicted, dropped), Request(q.lastId + 1, serial);
      multiset(q.requests) + multiset{r} == multiset(t.requests) + multiset(evicted) + multiset(dropped)
  {
    var left, r := q.requests - evicted - dropped, Request(q.lastId + 1, serial);
    SplitSet(q.requests, evicted);
    SplitSet(q.requests - evicted, dropped);
    SplitSet(left + {r}, {r});
    assert left + {r} - {r} == left;
  }

  lemma AddConserves(s: Sys, serial: nat, evicted: set<Request>, dropped: set<Request>)
    requires Conserved(s) && Accepted(s.q, Some(serial)) && Losses(s.q, serial, evicted, dropped)
    ensures Conserved(Next(s, Add(Some(serial), evicted, dropped)))
  {
    var r := Request(s.q.lastId + 1, serial);
    if r in s.q.requests {
      FreshId(s, r);
    }
    AddSplits(s.q, serial, evicted, dropped);
    AddFits(s.q, serial, evicted, dropped);
    AddPlaces(s, Next(s, Add(Some(serial), evicted, dropped)), r, evicted, dropped);
  }

  lemma AddPlaces(s: Sys, t: Sys, r: Request, evicted: set<Request>, dropped: set<Request>)
    requires multiset(s.q.requests) + multiset{r} == multiset(t.q.requests) + multiset(evicted) + multiset(dropped)
    requires t.q.hand == s.q.hand && t.executed == s.executed && t.skipped == s.skipped
    requires t.evicted == s.evicted + multiset(evicted) && t.dropped == s.dropped + multiset(dropped)
    ensures Places(t) == Places(s) + multiset{r}
  {
    forall x: Request
      ensures Places(t)[x] == (Places(s) + multiset{r})[x]
    {
      assert (multiset(s.q.requests) + multiset{r})[x]
          == (multiset(t.q.requests) + multiset(evicted) + multiset(dropped))[x];
    }
  }

  lemma AddFits(q: Queue, serial: nat, evicted: set<Request>, dropped: set<Request>)
    requires |q.requests| <= MAX_SIZE && Losses(q, serial, evicted, dropped)
    ensures |AfterAdd(q, serial, evicted, dropped).requests| <= MAX_SIZE
  {
    assert |q.requests - evicted - dropped| == |q.requests| - |evicted| - |dropped|;
  }

  lemma NextConserves(s: Sys, e: Event)
    requires Conserved(s) && Enabled(s, e)
    ensures Conserved(Next(s, e))
  {
    match e
    case Add(parsed, evicted, dropped) =>
      if Accepted(s.q, parsed) {
        AddConserves(s, parsed.value, evicted, dropped);
      }
    case Pop(top) =>
      SplitSet(s.q.requests, {top});
    case _ =>
  }

  lemma NextOrdered(s: Sys, e: Event)
    requires Ordered(s) && Enabled(s, e)
    ensures Ordered(Next(s, e))
  {
    if e.Assign? {
      AssignOrdered(s);
    } else {
      assert Next(s, e).executed == s.executed && Next(s, e).eras == s.eras;
    }
  }

  lemma AssignOrdered(s: Sys)
    requires Ordered(s) && s.q.hand.Passed?
    ensures Ordered(Next(s, Assign))
  {
    var t, n := Next(s, Assign), |s.eras|;
    assert t.eras[n] == t.era && t.executed[n].serial == t.q.lastSerial;
  }

  lemma {:induction false} RunKeeps(s: Sys, events: seq<Event>, t: Sys)
    requires Conserved(s) && Ordered(s) && IsRun(s, events, t)
    ensures Conserved(t) && Ordered(t)
    decreases |events|
  {
    if events != [] {
      NextConserves(s, events[0]);
      NextOrdered(s, events[0]);
      RunKeeps(Next(s, events[0]), events[1..], t);
    }
  }

  lemma {:induction false} OnceEach(accepted: seq<Request>, r: Request)
    requires Numbered(accepted)
    ensures multiset(accepted)[r] == if r in accepted then 1 else 0
  {
    if accepted != [] {
      var n := |accepted| - 1;
      OnceEach(accepted[..n], r);
      assert accepted == accepted[..n] + [accepted[n]];
    }
  }

  // ---- Main results ----

  /** In every interleaving of producers and executor the queue holds at most a hundred requests, and
      every request accepted, under an id of its own, is in exactly one place: queued, in hand,
      executed, skipped, evicted or dropped. */
  lemma ExactlyOnePlace(events: seq<Event>, s: Sys, r: Request)
    requires IsRun(START, events, s)
    ensures |s.q.requests| <= MAX_SIZE
    ensures Places(s)[r] == if r in s.accepted then 1 else 0
    ensures forall i, j | 0 <= i < j < |s.accepted| :: s.accepted[i].id < s.accepted[j].id
  {
    RunKeeps(START, events, s);
    OnceEach(s.accepted, r);
  }

  lemma CountedTwice(list: seq<Request>, i: nat, j: nat)
    requires i < j < |list| && list[i] == list[j]
    ensures multiset(list)[list[i]] >= 2
  {
    assert list == list[..j] + list[j..];
    assert list[i] in list[..j] && list[i] in list[j..];
  }

  /** No id is executed twice. */
  lemma ExecutedOnce(events: seq<Event>, s: Sys, i: nat, j: nat)
    requires IsRun(START, events, s) && i < j < |s.executed|
    ensures s.executed[i].id != s.executed[j].id
  {
    RunKeeps(START, events, s);
    WasAccepted(s, i);
    WasAccepted(s, j);
    if s.executed[i] == s.executed[j] {
      CountedTwice(s.executed, i, j);
      OnceEach(s.accepted, s.executed[i]);
      PlacedAtLeast(s, s.executed[i]);
    }
  }

  lemma PlacedAtLeast(s: Sys, r: Request)
    ensures Places(s)[r] >= multiset(s.executed)[r]
  {
  }

  lemma WasAccepted(s: Sys, i: nat)
    requires Conserved(s) && i < |s.executed|
    ensures s.executed[i] in s.accepted
  {
    assert s.executed[i] in multiset(s.executed);
    assert s.executed[i] in Places(s);
  }

  /** Between two accepted resets the executed serials never decrease. */
  lemma SerialsNeverDecrease(events: seq<Event>, s: Sys, i: nat, j: nat)
    requires IsRun(START, events, s) && i < j < |s.executed| == |s.eras| && s.eras[i] == s.eras[j]
    ensures s.executed[i].serial <= s.executed[j].serial
  {
    RunKeeps(START, events, s);
  }

  ghost predicate RanSinceReset(s: Sys, least: nat)
    requires |s.eras| == |s.executed|
  {
    exists i :: 0 <= i < |s.eras| && s.eras[i] == s.era && s.executed[i].serial >= least
  }

  /** A positive serial is refused exactly if one at least as high was executed since the last reset, ... */
  lemma RefusedIff(events: seq<Event>, s: Sys, serial: nat)
    requires IsRun(START, events, s) && serial > 0
    ensures |s.eras| == |s.executed|
    ensures !Accepted(s.q, Some(serial)) <==> RanSinceReset(s, serial)
  {
    RunKeeps(START, events, s);
  }

  /** ... and a request in hand is skipped exactly if a higher one was. */
  lemma SkippedIff(events: seq<Event>, s: Sys)
    requires IsRun(START, events, s) && s.q.hand.Popped?
    ensures |s.eras| == |s.executed|
    ensures Next(s, Compare).skipped != s.skipped <==> RanSinceReset(s, s.q.hand.request.serial + 1)
  {
    RunKeeps(START, events, s);
  }

  // ---- What a reset resets ----

  /** A reset means to empty the queue. It leaves only itself there exactly if one request at most was
      queued; of any more, the higher half stays. */
  lemma ResetClearsIff(q: Queue, evicted: set<Request>, dropped: set<Request>)
    requires |q.requests| <= MAX_SIZE && Losses(q, 0, evicted, dropped)
    requires forall r | r in q.requests :: r.id <= q.lastId
    ensures AfterAdd(q, 0, evicted, dropped).requests == {Request(q.lastId + 1, 0)} <==> |q.requests| <= 1
    ensures |q.requests - evicted - dropped| == (if |q.requests| == MAX_SIZE then MAX_SIZE - 1 else |q.requests|) / 2
    ensures NoneLower(q.requests - evicted - dropped, evicted + dropped)
  {
    var left := q.requests - evicted - dropped;
    assert |left| == |q.requests| - |evicted| - |dropped|;
    if left != {} {
      var r :| r in left;
      assert r in AfterAdd(q, 0, evicted, dropped).requests && r != Request(q.lastId + 1, 0);
    }
  }

  /** What a full queue or a reset takes away has the lowest serials: none that stays is lower. */
  lemma LossesLowest(q: Queue, serial: nat, evicted: set<Request>, dropped: set<Request>)
    requires |q.requests| <= MAX_SIZE && Losses(q, serial, evicted, dropped)
    ensures NoneLower(q.requests - evicted - dropped, evicted + dropped)
    ensures evicted + dropped == {} <==> |q.requests| < MAX_SIZE && (serial == 0 ==> q.requests == {})
  {
    assert evicted == {} ==> q.requests - evicted == q.requests;
  }

  // ---- In order of serials ----

  function Pending(q: Queue): set<Request> { q.requests + if q.hand.Empty? then {} else {q.hand.request} }

  /** The highest serial among the last one and those still to be looked at. */
  ghost predicate IsHigh(q: Queue, m: nat) {
    && q.lastSerial <= m && (forall r | r in Pending(q) :: r.serial <= m)
    && (q.lastSerial == m || exists r :: r in Pending(q) && r.serial == m)
  }

  lemma ExecutorKeepsHigh(s: Sys, e: Event, m: nat)
    requires Ordered(s) && Enabled(s, e) && !e.Add? && IsHigh(s.q, m)
    ensures IsHigh(Next(s, e).q, m)
  {
    var t := Next(s, e);
    if s.q.lastSerial < m {
      var r :| r in Pending(s.q) && r.serial == m;
      assert r in Pending(t.q) || t.q.lastSerial == m;
    }
  }

  /** Left to itself until nothing is pending, the executor ends with the highest serial it found. */
  lemma {:induction false} DrainedToHigh(s: Sys, events: seq<Event>, t: Sys, m: nat)
    requires Ordered(s) && IsRun(s, events, t) && IsHigh(s.q, m)
    requires forall k | 0 <= k < |events| :: !events[k].Add?
    requires Pending(t.q) == {}
    ensures t.q.lastSerial == m
    decreases |events|
  {
    if events != [] {
      NextOrdered(s, events[0]);
      ExecutorKeepsHigh(s, events[0], m);
      DrainedToHigh(Next(s, events[0]), events[1..], t, m);
    }
  }

  /** Nothing pending is lower than the last serial, nothing queued lower than what is in hand. */
  ghost predicate Ascending(q: Queue) {
    && (forall r | r in Pending(q) :: r.serial >= q.lastSerial)
    && (!q.hand.Empty? ==> forall r | r in q.requests :: r.serial >= q.hand.request.serial)
  }

  lemma PopAscends(q: Queue, top: Request)
    requires q.hand.Empty? && Lowest({top}, q.requests)
    ensures Ascending(AfterPop(q, top)) <==> Ascending(q)
  {
    assert top in q.requests;
    assert q.requests == (q.requests - {top}) + {top};
  }

  lemma ExecutorAscends(s: Sys, e: Event)
    requires Ordered(s) && Enabled(s, e) && !e.Add?
    ensures s.skipped <= Next(s, e).skipped
    ensures Ascending(s.q) ==> Ascending(Next(s, e).q) && Next(s, e).skipped == s.skipped
    ensures !Ascending(s.q) ==> !Ascending(Next(s, e).q) || |Next(s, e).skipped| > |s.skipped|
  {
    if e.Pop? {
      PopAscends(s.q, e.top);
    }
  }

  /** Left to itself the executor takes what is pending in order of serials: it skips nothing, if it
      finds nothing lower than the last serial or than what it has in hand; ... */
  lemma {:induction false} NothingSkipped(s: Sys, events: seq<Event>, t: Sys)
    requires Ordered(s) && Ascending(s.q) && IsRun(s, events, t)
    requires forall k | 0 <= k < |events| :: !events[k].Add?
    ensures Ascending(t.q) && t.skipped == s.skipped
    decreases |events|
  {
    if events != [] {
      NextOrdered(s, events[0]);
      ExecutorAscends(s, events[0]);
      NothingSkipped(Next(s, events[0]), events[1..], t);
    }
  }

  lemma {:induction false} SomethingSkipped(s: Sys, events: seq<Event>, t: Sys)
    requires Ordered(s) && IsRun(s, events, t)
    requires forall k | 0 <= k < |events| :: !events[k].Add?
    ensures |t.skipped| >= |s.skipped|
    ensures !Ascending(s.q) && Ascending(t.q) ==> |t.skipped| > |s.skipped|
    decreases |events|
  {
    if events != [] {
      NextOrdered(s, events[0]);
      ExecutorAscends(s, events[0]);
      SomethingSkipped(Next(s, events[0]), events[1..], t);
    }
  }

  /** ... and only then. */
  lemma SkipsNothingIff(s: Sys, events: seq<Event>, t: Sys)
    requires Ordered(s) && IsRun(s, events, t) && Pending(t.q) == {}
    requires forall k | 0 <= k < |events| :: !events[k].Add?
    ensures t.skipped == s.skipped <==> Ascending(s.q)
  {
    if Ascending(s.q) {
      NothingSkipped(s, events, t);
    } else {
      assert Ascending(t.q);
      SomethingSkipped(s, events, t);
    }
  }

  /** What waits to be executed or is. */
  function Alive(s: Sys): multiset<Request> { multiset(s.q.requests) + InHand(s.q.hand) + multiset(s.executed) + s.skipped }

  lemma ExecutorMoves(s: Sys, e: Event)
    requires Enabled(s, e) && !e.Add?
    ensures Alive(Next(s, e)) == Alive(s)
  {
    if e.Pop? {
      SplitSet(s.q.requests, {e.top});
    }
  }

  lemma {:induction false} RunMoves(s: Sys, events: seq<Event>, t: Sys)
    requires IsRun(s, events, t)
    requires forall k | 0 <= k < |events| :: !events[k].Add?
    ensures Alive(t) == Alive(s) && |t.executed| >= |s.executed| && t.executed[..|s.executed|] == s.executed
    ensures t.era == s.era && |t.eras| >= |s.eras| && t.eras[..|s.eras|] == s.eras
    decreases |events|
  {
    if events != [] {
      var u := Next(s, events[0]);
      ExecutorMoves(s, events[0]);
      RunMoves(u, events[1..], t);
      assert t.executed[..|s.executed|] == t.executed[..|u.executed|][..|s.executed|];
      assert t.eras[..|s.eras|] == t.eras[..|u.eras|][..|s.eras|];
    }
  }

  lemma {:induction false} RunAscends(s: Sys, events: seq<Event>, t: Sys)
    requires Ordered(s) && IsRun(s, events, t)
    requires forall k | 0 <= k < |events| :: !events[k].Add?
    ensures Ordered(t) && |t.executed| >= |s.executed|
    ensures forall i | |s.executed| <= i < |t.executed| :: t.eras[i] == s.era
    decreases |events|
  {
    if events != [] {
      var u := Next(s, events[0]);
      NextOrdered(s, events[0]);
      RunAscends(u, events[1..], t);
      RunMoves(u, events[1..], t);
      assert events[0].Assign? ==> t.eras[|s.eras|] == t.eras[..|u.eras|][|s.eras|];
    }
  }

  /** Every request waiting then is executed, once, lower serials before higher ones. */
  lemma ExecutesAllInOrder(s: Sys, events: seq<Event>, t: Sys)
    requires Ordered(s) && Ascending(s.q) && IsRun(s, events, t) && Pending(t.q) == {}
    requires forall k | 0 <= k < |events| :: !events[k].Add?
    ensures |s.executed| <= |t.executed|
    ensures multiset(t.executed[|s.executed|..]) == multiset(s.q.requests) + InHand(s.q.hand)
    ensures forall i, j | |s.executed| <= i < j < |t.executed| :: t.executed[i].serial <= t.executed[j].serial
  {
    RunMoves(s, events, t);
    NothingSkipped(s, events, t);
    RunAscends(s, events, t);
    AllMoved(s, t);
  }

  lemma AllMoved(s: Sys, t: Sys)
    requires Alive(t) == Alive(s) && t.skipped == s.skipped && Pending(t.q) == {}
    requires |s.executed| <= |t.executed| && t.executed[..|s.executed|] == s.executed
    ensures multiset(t.executed[|s.executed|..]) == multiset(s.q.requests) + InHand(s.q.hand)
  {
    var n := |s.executed|;
    assert t.executed == t.executed[..n] + t.executed[n..];
    assert t.q.requests == {} && t.q.hand.Empty?;
    forall x: Request
      ensures multiset(t.executed[n..])[x] == (multiset(s.q.requests) + InHand(s.q.hand))[x]
    {
      assert Alive(t)[x] == Alive(s)[x];
    }
  }

  /** The executor steps left at most. */
  function Work(q: Queue): nat {
    3 * |q.requests| + match q.hand case Empty => 0 case Popped(_) => 2 case Passed(_) => 1
  }

  /** Left to itself it can always get there. */
  lemma {:induction false} Drains(s: Sys) returns (events: seq<Event>, t: Sys)
    ensures IsRun(s, events, t) && Pending(t.q) == {} && |events| <= Work(s.q)
    ensures forall k | 0 <= k < |events| :: !events[k].Add?
    decreases Work(s.q)
  {
    if Pending(s.q) == {} {
      events, t := [], s;
    } else {
      var e := ExecutorStep(s);
      var rest;
      rest, t := Drains(Next(s, e));
      events := [e] + rest;
      assert events[1..] == rest;
    }
  }

  lemma ExecutorStep(s: Sys) returns (e: Event)
    requires Pending(s.q) != {}
    ensures Enabled(s, e) && !e.Add? && Work(Next(s, e).q) < Work(s.q)
  {
    match s.q.hand
    case Popped(_) => e := Compare;
    case Passed(_) => e := Assign;
    case Empty =>
      LowestExists(s.q.requests);
      var top :| top in s.q.requests && Lowest({top}, s.q.requests);
      e := Pop(top);
  }

  lemma {:induction false} HighExists(q: Queue, pending: set<Request>) returns (m: nat)
    requires pending <= Pending(q)
    ensures q.lastSerial <= m && (forall r | r in pending :: r.serial <= m)
    ensures q.lastSerial == m || exists r :: r in pending && r.serial == m
    decreases pending
  {
    if pending == {} {
      m := q.lastSerial;
    } else {
      var r :| r in pending;
      m := HighExists(q, pending - {r});
      m := if r.serial > m then r.serial else m;
    }
  }

  /** A reset means to restart the serials. Once the executor has caught up, every positive serial is
      accepted again exactly if nothing that survived the reset, in hand or queued, had a positive
      serial: such a one is executed after it and raises the last serial again. */
  lemma ResetRestartsIff(before: seq<Event>, s: Sys, reset: Event, after: seq<Event>, t: Sys)
    requires IsRun(START, before, s) && reset.Add? && reset.parsed == Some(0) && Enabled(s, reset)
    requires IsRun(Next(s, reset), after, t) && Pending(t.q) == {}
    requires forall k | 0 <= k < |after| :: !after[k].Add?
    ensures (forall n: nat | n > 0 :: Accepted(t.q, Some(n))) <==> forall r | r in Pending(Next(s, reset).q) :: r.serial == 0
  {
    var u := Next(s, reset);
    RunKeeps(START, before, s);
    NextOrdered(s, reset);
    var m := HighExists(u.q, Pending(u.q));
    DrainedToHigh(u, after, t, m);
    AcceptsAllIff(t.q);
  }

  lemma AcceptsAllIff(q: Queue)
    ensures (forall n: nat | n > 0 :: Accepted(q, Some(n))) <==> q.lastSerial == 0
  {
    assert q.lastSerial > 0 ==> !Accepted(q, Some(q.lastSerial));
  }

  /** The reset is lost even with an empty queue, if it comes between the executor's compare and its
      assignment: the reset request itself is then skipped as stale, and low serials stay refused. */
  lemma LostReset(q: Queue, r: Request)
    requires q.hand == Passed(r) && r.serial > 0 && q.requests == {}
    ensures var zero := Request(q.lastId + 1, 0);
      var later := AfterAssign(AfterAdd(q, 0, {}, {}));
      && Losses(q, 0, {}, {})
      && AfterCompare(AfterPop(later, zero)).hand == Empty
      && forall n: nat | 0 < n <= r.serial :: !Accepted(later, Some(n))
  {
  }

  lemma RunCons(s: Sys, e: Event, tail: seq<Event>, t: Sys)
    requires Enabled(s, e) && IsRun(Next(s, e), tail, t)
    ensures IsRun(s, [e] + tail, t)
  {
    assert ([e] + tail)[1..] == tail;
  }

  /** Such a run from the start: a request with a positive serial in the executor's hand, compared; the
      reset; the assignment. The reset request ends skipped, and its serials refused. */
  lemma LostResetReachable(n: nat) returns (events: seq<Event>, t: Sys)
    requires n > 0
    ensures IsRun(START, events, t) && |events| == 7 && t.era == 1
    ensures t.executed == [Request(FIRST_ID, n)] && t.skipped == multiset{Request(FIRST_ID + 1, 0)}
    ensures t.q.requests == {} && t.q.hand == Empty && t.q.lastSerial == n
    ensures forall k: nat | 0 < k <= n :: !Accepted(t.q, Some(k))
  {
    var c := ComparedFirst(n);
    var reset := Add(Some(0), {}, {});
    var d := Next(c, reset);
    var tail;
    tail, t := SkipsReset(d, Request(FIRST_ID, n), Request(FIRST_ID + 1, 0));
    RunCons(c, reset, tail, t);
    events := ComparedThen(n, c, [reset] + tail, t);
  }

  function First(n: nat): Event { Add(Some(n), {}, {}) }

  /** The first request, taken up and compared. */
  lemma ComparedFirst(n: nat) returns (c: Sys)
    requires n > 0
    ensures c == START.(q := Queue({}, 0, FIRST_ID, Passed(Request(FIRST_ID, n))), accepted := [Request(FIRST_ID, n)])
    ensures Enabled(START, First(n)) && Enabled(Next(START, First(n)), Pop(Request(FIRST_ID, n)))
    ensures Enabled(Next(Next(START, First(n)), Pop(Request(FIRST_ID, n))), Compare)
    ensures Next(Next(Next(START, First(n)), Pop(Request(FIRST_ID, n))), Compare) == c
  {
    var one := Request(FIRST_ID, n);
    var a := Next(START, First(n));
    assert a.q == Queue({one}, 0, FIRST_ID, Empty) && Lowest({one}, a.q.requests);
    var b := Next(a, Pop(one));
    assert b.q.requests == {};
    c := Next(b, Compare);
  }

  lemma ComparedThen(n: nat, c: Sys, tail: seq<Event>, t: Sys) returns (events: seq<Event>)
    requires Enabled(START, First(n)) && Enabled(Next(START, First(n)), Pop(Request(FIRST_ID, n)))
    requires Enabled(Next(Next(START, First(n)), Pop(Request(FIRST_ID, n))), Compare)
    requires Next(Next(Next(START, First(n)), Pop(Request(FIRST_ID, n))), Compare) == c && IsRun(c, tail, t)
    ensures IsRun(START, events, t) && |events| == 3 + |tail|
  {
    var a := Next(START, First(n));
    var b := Next(a, Pop(Request(FIRST_ID, n)));
    RunCons(b, Compare, tail, t);
    RunCons(a, Pop(Request(FIRST_ID, n)), [Compare] + tail, t);
    events := [First(n)] + ([Pop(Request(FIRST_ID, n))] + ([Compare] + tail));
    RunCons(START, First(n), [Pop(Request(FIRST_ID, n))] + ([Compare] + tail), t);
  }

  lemma SkipsReset(s: Sys, r: Request, zero: Request) returns (events: seq<Event>, t: Sys)
    requires s.q.hand == Passed(r) && s.q.requests == {zero} && zero.serial == 0 && r.serial > 0
    ensures IsRun(s, events, t) && |events| == 3
    ensures t == s.(q := s.q.(requests := {}, lastSerial := r.serial, hand := Empty), executed := s.executed + [r],
                    eras := s.eras + [s.era], skipped := s.skipped + multiset{zero})
  {
    var a := Next(s, Assign);
    assert Lowest({zero}, a.q.requests);
    var b := Next(a, Pop(zero));
    assert b.q.requests == {};
    t := Next(b, Compare);
    RunCons(b, Compare, [], t);
    RunCons(a, Pop(zero), [Compare] + [], t);
    events := [Assign] + ([Pop(zero)] + ([Compare] + []));
    RunCons(s, Assign, [Pop(zero)] + ([Compare] + []), t);
  }
}
