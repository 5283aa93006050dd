/**
 The motor driver's I2C slave: two interrupt routines and a polling main loop that share two
 buffers. A slave of the bus of UM10204: START and STOP (section 3.1.4), acknowledge bits (section
 3.1.6), address and direction bit (section 3.1.10).
 */
module UsiSlave {
  import Protocol

  type Byte = Protocol.Byte

  const SIZE: nat := 4          // of either buffer
  const ADDRESS: Byte := 0x24   // 0x12, shifted over the direction bit

  datatype UsiState = Stopped | CheckAddress | SendData | RequestReply | CheckReply | RequestData | SendAck
  {
    predicate MasterRead() { SendData? || RequestReply? || CheckReply? }
    predicate MasterWrite() { RequestData? || SendAck? }
  }

  /** The driver's globals and the USI registers they depend on. */
  datatype Usi = Usi(
    state: UsiState,
    rdbuf: seq<Byte>, rdlen: nat, rdptr: nat,
    wrbuf: seq<Byte>, wrlen: nat,
    data: Byte,          // the shift register
    stopSeen: bool,      // the stop condition flag; it raises no interrupt
    overflowOn: bool)    // the byte interrupt

  // ---- The interrupt routines ----

  function Reset(u: Usi): Usi { u.(state := Stopped, overflowOn := false, stopSeen := false) }

  /** A start condition; `aborted` if the bus shows a stop while the routine waits for the clock. */
  function AfterStart(u: Usi, aborted: bool): Usi {
    if aborted then Reset(u) else u.(state := CheckAddress, overflowOn := true, stopSeen := false)
  }

  predicate Addressed(b: Byte) { b == 0 || b - b % 2 == ADDRESS }

  predicate ReadBit(b: Byte) { b % 2 == 1 }

  function SendNext(u: Usi): Usi
    requires u.rdptr < |u.rdbuf|
  {
    u.(data := u.rdbuf[u.rdptr], rdptr := if u.rdptr + 1 >= u.rdlen then 0 else u.rdptr + 1, state := RequestReply)
  }

  /** A byte or an acknowledge bit has been shifted; what came in is in `data`. */
  function AfterOverflow(u: Usi): Usi
    requires u.rdptr < |u.rdbuf| && |u.wrbuf| == SIZE
  {
    match u.state
    case Stopped => u
    case CheckAddress =>
      if !Addressed(u.data) then Reset(u)
      else if ReadBit(u.data) then
        if u.rdlen == 0 then Reset(u) else u.(rdptr := 0, state := SendData, data := 0)
      else
        if u.wrlen != 0 then Reset(u) else u.(rdlen := 0, state := RequestData, data := 0)
    case SendData => SendNext(u)
    case RequestReply => u.(data := 0, state := CheckReply)
    case CheckReply => if u.data != 0 then Reset(u) else SendNext(u)
    case RequestData => u.(state := SendAck)
    case SendAck =>
      if u.wrlen >= SIZE then Reset(u)
      else u.(wrbuf := u.wrbuf[u.wrlen := u.data], wrlen := u.wrlen + 1, data := 0, state := RequestData)
  }

  // ---- The main loop's calls ----

  /** `i2c_message_ready` between its `cli` and `sei`; `r` is the length it read before them. */
  function AfterReadyCheck(u: Usi, r: nat): (Usi, nat) {
    if u.state.Stopped? then (u, r)
    else if u.stopSeen then (Reset(u), r)
    else if u.state.MasterWrite() then (u, 0)
    else (u, r)
  }

  function AfterDone(u: Usi): Usi { u.(wrlen := 0) }

  predicate ReplyReady(u: Usi) { !u.state.MasterRead() }

  const GET_SPEED: Byte := 1
  const MOTOR1: Byte := 0

  /** What the motors show when a reply is prepared: power and direction of each. */
  datatype Motors = Motors(power1: Byte, power2: Byte, direction1: Byte, direction2: Byte)

  /** The getter by the first byte of the receive buffer, the motor by the second, received or left over. */
  function ReplyFor(buffer: seq<Byte>, m: Motors): Byte
    requires |buffer| == SIZE
  {
    if buffer[0] == GET_SPEED then if buffer[1] == MOTOR1 then m.power1 else m.power2
    else if buffer[1] == MOTOR1 then m.direction1 else m.direction2
  }

  /** The reply put in place between `i2c_reply_ready` and `i2c_reply_done`, interrupts off. */
  function WithReply(u: Usi, m: Motors): Usi
    requires |u.rdbuf| == SIZE && |u.wrbuf| == SIZE
  {
    u.(rdbuf := u.rdbuf[0 := ReplyFor(u.wrbuf, m)], rdlen := 1)
  }

  ghost predicate InRange(u: Usi) {
    |u.rdbuf| == SIZE && |u.wrbuf| == SIZE && u.rdlen <= SIZE && u.rdptr < SIZE && u.wrlen <= SIZE
  }

  /** The driver itself: the routines on their arrays. */
  class Driver {
    var state: UsiState
    const rdbuf: array<Byte>
    var rdlen: nat
    var rdptr: nat
    const wrbuf: array<Byte>
    var wrlen: nat
    var data: Byte
    var stopSeen: bool
    var overflowOn: bool

    function State(): Usi
      reads this, rdbuf, wrbuf
    {
      Usi(state, rdbuf[..], rdlen, rdptr, wrbuf[..], wrlen, data, stopSeen, overflowOn)
    }

    ghost predicate Valid()
      reads this, rdbuf, wrbuf
    {
      rdbuf != wrbuf && InRange(State())
    }

    /** `i2c_initialize` */
    constructor ()
      ensures Valid() && fresh(rdbuf) && fresh(wrbuf)
      ensures State().state.Stopped? && !State().overflowOn && State().rdlen == State().wrlen == State().rdptr == 0
    {
      rdbuf, wrbuf := new Byte[SIZE], new Byte[SIZE];
      rdlen, wrlen, rdptr, data := 0, 0, 0, 0;
      state, overflowOn, stopSeen := Stopped, false, false;
    }

    method UsiReset()
      modifies this`state, this`overflowOn, this`stopSeen
      ensures State() == Reset(old(State()))
    {
      state, overflowOn, stopSeen := Stopped, false, false;
    }

    method StartIsr(aborted: bool)
      modifies this`state, this`overflowOn, this`stopSeen
      ensures State() == AfterStart(old(State()), aborted)
    {
      if aborted {
        UsiReset();
        return;
      }
      stopSeen, overflowOn := false, true;
      state := CheckAddress;
    }

    method Send()
      requires Valid()
      modifies this`data, this`rdptr, this`state
      ensures State() == SendNext(old(State()))
    {
      data := rdbuf[rdptr];
      rdptr := rdptr + 1;
      if rdptr >= rdlen {
        rdptr := 0;
      }
      state := RequestReply;
    }

    method OverflowIsr()
      requires Valid()
      modifies this, wrbuf
      ensures Valid() && State() == AfterOverflow(old(State()))
    {
      match state {
        case Stopped =>
        case CheckAddress =>
          if Addressed(data) {
            if ReadBit(data) {
              if rdlen == 0 {
                UsiReset();
                return;
              }
              rdptr := 0;
              state := SendData;
            } else {
              if wrlen != 0 {
                UsiReset();
                return;
              }
              rdlen := 0;
              state := RequestData;
            }
            data := 0;
          } else {
            UsiReset();
          }
        case SendData => Send();
        case RequestReply =>
          data := 0;
          state := CheckReply;
        case CheckReply =>
          if data != 0 {
            UsiReset();
            return;
          }
          Send();
        case RequestData => state := SendAck;
        case SendAck =>
          if wrlen >= SIZE {
            UsiReset();
            return;
          }
          wrbuf[wrlen] := data;
          wrlen := wrlen + 1;
          data := 0;
          state := RequestData;
      }
    }

    method MessageReady(lengthRead: nat) returns (r: nat)
      modifies this`state, this`overflowOn, this`stopSeen
      ensures (State(), r) == AfterReadyCheck(old(State()), lengthRead)
    {
      r := lengthRead;
      if state != Stopped {
        if stopSeen {
          UsiReset();
        } else if state.MasterWrite() {
          r := 0;
        }
      }
    }

    method MessageDone()
      modifies this`wrlen
      ensures State() == AfterDone(old(State()))
    {
      wrlen := 0;
    }

    /** The main loop's reply phase; interrupts are off while the buffer changes. */
    method Reply(m: Motors) returns (ready: bool)
      requires Valid()
      modifies this`rdlen, rdbuf
      ensures Valid() && ready == ReplyReady(old(State()))
      ensures State() == if ready then WithReply(old(State()), m) else old(State())
    {
      ready := !state.MasterRead();
      if ready {
        var first := wrbuf[1] == MOTOR1;
        if wrbuf[0] == GET_SPEED {
          rdbuf[0] := if first then m.power1 else m.power2;
        } else {
          rdbuf[0] := if first then m.direction1 else m.direction2;
        }
        rdlen := 1;
      }
    }
  }

  // ---- Bus, interrupts and main loop together ----

  /** Where the main loop stands. `Checking(r)`: inside `i2c_message_ready`, `r` read, `cli` to come. */
  datatype Phase = AtReply | AtMessage | Checking(r: nat) | Handling

  /** `busOpen`: between a start and a stop condition. `writing`: in a write transaction the slave
      accepted. `sent`: the bytes the master sent in the last such transaction; `before`: what the receive
      buffer held when it was accepted. `source`, `stream`: what the reply buffer held when the last read
      transaction began, and the bytes sent from it. `basis`, `shown`: receive buffer and motors at the
      last reply phase; `late`: the bytes stored since. `begun`, `done`: the writes that brought a byte,
      and the messages the main loop has executed. */
  datatype Sys = Sys(
    usi: Usi, main: Phase,
    busOpen: bool, writing: bool, sent: seq<Byte>, before: seq<Byte>,
    source: seq<Byte>, stream: seq<Byte>,
    basis: seq<Byte>, shown: Motors, late: nat,
    begun: nat, done: nat)

  datatype Event =
    | Start(aborted: bool)
    | Shift(byte: Byte)      // a byte or acknowledge bit through the shift register
    | Unheard(byte: Byte)    // the master goes on writing after the slave gave up
    | Stop
    | Main(motors: Motors)   // one step of the main loop; it looks at the motors at AtReply only

  ghost predicate Enabled(s: Sys, e: Event) {
    match e
    case Start(_) => true
    case Shift(_) => s.busOpen && s.usi.overflowOn
    case Unheard(_) => s.busOpen && s.writing && !s.usi.overflowOn
    case Stop => s.busOpen
    case Main(_) => true
  }

  function ShiftStep(s: Sys, byte: Byte): Sys
    requires InRange(s.usi)
  {
    var before := s.usi.(data := byte);
    var after := AfterOverflow(before);
    var t := s.(usi := after);
    if before.state.CheckAddress? && after.state.RequestData? then t.(writing := true, sent := [], before := after.wrbuf)
    else if before.state.CheckAddress? && after.state.SendData? then t.(source := after.rdbuf[..after.rdlen], stream := [])
    else if before.state.SendAck? then
      if after.state.Stopped? then t.(sent := s.sent + [byte])
      else t.(sent := s.sent + [byte], late := s.late + 1, begun := if before.wrlen == 0 then s.begun + 1 else s.begun)
    else if after.state.RequestReply? then t.(stream := s.stream + [after.data])
    else t
  }

  function MainStep(s: Sys, m: Motors): Sys
    requires InRange(s.usi)
  {
    match s.main
    case AtReply =>
      if !ReplyReady(s.usi) then s.(main := AtMessage)
      else s.(usi := WithReply(s.usi, m), main := AtMessage, basis := s.usi.wrbuf, shown := m, late := 0)
    case AtMessage => s.(main := Checking(s.usi.wrlen))
    case Checking(r) =>
      var c := AfterReadyCheck(s.usi, r);
      s.(usi := c.0, main := if c.1 != 0 then Handling else AtReply)
    case Handling => s.(usi := AfterDone(s.usi), main := AtReply, done := s.done + 1)
  }

  function Next(s: Sys, e: Event): Sys
    requires InRange(s.usi)
  {
    match e
    case Start(aborted) => s.(usi := AfterStart(s.usi, aborted), busOpen := !aborted, writing := false)
    case Shift(byte) => ShiftStep(s, byte)
    case Unheard(byte) => s.(sent := s.sent + [byte])
    case Stop => s.(usi := s.usi.(stopSeen := true), busOpen := false, writing := false)
    case Main(m) => MainStep(s, m)
  }

  function FirstFour(bytes: seq<Byte>): seq<Byte> { if |bytes| <= SIZE then bytes else bytes[..SIZE] }

  /** The bytes sent in a read go round the buffer. */
  ghost predicate GoesRound(stream: seq<Byte>, source: seq<Byte>) {
    stream != [] ==> source != [] && forall i | 0 <= i < |stream| :: stream[i] == source[i % |source|]
  }

  ghost predicate ReadInv(s: Sys)
    requires InRange(s.usi)
  {
    && GoesRound(s.stream, s.source)
    && (s.usi.state.MasterRead() ==>
          && 0 < s.usi.rdlen && s.source == s.usi.rdbuf[..s.usi.rdlen]
          && s.usi.rdptr == |s.stream| % s.usi.rdlen)
  }

  ghost predicate WriteInv(s: Sys)
    requires InRange(s.usi)
  {
    && (s.usi.state.MasterWrite() ==> s.sent == s.usi.wrbuf[..s.usi.wrlen] && (s.busOpen ==> s.writing))
    && (s.usi.wrlen > 0 ==> s.usi.wrbuf[..s.usi.wrlen] == FirstFour(s.sent))
    && (s.writing ==> s.busOpen)
    && (s.writing && s.usi.state.Stopped? ==> |s.sent| > SIZE)
    && (s.writing ==> s.usi.state.Stopped? || s.usi.state.MasterWrite())
    && (s.main.Handling? ==> s.usi.wrlen > 0 && !s.usi.state.MasterWrite())
    && (s.main.Checking? ==> s.main.r <= s.usi.wrlen)
  }

  /** The first bytes of `sent`, the rest as the buffer was before. */
  function Over(sent: seq<Byte>, before: seq<Byte>): seq<Byte>
    requires |before| == SIZE && |sent| <= SIZE
  {
    sent + before[|sent|..]
  }

  /** How many bytes of the last message the reply is based on. */
  function Prepared(s: Sys): int { |FirstFour(s.sent)| - s.late }

  ghost predicate ReplyInv(s: Sys)
    requires InRange(s.usi)
  {
    && |s.before| == SIZE && |s.basis| == SIZE && s.usi.rdlen <= 1
    && s.usi.wrbuf == Over(FirstFour(s.sent), s.before)
    && (s.late == 0 ==> s.basis == s.usi.wrbuf)
    && (s.usi.rdlen > 0 ==>
          && s.usi.rdbuf[0] == ReplyFor(s.basis, s.shown) && 0 <= Prepared(s)
          && s.basis == Over(s.sent[..Prepared(s)], s.before))
    && s.begun == s.done + if s.usi.wrlen > 0 then 1 else 0
  }

  ghost predicate Inv(s: Sys) {
    InRange(s.usi) && ReadInv(s) && WriteInv(s) && ReplyInv(s) && FlagInv(s)
  }

  predicate FlagInv(s: Sys) {
    && (s.usi.overflowOn <==> !s.usi.state.Stopped?)
    && (s.usi.stopSeen && !s.usi.state.Stopped? ==> !s.busOpen)
  }

  function StartSys(u: Usi, m: Motors): Sys {
    Sys(u, AtReply, false, false, [], u.wrbuf, [], [], u.wrbuf, m, 0, 0, 0)
  }

  lemma StartInv(u: Usi, m: Motors)
    requires InRange(u) && u.state.Stopped? && !u.overflowOn && u.wrlen == 0 && u.rdlen == 0
    ensures Inv(StartSys(u, m))
  {
  }

  lemma NextModulo(n: nat, m: nat)
    requires 0 < m <= SIZE
    ensures (n + 1) % m == if n % m + 1 == m then 0 else n % m + 1
  {
    if m == 1 {
    } else if m == 2 {
    } else if m == 3 {
    } else {
    }
  }

  lemma StreamGrows(stream: seq<Byte>, source: seq<Byte>)
    requires GoesRound(stream, source) && 0 < |source| <= SIZE
    ensures GoesRound(stream + [source[|stream| % |source|]], source)
    ensures (|stream| + 1) % |source| == if |stream| % |source| + 1 >= |source| then 0 else |stream| % |source| + 1
  {
    NextModulo(|stream|, |source|);
    var longer := stream + [source[|stream| % |source|]];
    forall i | 0 <= i < |longer| ensures longer[i] == source[i % |source|] {
      if i < |stream| {
        assert stream[i] == source[i % |source|];
      }
    }
  }

  lemma SendReadInv(s: Sys, byte: Byte)
    requires InRange(s.usi) && ReadInv(s) && s.usi.state.MasterRead() && ShiftStep(s, byte).usi.state.RequestReply?
    ensures InRange(ShiftStep(s, byte).usi) && ReadInv(ShiftStep(s, byte))
  {
    StreamGrows(s.stream, s.source);
    assert s.usi.rdbuf[s.usi.rdptr] == s.source[|s.stream| % |s.source|];
  }

  lemma AddressReadInv(s: Sys, byte: Byte)
    requires InRange(s.usi) && ReadInv(s) && s.usi.state.CheckAddress?
    ensures InRange(ShiftStep(s, byte).usi) && ReadInv(ShiftStep(s, byte))
  {
    if ShiftStep(s, byte).usi.state.SendData? {
      OpenedEffect(s, byte);
      assert 0 % s.usi.rdlen == 0;
    } else {
      RefusedEffect(s, byte);
    }
  }

  lemma OpenedEffect(s: Sys, byte: Byte)
    requires InRange(s.usi) && s.usi.state.CheckAddress? && ShiftStep(s, byte).usi.state.SendData?
    ensures s.usi.rdlen > 0
    ensures ShiftStep(s, byte)
         == s.(usi := s.usi.(rdptr := 0, state := SendData, data := 0), source := s.usi.rdbuf[..s.usi.rdlen], stream := [])
  {
  }

  lemma RefusedEffect(s: Sys, byte: Byte)
    requires InRange(s.usi) && s.usi.state.CheckAddress? && !ShiftStep(s, byte).usi.state.SendData?
    ensures var t := ShiftStep(s, byte);
      InRange(t.usi) && !t.usi.state.MasterRead() && t.source == s.source && t.stream == s.stream
  {
  }

  lemma OtherReadInv(s: Sys, byte: Byte)
    requires InRange(s.usi) && ReadInv(s) && !s.usi.state.CheckAddress? && !ShiftStep(s, byte).usi.state.RequestReply?
    ensures InRange(ShiftStep(s, byte).usi) && ReadInv(ShiftStep(s, byte))
  {
    OverflowReads(s.usi.(data := byte));
  }

  lemma OverflowReads(u: Usi)
    requires InRange(u) && !u.state.CheckAddress? && !AfterOverflow(u).state.RequestReply?
    ensures var v := AfterOverflow(u);
      && InRange(v) && v.rdbuf == u.rdbuf && v.rdlen == u.rdlen && v.rdptr == u.rdptr
      && (v.state.MasterRead() ==> u.state.MasterRead()) && !v.state.SendData?
  {
  }

  lemma ShiftReadInv(s: Sys, byte: Byte)
    requires InRange(s.usi) && ReadInv(s)
    ensures InRange(ShiftStep(s, byte).usi) && ReadInv(ShiftStep(s, byte))
  {
    if ShiftStep(s, byte).usi.state.RequestReply? {
      SendReadInv(s, byte);
    } else if s.usi.state.CheckAddress? {
      AddressReadInv(s, byte);
    } else {
      OtherReadInv(s, byte);
    }
  }

  lemma ShiftWriteInv(s: Sys, byte: Byte)
    requires InRange(s.usi) && WriteInv(s) && s.busOpen
    ensures InRange(ShiftStep(s, byte).usi) && WriteInv(ShiftStep(s, byte))
  {
    if s.usi.state.SendAck? {
      StoreWriteInv(s, byte);
    } else if ShiftStep(s, byte).usi.state.RequestData? {
      AcceptWriteInv(s, byte);
    } else {
      OtherShift(s, byte);
      SameWrite(s, ShiftStep(s, byte));
    }
  }

  lemma SameWrite(s: Sys, t: Sys)
    requires InRange(s.usi) && InRange(t.usi) && WriteInv(s) && SameReplies(s, t)
    requires t.writing == s.writing && t.busOpen == s.busOpen && t.main == s.main
    requires t.usi.state.MasterWrite() == s.usi.state.MasterWrite()
    requires t.usi.state.Stopped? ==> s.usi.state.Stopped? || !s.writing
    requires s.usi.state.Stopped? ==> t.usi.state.Stopped?
    ensures WriteInv(t)
  {
  }

  lemma AcceptWriteInv(s: Sys, byte: Byte)
    requires InRange(s.usi) && WriteInv(s) && s.busOpen && !s.usi.state.SendAck? && ShiftStep(s, byte).usi.state.RequestData?
    ensures InRange(ShiftStep(s, byte).usi) && WriteInv(ShiftStep(s, byte))
  {
    AcceptEffect(s, byte);
  }

  lemma AcceptEffect(s: Sys, byte: Byte)
    requires InRange(s.usi) && !s.usi.state.SendAck? && ShiftStep(s, byte).usi.state.RequestData?
    ensures ShiftStep(s, byte)
         == s.(usi := s.usi.(rdlen := 0, state := RequestData, data := 0), writing := true, sent := [], before := s.usi.wrbuf)
    ensures s.usi.wrlen == 0 && s.usi.state.CheckAddress?
  {
  }

  lemma StoreWriteInv(s: Sys, byte: Byte)
    requires InRange(s.usi) && WriteInv(s) && s.busOpen && s.usi.state.SendAck?
    ensures InRange(ShiftStep(s, byte).usi) && WriteInv(ShiftStep(s, byte))
  {
    if s.usi.wrlen < SIZE {
      assert ShiftStep(s, byte).usi.wrbuf[..s.usi.wrlen + 1] == s.usi.wrbuf[..s.usi.wrlen] + [byte];
    }
  }

  /** Every interleaving of interrupts, bus and main loop keeps the invariant; in particular every
      buffer index stays in range. */
  lemma NextInv(s: Sys, e: Event)
    requires Inv(s) && Enabled(s, e)
    ensures Inv(Next(s, e))
  {
    match e
    case Shift(byte) => ShiftInv(s, byte);
    case Main(m) => MainInv(s, m);
    case _ => BusInv(s, e);
  }

  lemma ShiftInv(s: Sys, byte: Byte)
    requires Inv(s) && s.busOpen && s.usi.overflowOn
    ensures Inv(ShiftStep(s, byte))
  {
    ShiftReadInv(s, byte);
    ShiftWriteInv(s, byte);
    ShiftReplyInv(s, byte);
    ShiftFlagInv(s, byte);
  }

  lemma ShiftFlagInv(s: Sys, byte: Byte)
    requires InRange(s.usi) && FlagInv(s)
    ensures FlagInv(ShiftStep(s, byte))
  {
  }

  lemma MainInv(s: Sys, m: Motors)
    requires Inv(s)
    ensures Inv(MainStep(s, m))
  {
    MainReadInv(s, m);
    MainWriteInv(s, m);
    MainReplyInv(s, m);
    MainFlagInv(s, m);
  }

  lemma MainFlagInv(s: Sys, m: Motors)
    requires InRange(s.usi) && FlagInv(s)
    ensures FlagInv(MainStep(s, m))
  {
  }

  lemma BusInv(s: Sys, e: Event)
    requires Inv(s) && Enabled(s, e) && OfBus(e)
    ensures Inv(Next(s, e))
  {
    BusReadInv(s, e);
    BusWriteInv(s, e);
    BusReplyInv(s, e);
  }

  lemma ShiftReplyInv(s: Sys, byte: Byte)
    requires InRange(s.usi) && WriteInv(s) && ReplyInv(s) && s.busOpen
    ensures InRange(ShiftStep(s, byte).usi) && ReplyInv(ShiftStep(s, byte))
  {
    if s.usi.state.SendAck? {
      StoreReplyInv(s, byte);
    } else if ShiftStep(s, byte).usi.state.RequestData? {
      AcceptReplyInv(s, byte);
    } else {
      OtherShift(s, byte);
      SameReply(s, ShiftStep(s, byte));
    }
  }

  /** All that the reply invariant speaks of is the same. */
  predicate SameReplies(s: Sys, t: Sys) {
    && t.usi.wrbuf == s.usi.wrbuf && t.usi.rdbuf == s.usi.rdbuf && t.usi.rdlen == s.usi.rdlen && t.usi.wrlen == s.usi.wrlen
    && t.sent == s.sent && t.before == s.before && t.basis == s.basis && t.shown == s.shown && t.late == s.late
    && t.begun == s.begun && t.done == s.done
  }

  lemma SameReply(s: Sys, t: Sys)
    requires InRange(s.usi) && InRange(t.usi) && ReplyInv(s) && SameReplies(s, t)
    ensures ReplyInv(t)
  {
  }

  lemma OtherShift(s: Sys, byte: Byte)
    requires InRange(s.usi) && !s.usi.state.SendAck? && !ShiftStep(s, byte).usi.state.RequestData?
    ensures var t := ShiftStep(s, byte);
      && InRange(t.usi) && SameReplies(s, t) && t.writing == s.writing && t.busOpen == s.busOpen && t.main == s.main
      && t.usi.state.MasterWrite() == s.usi.state.MasterWrite()
      && (t.usi.state.Stopped? ==> s.usi.state.Stopped? || !s.usi.state.MasterWrite())
      && (s.usi.state.Stopped? ==> t.usi.state.Stopped?)
  {
    OverflowKeeps(s.usi.(data := byte));
  }

  lemma OverflowKeeps(u: Usi)
    requires InRange(u) && !u.state.SendAck? && !AfterOverflow(u).state.RequestData?
    ensures var v := AfterOverflow(u);
      InRange(v) && v.wrbuf == u.wrbuf && v.rdbuf == u.rdbuf && v.rdlen == u.rdlen && v.wrlen == u.wrlen
  {
  }

  lemma AcceptReplyInv(s: Sys, byte: Byte)
    requires InRange(s.usi) && WriteInv(s) && ReplyInv(s) && !s.usi.state.SendAck? && ShiftStep(s, byte).usi.state.RequestData?
    ensures InRange(ShiftStep(s, byte).usi) && ReplyInv(ShiftStep(s, byte))
  {
    AcceptEffect(s, byte);
    assert Over([], s.usi.wrbuf) == s.usi.wrbuf;
  }

  lemma StoreReplyInv(s: Sys, byte: Byte)
    requires InRange(s.usi) && WriteInv(s) && ReplyInv(s) && s.busOpen && s.usi.state.SendAck?
    ensures InRange(ShiftStep(s, byte).usi) && ReplyInv(ShiftStep(s, byte))
  {
    if s.usi.wrlen < SIZE {
      StoredByte(s, byte);
      StoredReplyInv(s, ShiftStep(s, byte), byte);
    } else {
      RefusedReplyInv(s, ShiftStep(s, byte), byte);
    }
  }

  lemma StoredReplyInv(s: Sys, t: Sys, byte: Byte)
    requires InRange(s.usi) && WriteInv(s) && ReplyInv(s) && s.usi.state.SendAck? && s.usi.wrlen < SIZE
    requires t.usi == s.usi.(data := 0, wrbuf := s.usi.wrbuf[s.usi.wrlen := byte], wrlen := s.usi.wrlen + 1, state := RequestData)
    requires t.sent == s.sent + [byte] && t.before == s.before && t.basis == s.basis && t.shown == s.shown
    requires t.late == s.late + 1 && t.done == s.done && t.begun == if s.usi.wrlen == 0 then s.begun + 1 else s.begun
    ensures InRange(t.usi) && ReplyInv(t)
  {
    OverGrows(s.sent, s.before, byte);
    if s.usi.rdlen > 0 {
      assert t.sent[..Prepared(s)] == s.sent[..Prepared(s)];
    }
  }

  lemma RefusedReplyInv(s: Sys, t: Sys, byte: Byte)
    requires InRange(s.usi) && WriteInv(s) && ReplyInv(s) && s.usi.state.SendAck? && s.usi.wrlen >= SIZE
    requires t == s.(usi := Reset(s.usi.(data := byte)), sent := s.sent + [byte])
    ensures InRange(t.usi) && ReplyInv(t)
  {
    assert t.sent[..SIZE] == s.sent;
    if s.usi.rdlen > 0 {
      assert t.sent[..Prepared(s)] == s.sent[..Prepared(s)];
    }
  }

  lemma OverGrows(sent: seq<Byte>, before: seq<Byte>, byte: Byte)
    requires |before| == SIZE && |sent| < SIZE
    ensures Over(sent + [byte], before) == Over(sent, before)[|sent| := byte]
  {
  }

  lemma MainReadInv(s: Sys, m: Motors)
    requires InRange(s.usi) && ReadInv(s)
    ensures InRange(MainStep(s, m).usi) && ReadInv(MainStep(s, m))
  {
  }

  lemma MainWriteInv(s: Sys, m: Motors)
    requires InRange(s.usi) && WriteInv(s) && FlagInv(s)
    ensures InRange(MainStep(s, m).usi) && WriteInv(MainStep(s, m))
  {
  }

  lemma MainReplyInv(s: Sys, m: Motors)
    requires InRange(s.usi) && WriteInv(s) && ReplyInv(s)
    ensures InRange(MainStep(s, m).usi) && ReplyInv(MainStep(s, m))
  {
    if s.main.AtReply? && ReplyReady(s.usi) {
      assert s.sent[..|FirstFour(s.sent)|] == FirstFour(s.sent);
    }
  }

  predicate OfBus(e: Event) { e.Start? || e.Stop? || e.Unheard? }

  lemma BusReadInv(s: Sys, e: Event)
    requires InRange(s.usi) && ReadInv(s) && OfBus(e)
    ensures InRange(Next(s, e).usi) && ReadInv(Next(s, e))
  {
  }

  lemma BusWriteInv(s: Sys, e: Event)
    requires Inv(s) && Enabled(s, e) && OfBus(e)
    ensures InRange(Next(s, e).usi) && WriteInv(Next(s, e))
  {
  }

  lemma BusReplyInv(s: Sys, e: Event)
    requires InRange(s.usi) && WriteInv(s) && ReplyInv(s) && OfBus(e) && Enabled(s, e)
    requires s.usi.overflowOn <==> !s.usi.state.Stopped?
    ensures InRange(Next(s, e).usi) && ReplyInv(Next(s, e))
  {
    if e.Unheard? {
      assert Next(s, e).sent[..SIZE] == s.sent[..SIZE];
      if s.usi.rdlen > 0 {
        assert Next(s, e).sent[..Prepared(s)] == s.sent[..Prepared(s)];
      }
    }
  }

  ghost predicate IsRun(s: Sys, events: seq<Event>, t: Sys)
    requires Inv(s)
    decreases |events|
  {
    if events == [] then t == s
    else
      && Enabled(s, events[0])
      && (NextInv(s, events[0]); IsRun(Next(s, events[0]), events[1..], t))
  }

  lemma {:induction false} RunInv(s: Sys, events: seq<Event>, t: Sys)
    requires Inv(s) && IsRun(s, events, t)
    ensures Inv(t)
    decreases |events|
  {
    if events != [] {
      NextInv(s, events[0]);
      RunInv(Next(s, events[0]), events[1..], t);
    }
  }

  // ---- Message freeze ----

  /** A run in which the main loop does not call `i2c_message_done`. */
  ghost predicate NotDone(s: Sys, events: seq<Event>)
    requires Inv(s)
    decreases |events|
  {
    events == [] ||
    (&& Enabled(s, events[0]) && !(s.main.Handling? && events[0].Main?)
     && (NextInv(s, events[0]); NotDone(Next(s, events[0]), events[1..])))
  }

  lemma FrozenStep(s: Sys, e: Event)
    requires Inv(s) && s.main.Handling? && Enabled(s, e) && !e.Main?
    ensures Next(s, e).main.Handling? && Next(s, e).usi.wrbuf == s.usi.wrbuf && Next(s, e).usi.wrlen == s.usi.wrlen
  {
  }

  /** From the report of a message until it is done, whatever the bus and the interrupts do, buffer
      and length stay as they were reported. */
  lemma {:induction false} MessageFrozen(s: Sys, events: seq<Event>, t: Sys)
    requires Inv(s) && s.main.Handling? && IsRun(s, events, t) && NotDone(s, events)
    ensures t.main.Handling? && t.usi.wrbuf == s.usi.wrbuf && t.usi.wrlen == s.usi.wrlen
    decreases |events|
  {
    if events != [] {
      NextInv(s, events[0]);
      FrozenStep(s, events[0]);
      MessageFrozen(Next(s, events[0]), events[1..], t);
    }
  }

  /** While a message waits, an address byte opens a write transaction under no circumstances, and
      opens one exactly when the slave is addressed for writing and no message waits. */
  lemma WriteAcceptedIff(s: Sys, byte: Byte)
    requires Inv(s) && s.usi.state.CheckAddress?
    ensures ShiftStep(s, byte).usi.state.RequestData? <==> (byte == 0 || byte == ADDRESS) && s.usi.wrlen == 0
    ensures (byte == 0 || byte == ADDRESS) && s.usi.wrlen > 0 ==> ShiftStep(s, byte).usi.state.Stopped?
    ensures s.main.Handling? ==> s.usi.wrlen > 0
  {
  }

  // ---- Write capture ----

  /** When the main loop is told of a message, the buffer holds the first four (or fewer) of the
      bytes the master sent in the transaction, and the transaction can add no more to them. */
  lemma ReportedMessage(s: Sys, m: Motors)
    requires Inv(s) && Next(s, Main(m)).main.Handling? && !s.main.Handling?
    ensures var t := Next(s, Main(m));
      && 0 < t.usi.wrlen && t.usi.wrbuf[..t.usi.wrlen] == FirstFour(t.sent)
      && t.sent == s.sent && (t.writing ==> |t.sent| > SIZE)
  {
    NextInv(s, Main(m));
  }

  /** ... and that stays true of the complete transaction for as long as the message is handled. */
  lemma HandledMessage(s: Sys, events: seq<Event>, t: Sys)
    requires Inv(s) && s.main.Handling? && IsRun(s, events, t) && NotDone(s, events)
    ensures s.usi.wrbuf[..s.usi.wrlen] == FirstFour(t.sent)
  {
    RunInv(s, events, t);
    MessageFrozen(s, events, t);
  }

  /** The length `i2c_message_ready` returns is read before interrupts are off and may be too small:
      the main loop may rely on it only as a flag. */
  lemma ReportedLengthIsLowerBound(s: Sys, m: Motors)
    requires Inv(s) && s.main.Checking? && Next(s, Main(m)).main.Handling?
    ensures 0 < s.main.r <= Next(s, Main(m)).usi.wrlen
  {
  }

  // ---- Read stream ----

  /** A run inside one read transaction. */
  ghost predicate StaysReading(s: Sys, events: seq<Event>)
    requires Inv(s)
    decreases |events|
  {
    s.usi.state.MasterRead() && (events == [] ||
      (Enabled(s, events[0]) && (NextInv(s, events[0]); StaysReading(Next(s, events[0]), events[1..]))))
  }

  lemma ReadingKeeps(s: Sys, e: Event)
    requires InRange(s.usi) && Enabled(s, e) && s.usi.state.MasterRead() && Next(s, e).usi.state.MasterRead()
    ensures var t := Next(s, e); t.usi.rdbuf == s.usi.rdbuf && t.usi.rdlen == s.usi.rdlen && s.stream <= t.stream
  {
  }

  /** Within a read transaction the buffer does not change, and the i-th byte sent is the byte at
      i modulo the length. */
  lemma {:induction false} ReadStream(s: Sys, events: seq<Event>, t: Sys)
    requires Inv(s) && IsRun(s, events, t) && StaysReading(s, events)
    ensures t.usi.rdlen == s.usi.rdlen > 0 && t.usi.rdbuf == s.usi.rdbuf && s.stream <= t.stream
    ensures forall i | 0 <= i < |t.stream| :: t.stream[i] == s.usi.rdbuf[i % s.usi.rdlen]
    decreases |events|
  {
    if events != [] {
      NextInv(s, events[0]);
      ReadingKeeps(s, events[0]);
      ReadStream(Next(s, events[0]), events[1..], t);
    } else {
      assert |s.source| == s.usi.rdlen;
    }
  }

  // ---- Replies ----

  /** Accepting a write takes the old reply out, so a read is refused until the main loop has passed its
      reply phase again; it is answered exactly if a reply stands there. */
  lemma ReadAnsweredIff(s: Sys, byte: Byte)
    requires Inv(s) && s.usi.state.CheckAddress?
    ensures ShiftStep(s, byte).usi.state.SendData? <==> byte == ADDRESS + 1 && s.usi.rdlen > 0
    ensures ShiftStep(s, byte).usi.state.RequestData? ==> ShiftStep(s, byte).usi.rdlen == 0
  {
  }

  /** Which getter and which motor the main loop takes a receive buffer to ask for. */
  function Question(buffer: seq<Byte>): (bool, bool)
    requires |buffer| == SIZE
  {
    (buffer[0] == GET_SPEED, buffer[1] == MOTOR1)
  }

  lemma SameAnswerIff(a: seq<Byte>, b: seq<Byte>)
    requires |a| == SIZE && |b| == SIZE
    ensures (forall m: Motors :: ReplyFor(a, m) == ReplyFor(b, m)) <==> Question(a) == Question(b)
  {
    var m := Motors(0, 1, 2, 3);
    assert ReplyFor(a, m) == ReplyFor(b, m) ==> Question(a) == Question(b);
  }

  /** In every run, what the master reads is the reply prepared at the last reply phase, from the first
      bytes of its message and left-over bytes behind them. It is prepared from the complete message
      exactly if no byte of it was stored after that phase ... */
  lemma AnswerCompleteIff(u: Usi, m: Motors, events: seq<Event>, t: Sys)
    requires InRange(u) && u.state.Stopped? && !u.overflowOn && u.wrlen == 0 && u.rdlen == 0
    requires Inv(StartSys(u, m)) && IsRun(StartSys(u, m), events, t) && t.usi.state.MasterRead()
    ensures |t.basis| == |t.before| == |t.usi.wrbuf| == SIZE && t.usi.rdlen == 1 && 0 <= Prepared(t) <= |FirstFour(t.sent)|
    ensures forall i | 0 <= i < |t.stream| :: t.stream[i] == ReplyFor(t.basis, t.shown)
    ensures t.basis[..Prepared(t)] == t.sent[..Prepared(t)] && t.basis[Prepared(t)..] == t.before[Prepared(t)..]
    ensures Prepared(t) == |FirstFour(t.sent)| <==> t.late == 0
    ensures t.late == 0 ==> t.basis == t.usi.wrbuf
  {
    RunInv(StartSys(u, m), events, t);
    AnswersBasis(t);
  }

  lemma AnswersBasis(t: Sys)
    requires Inv(t) && t.usi.state.MasterRead()
    ensures t.usi.rdlen == 1 && 0 <= Prepared(t) && forall i | 0 <= i < |t.stream| :: t.stream[i] == ReplyFor(t.basis, t.shown)
    ensures t.basis[..Prepared(t)] == t.sent[..Prepared(t)] && t.basis[Prepared(t)..] == t.before[Prepared(t)..]
  {
    forall i | 0 <= i < |t.stream| ensures t.stream[i] == ReplyFor(t.basis, t.shown) {
      assert |t.source| == 1 && t.stream[i] == t.source[i % 1];
    }
  }

  /** ... and is the answer to the complete message, whatever the motors show, exactly if the bytes stored
      after it changed neither the getter nor the motor asked for. */
  lemma AnswerRightIff(u: Usi, m: Motors, events: seq<Event>, t: Sys)
    requires InRange(u) && u.state.Stopped? && !u.overflowOn && u.wrlen == 0 && u.rdlen == 0
    requires Inv(StartSys(u, m)) && IsRun(StartSys(u, m), events, t) && t.usi.state.MasterRead()
    ensures |t.basis| == |t.usi.wrbuf| == SIZE && t.usi.wrbuf[..|FirstFour(t.sent)|] == FirstFour(t.sent)
    ensures (forall n: Motors :: ReplyFor(t.basis, n) == ReplyFor(t.usi.wrbuf, n))
       <==> Question(t.basis) == Question(t.usi.wrbuf)
  {
    RunInv(StartSys(u, m), events, t);
    SameAnswerIff(t.basis, t.usi.wrbuf);
  }

  lemma RunCons(s: Sys, e: Event, tail: seq<Event>, t: Sys)
    requires Inv(s) && Enabled(s, e) && Inv(Next(s, e)) && IsRun(Next(s, e), tail, t)
    ensures IsRun(s, [e] + tail, t)
  {
    assert ([e] + tail)[1..] == tail;
  }

  /** The reply phase does come by in the middle of a write: from any such point, a read right after one
      more byte is answered from the buffer as it was before that byte. */
  lemma EarlyReplyAnswered(s: Sys, m: Motors, byte: Byte) returns (events: seq<Event>, t: Sys)
    requires Inv(s) && s.main.AtReply? && s.busOpen && s.usi.state.RequestData? && s.usi.wrlen < SIZE
    ensures IsRun(s, [Main(m)] + events, t) && forall k | 0 <= k < |events| :: !events[k].Main?
    ensures InRange(t.usi) && t.usi.wrbuf[..t.usi.wrlen] == s.usi.wrbuf[..s.usi.wrlen] + [byte]
    ensures t.sent == s.sent + [byte] && t.stream == [ReplyFor(s.usi.wrbuf, m)]
  {
    NextInv(s, Main(m));
    ReplyPut(s, m);
    events, t := WriteAndRead(Next(s, Main(m)), byte);
    RunCons(s, Main(m), events, t);
  }

  lemma ReplyPut(s: Sys, m: Motors)
    requires Inv(s) && s.main.AtReply? && s.usi.state.RequestData?
    ensures var a := Next(s, Main(m));
      && a.usi.rdlen == 1 && |a.usi.rdbuf| == SIZE && a.usi.rdbuf[0] == ReplyFor(s.usi.wrbuf, m) && a.usi.wrbuf == s.usi.wrbuf
      && a.usi.wrlen == s.usi.wrlen && a.usi.state == s.usi.state && a.sent == s.sent && a.busOpen == s.busOpen
  {
  }

  lemma WriteAndRead(s: Sys, byte: Byte) returns (events: seq<Event>, t: Sys)
    requires Inv(s) && s.busOpen && s.usi.state.RequestData? && s.usi.wrlen < SIZE && s.usi.rdlen > 0
    ensures IsRun(s, events, t) && forall k | 0 <= k < |events| :: !events[k].Main?
    ensures InRange(t.usi) && t.usi.wrbuf[..t.usi.wrlen] == s.usi.wrbuf[..s.usi.wrlen] + [byte]
    ensures t.sent == s.sent + [byte] && t.stream == [s.usi.rdbuf[0]]
  {
    var u, write := WriteOne(s, byte);
    var read;
    read, t := ReadOne(u);
    RunAppend(s, write, u, read, t);
    events := write + read;
  }

  /** A write one byte longer, the reply buffer and the main loop as they were. */
  ghost predicate OneByteOn(s: Sys, byte: Byte, t: Sys) {
    && InRange(s.usi) && s.usi.wrlen < SIZE && t.usi.wrbuf == s.usi.wrbuf[s.usi.wrlen := byte] && t.usi.wrlen == s.usi.wrlen + 1
    && t.sent == s.sent + [byte] && t.usi.rdlen == s.usi.rdlen && t.usi.rdbuf == s.usi.rdbuf
    && t.main == s.main && t.before == s.before && t.busOpen && t.usi.state.RequestData?
  }

  /** One more byte of a write. */
  lemma WriteOne(s: Sys, byte: Byte) returns (t: Sys, events: seq<Event>)
    requires Inv(s) && s.busOpen && s.usi.state.RequestData? && s.usi.wrlen < SIZE
    ensures IsRun(s, events, t) && Inv(t) && OneByteOn(s, byte, t)
    ensures |events| == 2 && events[0].Shift? && events[1].Shift?
  {
    var u := Next(s, Shift(0));
    NextInv(s, Shift(0));
    AskedByte(s);
    t := Next(u, Shift(byte));
    NextInv(u, Shift(byte));
    StoredByte(u, byte);
    RunCons(u, Shift(byte), [], t);
    events := [Shift(0)] + ([Shift(byte)] + []);
    RunCons(s, Shift(0), [Shift(byte)] + [], t);
  }

  lemma AskedByte(s: Sys)
    requires InRange(s.usi) && s.usi.state.RequestData?
    ensures Next(s, Shift(0)) == s.(usi := s.usi.(data := 0, state := SendAck))
  {
  }

  lemma StoredByte(s: Sys, byte: Byte)
    requires InRange(s.usi) && s.usi.state.SendAck? && s.usi.wrlen < SIZE
    ensures var t := Next(s, Shift(byte));
      && t.usi == s.usi.(data := 0, wrbuf := s.usi.wrbuf[s.usi.wrlen := byte], wrlen := s.usi.wrlen + 1, state := RequestData)
      && t.sent == s.sent + [byte] && t.main == s.main && t.busOpen == s.busOpen
      && t.before == s.before && t.basis == s.basis && t.shown == s.shown
      && t.late == s.late + 1 && t.done == s.done && t.begun == if s.usi.wrlen == 0 then s.begun + 1 else s.begun
  {
  }

  /** A repeated start, the address for reading, and the first byte of the answer. */
  lemma ReadOne(s: Sys) returns (events: seq<Event>, t: Sys)
    requires Inv(s) && s.usi.rdlen > 0
    ensures IsRun(s, events, t) && forall k | 0 <= k < |events| :: !events[k].Main?
    ensures InRange(t.usi) && t.stream == [s.usi.rdbuf[0]]
    ensures t.sent == s.sent && t.usi.wrbuf == s.usi.wrbuf && t.usi.wrlen == s.usi.wrlen
  {
    var a := Next(s, Start(false));
    NextInv(s, Start(false));
    var b := Next(a, Shift(ADDRESS + 1));
    NextInv(a, Shift(ADDRESS + 1));
    t := Next(b, Shift(0));
    NextInv(b, Shift(0));
    RunCons(b, Shift(0), [], t);
    RunCons(a, Shift(ADDRESS + 1), [Shift(0)] + [], t);
    RunCons(s, Start(false), [Shift(ADDRESS + 1)] + ([Shift(0)] + []), t);
    events := [Start(false)] + ([Shift(ADDRESS + 1)] + ([Shift(0)] + []));
  }

  /** The slave has sent a byte of its answer and waits for the acknowledge bit. */
  ghost predicate Sending(s: Sys) { Inv(s) && s.busOpen && s.usi.state.CheckReply? }

  lemma AckSendsNext(s: Sys)
    requires Sending(s)
    ensures var a := Next(s, Shift(0)); Enabled(s, Shift(0)) && Inv(a) && a.usi.state.RequestReply? && a.usi.overflowOn && a.busOpen
    ensures |Next(s, Shift(0)).stream| == |s.stream| + 1
  {
    NextInv(s, Shift(0));
  }

  lemma ByteAwaitsAck(s: Sys)
    requires Inv(s) && s.busOpen && s.usi.state.RequestReply?
    ensures Sending(Next(s, Shift(0))) && Next(s, Shift(0)).stream == s.stream
  {
    NextInv(s, Shift(0));
  }

  /** An acknowledge bit makes it send the next byte, the lack of one ends the answer. */
  lemma AnswerGoesOnIff(s: Sys, bit: Byte)
    requires Sending(s)
    ensures Enabled(s, Shift(bit)) && Enabled(Next(s, Shift(bit)), Shift(0)) == (bit == 0)
    ensures bit == 0 ==> Sending(Next(Next(s, Shift(bit)), Shift(0))) && |Next(Next(s, Shift(bit)), Shift(0)).stream| == |s.stream| + 1
    ensures bit != 0 ==> Next(s, Shift(bit)).usi.state.Stopped? && Next(s, Shift(bit)).stream == s.stream
  {
    if bit == 0 {
      AckSendsNext(s);
      ByteAwaitsAck(Next(s, Shift(0)));
    }
  }

  /** After a reset, the master asks for the speed of motor 2; the reply phase comes by between the two
      bytes of the question, and the master is told the speed of motor 1. */
  lemma WrongMotorAnswered(u: Usi, m: Motors) returns (events: seq<Event>, t: Sys)
    requires InRange(u) && u.state.Stopped? && !u.overflowOn && u.wrlen == 0 && u.rdlen == 0
    requires u.wrbuf == [0, 0, 0, 0] && Inv(StartSys(u, m))
    ensures IsRun(StartSys(u, m), events, t) && InRange(t.usi)
    ensures t.sent == [GET_SPEED, MOTOR1 + 1] && ReplyFor(t.usi.wrbuf, m) == m.power2 && t.stream == [m.power1]
  {
    var s := StartSys(u, m);
    var first, c := HalfAsked(u, m);
    var tail;
    tail, t := EarlyReplyAnswered(c, m, MOTOR1 + 1);
    assert t.usi.wrbuf[..2] == [GET_SPEED, MOTOR1 + 1];
    assert t.usi.wrbuf[0] == t.usi.wrbuf[..2][0] && t.usi.wrbuf[1] == t.usi.wrbuf[..2][1];
    events := first + ([Main(m)] + tail);
    RunAppend(s, first, c, [Main(m)] + tail, t);
  }

  lemma {:induction false} RunAppend(s: Sys, first: seq<Event>, t: Sys, second: seq<Event>, v: Sys)
    requires Inv(s) && Inv(t) && IsRun(s, first, t) && IsRun(t, second, v)
    ensures IsRun(s, first + second, v)
    decreases |first|
  {
    if first == [] {
      assert first + second == second;
    } else {
      NextInv(s, first[0]);
      RunAppend(Next(s, first[0]), first[1..], t, second, v);
      RunCons(s, first[0], first[1..] + second, v);
      assert first + second == [first[0]] + (first[1..] + second);
    }
  }

  /** The master has sent the getter, not yet the motor. */
  lemma HalfAsked(u: Usi, m: Motors) returns (events: seq<Event>, c: Sys)
    requires InRange(u) && u.state.Stopped? && !u.overflowOn && u.wrlen == 0 && u.rdlen == 0
    requires u.wrbuf == [0, 0, 0, 0] && Inv(StartSys(u, m))
    ensures IsRun(StartSys(u, m), events, c) && Inv(c) && c.main.AtReply? && c.busOpen && c.usi.state.RequestData?
    ensures c.usi.wrlen == 1 && c.sent == [GET_SPEED] && c.usi.wrbuf[0] == GET_SPEED && c.usi.wrbuf[1] == MOTOR1
  {
    var s := StartSys(u, m);
    var b, opening := WriteOpened(s);
    var write;
    c, write := WriteOne(b, GET_SPEED);
    assert c.usi.wrbuf[0] == c.usi.wrbuf[..1][0];
    events := opening + write;
    RunAppend(s, opening, b, write, c);
  }

  /** A write just accepted, the buffer and the main loop as they were. */
  predicate OpenedOn(s: Sys, t: Sys) {
    && t.busOpen && t.usi.state.RequestData? && t.sent == [] && t.usi.wrlen == 0
    && t.usi.wrbuf == s.usi.wrbuf && t.main == s.main && t.before == s.usi.wrbuf
  }

  lemma WriteOpened(s: Sys) returns (t: Sys, events: seq<Event>)
    requires Inv(s) && s.usi.wrlen == 0
    ensures IsRun(s, events, t) && Inv(t) && OpenedOn(s, t)
    ensures |events| == 2 && !events[0].Main? && !events[1].Main?
  {
    var a := Next(s, Start(false));
    NextInv(s, Start(false));
    t := Next(a, Shift(ADDRESS));
    NextInv(a, Shift(ADDRESS));
    RunCons(a, Shift(ADDRESS), [], t);
    events := [Start(false)] + ([Shift(ADDRESS)] + []);
    RunCons(s, Start(false), [Shift(ADDRESS)] + [], t);
  }
}
