/** The stroller object: receive and send buffers, command register and chassis, with the
    methods the comm thread and the follow thread run. Each method is one uninterrupted
    pass through the locked sections it takes; CommandCore and Outbox interleave them. */
module Stroller {
  import opened CTypes
  import opened CStrings
  import opened Frames
  import opened CommandCore
  import opened Actuators
  import Outbox

  const BUFFER: nat := 100
  const REPLY := "ok\n"

  /** Which ioctls take effect. */
  datatype Ioctls = Ioctls(left: bool, right: bool, duty: bool, start: bool)

  /** What move_of_remote does to the vehicle. */
  function Execute(v: Vehicle, c: Command, now: int, ok: Ioctls): Vehicle {
    if c.cmd == CMD_STOP then SetSpeed(v, 0.0, ok.left, ok.right)
    else if c.cmd == CMD_SPEED then SetSpeed(v, c.data1 as real, ok.left, ok.right)
    else if c.cmd == CMD_DIRECTION then SetTurn(v, c.data1 as real, now, ok.duty, ok.start)
    else v
  }

  /** What comes to comm_loop: nothing, a read, or a closed connection, which leads to a wait
      for the next client that may fail. In between the sensor thread sends, in two steps: its
      tests, and at any later time its locked deposit, which in a read may also come
      between the callback and the flush. */
  datatype Input =
    | Timeout
    | Data(bytes: seq<char>, late: bool)
    | Closed(accepted: bool)
    | SensorTests(message: string)
    | SensorDeposits

  /** The buffers hold at most 99 bytes of a read, so a NUL always ends them, and the sensor
      thread sends messages the outbox is for. */
  predicate Short(input: Input) {
    && (input.Data? ==> 0 < |input.bytes| < BUFFER)
    && (input.SensorTests? ==> Outbox.Good(input.message))
  }

  /** The comm thread's part of the state, the message with which the sensor thread is past
      its tests, and everything written. */
  datatype Comm = Comm(register: Register, sbuf: seq<char>, connected: bool, held: Option<string>, sent: seq<string>)

  function AfterFrame(c: Comm, text: string): Comm {
    AfterVerdict(c, Parse(text))
  }

  function AfterVerdict(c: Comm, verdict: Verdict): Comm {
    var register := (match Store(c.register, verdict) case Some(r) => r case None => c.register);
    var sbuf :=
      if verdict.Accepted? && verdict.cmd == CMD_ACTION_MODE
      then (match Outbox.Send(c.sbuf, c.connected, REPLY) case Some(s) => s case None => c.sbuf)
      else c.sbuf;
    c.(register := register, sbuf := sbuf)
  }

  function AfterFlush(c: Comm): Comm {
    if Strlen(c.sbuf) == 0 then c
    else c.(sbuf := Zeros(|c.sbuf|), sent := c.sent + [CStr(c.sbuf)])
  }

  /** A sender past its connection test: the message goes in if the outbox is empty. */
  function AfterDeposit(c: Comm, message: string): Comm {
    if |message| > |c.sbuf| then c
    else match Outbox.Deposit(c.sbuf, message) case Some(s) => c.(sbuf := s) case None => c
  }

  function AfterTests(c: Comm, message: string): Comm {
    if c.held.Some? || |message| > |c.sbuf| || !c.connected then c else c.(held := Some(message))
  }

  function AfterHeld(c: Comm): Comm {
    match c.held case Some(message) => AfterDeposit(c, message).(held := None) case None => c
  }

  function AfterInput(c: Comm, input: Input): Comm {
    match input
    case Timeout => AfterFlush(c)
    case Data(bytes, late) =>
      var d := AfterFrame(c, CStr(bytes));
      AfterFlush(if late then AfterHeld(d) else d)
    case Closed(accepted) => c.(connected := accepted)
    case SensorTests(message) => AfterTests(c, message)
    case SensorDeposits => AfterHeld(c)
  }

  function AfterInputs(c: Comm, inputs: seq<Input>): Comm
    decreases |inputs|
  {
    if inputs == [] then c else AfterInputs(AfterInput(c, inputs[0]), inputs[1..])
  }

  lemma AfterDepositPadded(c: Comm, message: string)
    requires Padded(c.sbuf) && |c.sbuf| == BUFFER && |message| < BUFFER && '\0' !in message
    ensures Padded(AfterDeposit(c, message).sbuf) && |AfterDeposit(c, message).sbuf| == BUFFER
    ensures CStr(AfterDeposit(c, message).sbuf) == if CStr(c.sbuf) == [] then message else CStr(c.sbuf)
    ensures AfterDeposit(c, message) == c.(sbuf := AfterDeposit(c, message).sbuf)
  {
    if Strlen(c.sbuf) == 0 {
      assert c.sbuf == Zeros(BUFFER);
      assert c.sbuf[|message|..] == Zeros(BUFFER - |message|);
      PaddedText(message, BUFFER);
    }
  }

  class Stroller {
    const rbuf: array<char>
    const sbuf: array<char>
    var connected: bool
    var mode: Mode
    var followCmd: int32
    const followData: array<int32>
    const chassis: Chassis
    var held: Option<string>
    ghost var sent: seq<string>

    /** Between passes the receive buffer is all NUL. */
    ghost predicate Valid()
      reads this, rbuf, sbuf, chassis
    {
      && rbuf != sbuf
      && followData.Length == 2
      && rbuf.Length == sbuf.Length == BUFFER
      && rbuf[..] == Zeros(BUFFER)
      && Padded(sbuf[..])
      && (held.Some? ==> Outbox.Good(held.value))
      && chassis.Valid()
    }

    function Slot(): Register
      requires followData.Length == 2
      reads this, followData
    {
      Register(mode, Command(followCmd, followData[0], followData[1]))
    }

    ghost function View(): Comm
      requires followData.Length == 2
      reads this, followData, sbuf
    {
      Comm(Slot(), sbuf[..], connected, held, sent)
    }

    /** stlr_create and stlr_start: a zeroed object around a registered chassis. */
    constructor (chassis: Chassis)
      requires chassis.Valid()
      ensures Valid() && fresh(rbuf) && fresh(sbuf) && fresh(followData)
      ensures View() == Comm(CommandCore.Init().register, Outbox.Init().sbuf, false, None, [])
      ensures Slot() == Register(ModeNone, Command(0, 0, 0)) && rbuf.Length == sbuf.Length == 100
      ensures this.chassis == chassis
    {
      rbuf := new char[BUFFER](_ => '\0');
      sbuf := new char[BUFFER](_ => '\0');
      followData := new int32[2](_ => 0);
      connected, mode, followCmd, held := false, ModeNone, CMD_NONE, None;
      this.chassis := chassis;
      sent := [];
      new;
      ZerosEmpty(BUFFER);
      assert rbuf[..] == Zeros(BUFFER) && sbuf[..] == Zeros(BUFFER);
    }

    method CommSend(message: string) returns (result: int32)
      requires sbuf.Length == BUFFER
      modifies sbuf
      ensures var out := Outbox.Send(old(sbuf[..]), connected, message);
        if out.Some? then result == 0 && sbuf[..] == out.value else result == -1 && sbuf[..] == old(sbuf[..])
    {
      if |message| > sbuf.Length {
        return -1;
      }
      if !connected {
        return -1;
      }
      result := LockedDeposit(message);
    }

    /** The part of stlr_comm_send that holds send_lock; also run by the sensor thread. */
    method LockedDeposit(message: string) returns (result: int32)
      requires |message| <= sbuf.Length
      modifies sbuf
      ensures var out := Outbox.Deposit(old(sbuf[..]), message);
        if out.Some? then result == 0 && sbuf[..] == out.value else result == -1 && sbuf[..] == old(sbuf[..])
    {
      if Strlen(sbuf[..]) != 0 {
        return -1;
      }
      ghost var was := sbuf[..];
      forall i | 0 <= i < |message| {
        sbuf[i] := message[i];
      }
      assert sbuf[..] == message + was[|message|..];
      return 0;
    }

    /** One pass of stlr_follow_loop with follow_mutex held: up to the wait, or in auto
        mode up to the sleep. */
    method FollowPass(now: int, ok: Ioctls) returns (waits: bool)
      requires Valid()
      modifies chassis, chassis.motorLeft, chassis.motorLeft.channel, chassis.motorRight,
               chassis.motorRight.channel, chassis.servo.channel
      ensures chassis.Valid()
      ensures chassis.View() == if mode == ModeRemote then Execute(old(chassis.View()), Slot().command, now, ok)
                                else old(chassis.View())
      ensures waits <==> mode != ModeAuto
    {
      match mode {
        case ModeAuto =>
          waits := false;
        case ModeRemote =>
          var _ := MoveOfRemote(followCmd, followData[0], followData[1], now, ok);
          waits := true;
        case ModeNone =>
          waits := true;
      }
    }

    method MoveOfRemote(cmd: int32, data1: int32, data2: int32, now: int, ok: Ioctls) returns (result: int32)
      requires chassis.Valid()
      modifies chassis, chassis.motorLeft, chassis.motorLeft.channel, chassis.motorRight,
               chassis.motorRight.channel, chassis.servo.channel
      ensures chassis.Valid()
      ensures chassis.View() == Execute(old(chassis.View()), Command(cmd, data1, data2), now, ok)
      ensures result == if 0 <= cmd <= 3 then 0 else -1
    {
      result := 0;
      if cmd == CMD_STOP {
        var _ := chassis.SetChassisSpeed(0.0, now, ok.left, ok.right);
      } else if cmd == CMD_SPEED {
        var _ := chassis.SetChassisSpeed(data1 as real, now, ok.left, ok.right);
      } else if cmd == CMD_DIRECTION {
        var _ := chassis.SetChassisTurn(data1 as real, now, ok.duty, ok.start);
      } else if cmd != CMD_NONE {
        result := -1;
      }
    }

    /** comm_receive_callback, on the text in rbuf. The condition is signalled exactly
        when the register is written. */
    method ReceiveCallback() returns (signalled: bool)
      requires rbuf != sbuf && followData.Length == 2 && rbuf.Length == sbuf.Length == BUFFER
      requires Terminated(rbuf[..])
      modifies this`mode, this`followCmd, followData, rbuf, sbuf
      ensures rbuf[..] == Zeros(BUFFER)
      ensures View() == AfterFrame(old(View()), CStr(old(rbuf[..])))
      ensures signalled <==> Store(old(Slot()), Parse(CStr(old(rbuf[..])))).Some?
    {
      signalled := false;
      ghost var was := View();
      var len := Strlen(rbuf[..]);
      ghost var text := CStr(rbuf[..]);
      if len == 0 || rbuf[0] != 'y' || rbuf[len - 1] != 'c' {
        assert Parse(text) == Malformed;
      } else {
        var p := rbuf[1..len];
        assert p == text[1..];
        var field := Strtol(p);
        var cmd := Wrap32(field.value);
        field := Strtol(field.rest);
        var data1 := Wrap32(field.value);
        field := Strtol(field.rest);
        var data2 := Wrap32(field.value);
        field := Strtol(field.rest);
        var checksum := Wrap32(field.value);
        assert Parse(text) == Judge(cmd, data1, data2, checksum);
        var sum := Wrap32(cmd as int + data1 as int);
        sum := Wrap32(sum as int + data2 as int);
        if sum == checksum {
          assert Parse(text) == Accepted(cmd, data1, data2);
          signalled := Dispatch(cmd, data1, data2);
        } else {
          assert Parse(text) == BadChecksum;
        }
      }
      assert View() == AfterVerdict(was, Parse(text));
      forall i | 0 <= i < rbuf.Length {
        rbuf[i] := '\0';
      }
    }

    /** The switch over the command of a frame that has passed. */
    method Dispatch(cmd: int32, data1: int32, data2: int32) returns (signalled: bool)
      requires followData.Length == 2 && sbuf.Length == BUFFER
      modifies this`mode, this`followCmd, followData, sbuf
      ensures View() == AfterVerdict(old(View()), Accepted(cmd, data1, data2))
      ensures signalled <==> Store(old(Slot()), Accepted(cmd, data1, data2)).Some?
    {
      signalled := false;
      if cmd == CMD_STOP || cmd == CMD_SPEED || cmd == CMD_DIRECTION {
        followCmd := cmd;
        followData[0] := data1;
        followData[1] := data2;
        signalled := true;
      } else if cmd == CMD_ACTION_MODE {
        mode := if data1 == 0 then ModeAuto else ModeRemote;
        followCmd := CMD_STOP;
        signalled := true;
        var _ := CommSend(REPLY);
      }
    }

    method FlushOutbox()
      requires followData.Length == 2 && sbuf.Length == BUFFER
      modifies this`sent, sbuf
      ensures View() == AfterFlush(old(View()))
    {
      var len := Strlen(sbuf[..]);
      if len != 0 {
        sent := sent + [sbuf[..len]];
        forall i | 0 <= i < sbuf.Length {
          sbuf[i] := '\0';
        }
        assert sbuf[..] == Zeros(BUFFER);
      }
    }

    /** One pass of comm_loop, or one step of the sensor thread between two passes. */
    method CommPass(input: Input)
      requires Valid() && Short(input)
      modifies this`mode, this`followCmd, this`connected, this`held, this`sent, followData, rbuf, sbuf
      ensures Valid()
      ensures View() == AfterInput(old(View()), input)
    {
      hide Parse, AfterFrame, AfterDeposit, AfterFlush, Padded, Strlen;
      match input {
        case Closed(accepted) =>
          connected := false;
          connected := accepted;
        case SensorTests(message) =>
          SensorTest(message);
        case SensorDeposits =>
          SensorDeposit();
        case Timeout =>
          AfterFlushPadded(View());
          FlushOutbox();
        case Data(bytes, late) =>
          ReadPass(bytes, late);
      }
    }

    /** The read into the receive buffer. */
    method FillBuffer(bytes: seq<char>)
      requires rbuf.Length == BUFFER && rbuf[..] == Zeros(BUFFER) && |bytes| < BUFFER
      modifies rbuf
      ensures rbuf[..] == bytes + Zeros(BUFFER - |bytes|)
      ensures Terminated(rbuf[..]) && CStr(rbuf[..]) == CStr(bytes)
    {
      forall i | 0 <= i < |bytes| {
        rbuf[i] := bytes[i];
      }
      ReadTerminated(rbuf[..], bytes);
    }

    method ReadPass(bytes: seq<char>, late: bool)
      requires Valid() && Short(Data(bytes, late))
      modifies this`mode, this`followCmd, this`held, this`sent, followData, rbuf, sbuf
      ensures Valid()
      ensures View() == AfterInput(old(View()), Data(bytes, late))
    {
      hide Parse, AfterFrame, AfterDeposit, AfterHeld, AfterFlush, Padded, Strlen, CStr;
      AfterFramePadded(View(), CStr(bytes));
      FillBuffer(bytes);
      var _ := ReceiveCallback();
      if late {
        SensorDeposit();
      }
      AfterFlushPadded(View());
      FlushOutbox();
    }

    /** The tests of stlr_comm_send, run by the sensor thread. */
    method SensorTest(message: string)
      requires followData.Length == 2
      modifies this`held
      ensures View() == AfterTests(old(View()), message)
    {
      if held == None && |message| <= sbuf.Length && connected {
        held := Some(message);
      }
    }

    /** The locked part of the sensor thread's send, if it is past its tests. */
    method SensorDeposit()
      requires followData.Length == 2 && sbuf.Length == BUFFER && Padded(sbuf[..])
      requires held.Some? ==> Outbox.Good(held.value)
      modifies this`held, sbuf
      ensures Padded(sbuf[..]) && held == None
      ensures View() == AfterHeld(old(View()))
    {
      hide Padded, Strlen;
      if held != None {
        AfterDepositPadded(View(), held.value);
        var _ := LockedDeposit(held.value);
        held := None;
      }
    }

    /** comm_loop over any sequence of inputs, the sensor thread's steps among them: every
        frame is judged on its own bytes, since each pass leaves the receive buffer empty. */
    method CommLoop(inputs: seq<Input>)
      requires Valid()
      requires forall i :: 0 <= i < |inputs| ==> Short(inputs[i])
      modifies this`mode, this`followCmd, this`connected, this`held, this`sent, followData, rbuf, sbuf
      ensures Valid()
      ensures View() == AfterInputs(old(View()), inputs)
    {
      var i := 0;
      while i < |inputs|
        invariant 0 <= i <= |inputs|
        invariant Valid()
        invariant AfterInputs(View(), inputs[i..]) == AfterInputs(old(View()), inputs)
      {
        CommPass(inputs[i]);
        i := i + 1;
      }
    }
  }

  lemma ReadTerminated(buf: seq<char>, bytes: seq<char>)
    requires |bytes| < |buf| && bytes <= buf && buf[|bytes|] == '\0'
    ensures Terminated(buf) && CStr(buf) == CStr(bytes)
  {
    var n := Strlen(bytes);
    assert buf[..n] == bytes[..n];
    StrlenIs(buf, n);
  }

  lemma AfterFramePadded(c: Comm, text: string)
    requires Padded(c.sbuf) && |c.sbuf| == BUFFER
    ensures Padded(AfterFrame(c, text).sbuf) && |AfterFrame(c, text).sbuf| == BUFFER
    ensures AfterFrame(c, text).held == c.held && AfterFrame(c, text).sent == c.sent
    ensures CStr(AfterFrame(c, text).sbuf)
         == if CStr(c.sbuf) == [] && Parse(text).Accepted? && Parse(text).cmd == CMD_ACTION_MODE && c.connected
            then REPLY else CStr(c.sbuf)
  {
    hide Parse, Padded, Store, Strlen;
    assert '\0' !in REPLY;
    AfterDepositPadded(c, REPLY);
  }

  lemma AfterFlushPadded(c: Comm)
    requires Padded(c.sbuf) && |c.sbuf| == BUFFER
    ensures Padded(AfterFlush(c).sbuf) && |AfterFlush(c).sbuf| == BUFFER
    ensures CStr(AfterFlush(c).sbuf) == []
    ensures AfterFlush(c).sent == c.sent + (if CStr(c.sbuf) == [] then [] else [CStr(c.sbuf)])
  {
    ZerosEmpty(BUFFER);
  }

  /** A frame that fails the y/c test, the checksum or the command switch. */
  predicate Rejected(text: string) {
    if text == "" || text[0] != 'y' || text[|text| - 1] != 'c' then true
    else
      var f := ReadFields(text[1..]);
      (f.cmd + f.data1 + f.data2 - f.checksum) % 0x1_0000_0000 != 0 || !(1 <= f.cmd <= 4)
  }

  lemma RejectedByParse(text: string)
    ensures Rejected(text) <==> !(Parse(text).Accepted? && 1 <= Parse(text).cmd <= 4)
  {
    hide Parse, ReadFields;
    VerdictOfBytes(text);
  }

  /** A read whose text is empty, does not begin with 'y' or does not end with 'c' leaves
      register, outbox and wire as a timeout does, and a late deposit before it. */
  lemma NotAFrameIsTimeout(c: Comm, bytes: seq<char>, late: bool)
    requires var text := CStr(bytes); text == "" || text[0] != 'y' || text[|text| - 1] != 'c'
    ensures AfterInput(c, Data(bytes, late)) == AfterInput(if late then AfterInput(c, SensorDeposits) else c, Timeout)
  {
    hide AfterInput, ReadFields, Strlen;
    RejectedIsTimeout(c, bytes, late);
  }

  /** The same inputs, had the rejected frames never come. */
  function WithoutRejected(inputs: seq<Input>): seq<Input> {
    if inputs == [] then []
    else
      var first, rest := inputs[0], WithoutRejected(inputs[1..]);
      if first.Data? && Rejected(CStr(first.bytes))
      then (if first.late then [SensorDeposits, Timeout] else [Timeout]) + rest
      else [first] + rest
  }

  /** Rejected frames are invisible: over any inputs, register, outbox and everything sent
      are as if each had been a timeout. */
  lemma {:induction false} RejectedFramesInvisible(c: Comm, inputs: seq<Input>)
    requires forall i :: 0 <= i < |inputs| ==> Short(inputs[i])
    ensures AfterInputs(c, inputs) == AfterInputs(c, WithoutRejected(inputs))
    decreases |inputs|
  {
    if inputs != [] {
      hide AfterInput, Rejected, Short;
      var first, rest := inputs[0], WithoutRejected(inputs[1..]);
      RejectedFramesInvisible(AfterInput(c, first), inputs[1..]);
      if first.Data? && Rejected(CStr(first.bytes)) {
        RejectedIsTimeout(c, first.bytes, first.late);
        AfterFirst(c, Timeout, rest);
        if first.late {
          assert [SensorDeposits, Timeout] + rest == [SensorDeposits] + ([Timeout] + rest);
          AfterFirst(c, SensorDeposits, [Timeout] + rest);
          AfterFirst(AfterInput(c, SensorDeposits), Timeout, rest);
        }
      } else {
        AfterFirst(c, first, rest);
      }
    }
  }

  lemma AfterFirst(c: Comm, first: Input, rest: seq<Input>)
    ensures AfterInputs(c, [first] + rest) == AfterInputs(AfterInput(c, first), rest)
  {
    assert ([first] + rest)[1..] == rest;
  }

  lemma RejectedIsTimeout(c: Comm, bytes: seq<char>, late: bool)
    requires Rejected(CStr(bytes))
    ensures AfterInput(c, Data(bytes, late)) == AfterInput(if late then AfterInput(c, SensorDeposits) else c, Timeout)
  {
    hide AfterFrame, AfterHeld, AfterFlush, Rejected, Strlen;
    RejectedFrameChangesNothing(c, CStr(bytes));
  }

  lemma RejectedFrameChangesNothing(c: Comm, text: string)
    requires Rejected(text)
    ensures AfterFrame(c, text) == c
  {
    hide Parse, Rejected;
    RejectedByParse(text);
  }

  /** What one read puts on the wire: the message that was waiting, and then a reply or a late
      sensor message is lost; else the reply to a mode switch, to a client; else the late
      message of the sensor thread. */
  lemma WhatIsSent(c: Comm, bytes: seq<char>, late: bool)
    requires Padded(c.sbuf) && |c.sbuf| == BUFFER
    requires c.held.Some? ==> Outbox.Good(c.held.value)
    ensures var verdict, d := Parse(CStr(bytes)), AfterInput(c, Data(bytes, late));
      && CStr(d.sbuf) == [] && Padded(d.sbuf)
      && d.held == (if late then None else c.held)
      && d.sent == c.sent +
           if CStr(c.sbuf) != [] then [CStr(c.sbuf)]
           else if verdict.Accepted? && verdict.cmd == 4 && c.connected then ["ok\n"]
           else if late && c.held.Some? then [c.held.value]
           else []
  {
    hide Parse, Strlen, CStr, Padded, AfterFrame, AfterDeposit, AfterFlush;
    var d := AfterFrame(c, CStr(bytes));
    AfterFramePadded(c, CStr(bytes));
    if late && c.held.Some? {
      AfterDepositPadded(d, c.held.value);
    }
    AfterFlushPadded(if late then AfterHeld(d) else d);
    AfterFlushHeld(if late then AfterHeld(d) else d);
  }

  lemma AfterFlushHeld(c: Comm)
    ensures AfterFlush(c).held == c.held
  {
  }

  // ---- The comm thread as a source of steps of CommandCore ----

  /** The frames of a sequence of inputs. */
  function FrameSteps(inputs: seq<Input>): seq<Step> {
    if inputs == [] then []
    else (if inputs[0].Data? then [Receive(CStr(inputs[0].bytes))] else []) + FrameSteps(inputs[1..])
  }

  /** Whatever the other threads do to the outbox, comm_loop leaves in the register what
      the step machine leaves there when it receives the same frames one by one. */
  lemma {:induction false} CommLoopFeedsCore(c: Comm, core: Core, inputs: seq<Input>)
    requires core.stores != [] && c.register == core.register
    ensures CommandCore.Valid(core, FrameSteps(inputs))
    ensures AfterInputs(c, inputs).register == CommandCore.Final(core, FrameSteps(inputs)).register
    decreases |inputs|
  {
    if inputs != [] {
      hide Parse, Strlen;
      var rest := FrameSteps(inputs[1..]);
      if inputs[0].Data? {
        var step := Receive(CStr(inputs[0].bytes));
        CommLoopFeedsCore(AfterInput(c, inputs[0]), Next(core, step), inputs[1..]);
        Unfold(core, step, rest);
      } else {
        CommLoopFeedsCore(AfterInput(c, inputs[0]), core, inputs[1..]);
        assert [] + rest == rest;
      }
    }
  }

  // ---- The follow thread as a source of steps of CommandCore ----

  /** The frames that come before the next pass. */
  type Round = seq<string>

  function StoreAll(r: Register, frames: seq<string>): Register
    decreases |frames|
  {
    if frames == [] then r
    else
      var stored := Store(r, Parse(frames[0]));
      StoreAll(if stored.Some? then stored.value else r, frames[1..])
  }

  /** What FollowPass executes, pass by pass. */
  function LoopCommands(r: Register, rounds: seq<Round>): seq<Command>
    decreases |rounds|
  {
    if rounds == [] then []
    else
      var s := StoreAll(r, rounds[0]);
      (if s.mode == ModeRemote then [s.command] else []) + LoopCommands(s, rounds[1..])
  }

  function Receives(frames: seq<string>): seq<Step> {
    if frames == [] then [] else [Receive(frames[0])] + Receives(frames[1..])
  }

  /** The steps of a round: the frames, a wake-up if the thread is in its wait, the pass. */
  function RoundSteps(follow: Follow, frames: seq<string>): seq<Step> {
    Receives(frames) + if follow.Running? then [Pass] else [Wake, Pass]
  }

  function LoopSteps(follow: Follow, r: Register, rounds: seq<Round>): seq<Step>
    decreases |rounds|
  {
    if rounds == [] then []
    else
      var s := StoreAll(r, rounds[0]);
      RoundSteps(follow, rounds[0]) + LoopSteps(if s.mode != ModeAuto then Blocked(false) else Running, s, rounds[1..])
  }

  function Commands(executed: seq<Executed>): seq<Command> {
    seq(|executed|, i requires 0 <= i < |executed| => executed[i].command)
  }

  lemma {:induction false} ReceivesStore(c: Core, frames: seq<string>)
    requires c.stores != []
    ensures CommandCore.Valid(c, Receives(frames))
    ensures var d := CommandCore.Final(c, Receives(frames));
      && d.register == StoreAll(c.register, frames) && d.executed == c.executed
      && (d.follow.Running? <==> c.follow.Running?)
    decreases |frames|
  {
    if frames != [] {
      hide Parse;
      var step := Receive(frames[0]);
      ReceivesStore(Next(c, step), frames[1..]);
      Unfold(c, step, Receives(frames[1..]));
    }
  }

  lemma PassRuns(c: Core)
    requires c.stores != []
    ensures c.follow.Running? ==>
      && CommandCore.Valid(c, [Pass])
      && var d := CommandCore.Final(c, [Pass]);
      && d.stores != [] && d.register == c.register
      && d.follow == (if c.register.mode != ModeAuto then Blocked(false) else Running)
      && Commands(d.executed)
         == Commands(c.executed) + if c.register.mode == ModeRemote then [c.register.command] else []
  {
    if c.follow.Running? {
      Unfold(c, Pass, []);
      assert [Pass] + [] == [Pass];
    }
  }

  lemma RoundRuns(c: Core, frames: seq<string>)
    requires c.stores != []
    ensures var steps, s := RoundSteps(c.follow, frames), StoreAll(c.register, frames);
      && CommandCore.Valid(c, steps)
      && var d := CommandCore.Final(c, steps);
      && d.stores != [] && d.register == s
      && d.follow == (if s.mode != ModeAuto then Blocked(false) else Running)
      && Commands(d.executed) == Commands(c.executed) + (if s.mode == ModeRemote then [s.command] else [])
  {
    hide Parse, StoreAll, Receives, CommandCore.Valid, CommandCore.Final, Commands;
    ReceivesStore(c, frames);
    var d := CommandCore.Final(c, Receives(frames));
    PassRuns(d);
    if c.follow.Running? {
      CommandCore.Append(c, Receives(frames), [Pass]);
    } else {
      PassRuns(Next(d, Wake));
      Unfold(d, Wake, [Pass]);
      assert [Wake, Pass] == [Wake] + [Pass];
      CommandCore.Append(c, Receives(frames), [Wake, Pass]);
    }
  }

  /** Whatever frames come before each pass, the follow loop, pass by pass, is a run of the step
      machine: it executes the same commands in the same order, and after each pass it is in
      the wait unless the mode is auto, as FollowPass reports. */
  lemma {:induction false} FollowLoopFeedsCore(c: Core, rounds: seq<Round>)
    requires c.stores != []
    ensures var steps := LoopSteps(c.follow, c.register, rounds);
      && CommandCore.Valid(c, steps)
      && var d := CommandCore.Final(c, steps);
      && Commands(d.executed) == Commands(c.executed) + LoopCommands(c.register, rounds)
      && (rounds != [] ==> d.follow == (if d.register.mode != ModeAuto then Blocked(false) else Running))
    decreases |rounds|
  {
    hide Parse, StoreAll, RoundSteps, Commands, Next, CommandCore.Enabled;
    if rounds != [] {
      hide CommandCore.Valid, CommandCore.Final;
      var steps := RoundSteps(c.follow, rounds[0]);
      RoundRuns(c, rounds[0]);
      var d := CommandCore.Final(c, steps);
      FollowLoopFeedsCore(d, rounds[1..]);
      CommandCore.Append(c, steps, LoopSteps(d.follow, d.register, rounds[1..]));
      assert Commands(c.executed) + LoopCommands(c.register, rounds)
          == Commands(d.executed) + LoopCommands(d.register, rounds[1..]);
    } else {
      assert Commands(c.executed) + [] == Commands(c.executed);
    }
  }

  // ---- The comm thread and the sensor thread's sends as a run of Outbox ----

  /** The buffer, the connection, the sender past its tests and the wire are the same. */
  ghost predicate Represents(c: Comm, b: Outbox.Box) {
    && |c.sbuf| == BUFFER && c.sbuf == b.sbuf && c.connected == b.connected
    && b.checked == (match c.held case Some(message) => map[Outbox.SensorThread := message] case None => map[])
    && (c.held.Some? ==> Outbox.Good(c.held.value))
    && c.sent == Outbox.Messages(b.written)
  }

  function DepositSteps(c: Comm): seq<Outbox.Step> {
    if c.held.Some? then [Outbox.Commit(Outbox.SensorThread)] else []
  }

  /** The reply to a mode switch. */
  function ReplySteps(c: Comm, text: string): seq<Outbox.Step> {
    if !(Parse(text).Accepted? && Parse(text).cmd == CMD_ACTION_MODE) then []
    else [Outbox.Check(Outbox.CommThread, REPLY)] + if c.connected then [Outbox.Commit(Outbox.CommThread)] else []
  }

  function ReadSteps(c: Comm, text: string, late: bool): seq<Outbox.Step> {
    ReplySteps(c, text) + ((if late then DepositSteps(c) else []) + [Outbox.Flush])
  }

  function OutboxSteps(c: Comm, input: Input): seq<Outbox.Step> {
    match input
    case Timeout => [Outbox.Flush]
    case Data(bytes, late) => ReadSteps(c, CStr(bytes), late)
    case Closed(accepted) => [Outbox.Disconnect] + if accepted then [Outbox.Connect] else []
    case SensorTests(message) => if c.held.Some? then [] else [Outbox.Check(Outbox.SensorThread, message)]
    case SensorDeposits => DepositSteps(c)
  }

  function AllOutboxSteps(c: Comm, inputs: seq<Input>): seq<Outbox.Step>
    decreases |inputs|
  {
    if inputs == [] then [] else OutboxSteps(c, inputs[0]) + AllOutboxSteps(AfterInput(c, inputs[0]), inputs[1..])
  }

  /** From b the steps are possible, with good messages, and lead to what d stands for. */
  ghost predicate Leads(b: Outbox.Box, steps: seq<Outbox.Step>, d: Comm) {
    Outbox.Valid(b, steps) && Outbox.GoodMessages(steps) && Represents(d, Outbox.Final(b, steps))
  }

  lemma LeadsOn(b: Outbox.Box, steps: seq<Outbox.Step>, d: Comm, more: seq<Outbox.Step>, e: Comm)
    requires Leads(b, steps, d) && Leads(Outbox.Final(b, steps), more, e)
    ensures Leads(b, steps + more, e)
  {
    hide Represents;
    Outbox.Append(b, steps, more);
  }

  lemma OneStepLeads(b: Outbox.Box, step: Outbox.Step, d: Comm)
    requires Outbox.Enabled(b, step) && (step.Check? ==> Outbox.Good(step.message))
    requires Represents(d, Outbox.Next(b, step))
    ensures Leads(b, [step], d)
  {
    hide Represents;
    Outbox.Unfold(b, step, []);
    assert [step] + [] == [step];
  }

  lemma NoStepLeads(b: Outbox.Box, d: Comm)
    requires Represents(d, b)
    ensures Leads(b, [], d)
  {
  }

  lemma FlushLeads(c: Comm, b: Outbox.Box)
    requires Represents(c, b)
    ensures Leads(b, [Outbox.Flush], AfterFlush(c))
  {
    hide Strlen;
    Outbox.MessagesAppend(b.written, Outbox.Delivery(CStr(b.sbuf), b.link));
    ZerosEmpty(BUFFER);
    OneStepLeads(b, Outbox.Flush, AfterFlush(c));
  }

  lemma DepositLeads(c: Comm, b: Outbox.Box)
    requires Represents(c, b)
    ensures Leads(b, DepositSteps(c), AfterHeld(c))
  {
    hide Strlen;
    if c.held.Some? {
      assert b.checked - {Outbox.SensorThread} == map[];
      OneStepLeads(b, Outbox.Commit(Outbox.SensorThread), AfterHeld(c));
    } else {
      NoStepLeads(b, c);
    }
  }

  lemma ReplyLeads(c: Comm, b: Outbox.Box, text: string)
    requires Represents(c, b)
    ensures Leads(b, ReplySteps(c, text), AfterFrame(c, text))
  {
    hide Parse, Strlen;
    var verdict, d := Parse(text), AfterFrame(c, text);
    if verdict.Accepted? && verdict.cmd == CMD_ACTION_MODE {
      var check, commit := Outbox.Check(Outbox.CommThread, REPLY), Outbox.Commit(Outbox.CommThread);
      if c.connected {
        var b1 := Outbox.Next(b, check);
        assert b1.checked - {Outbox.CommThread} == b.checked;
        OneStepLeads(b1, commit, d);
        Outbox.Unfold(b, check, [commit]);
      } else {
        OneStepLeads(b, check, d);
        assert [check] + [] == [check];
      }
    } else {
      NoStepLeads(b, d);
    }
  }

  lemma ReadLeads(c: Comm, b: Outbox.Box, text: string, late: bool)
    requires Represents(c, b)
    ensures var d := AfterFrame(c, text);
      Leads(b, ReadSteps(c, text, late), AfterFlush(if late then AfterHeld(d) else d))
  {
    hide Parse, Represents, AfterFrame, AfterHeld, AfterFlush, ReplySteps, DepositSteps;
    var d := AfterFrame(c, text);
    ReplyLeads(c, b, text);
    HeldAfterFrame(c, text);
    var b1 := Outbox.Final(b, ReplySteps(c, text));
    if late {
      DepositLeads(d, b1);
      FlushLeads(AfterHeld(d), Outbox.Final(b1, DepositSteps(d)));
      LeadsOn(b1, DepositSteps(d), AfterHeld(d), [Outbox.Flush], AfterFlush(AfterHeld(d)));
      LeadsOn(b, ReplySteps(c, text), d, DepositSteps(d) + [Outbox.Flush], AfterFlush(AfterHeld(d)));
    } else {
      FlushLeads(d, b1);
      assert [] + [Outbox.Flush] == [Outbox.Flush];
      LeadsOn(b, ReplySteps(c, text), d, [Outbox.Flush], AfterFlush(d));
    }
  }

  lemma HeldAfterFrame(c: Comm, text: string)
    ensures DepositSteps(AfterFrame(c, text)) == DepositSteps(c)
  {
    hide Parse;
  }

  lemma InputLeads(c: Comm, b: Outbox.Box, input: Input)
    requires Represents(c, b) && Short(input)
    ensures Leads(b, OutboxSteps(c, input), AfterInput(c, input))
  {
    hide Parse, Strlen, AfterFrame, AfterHeld, AfterFlush, ReadSteps, DepositSteps;
    match input
    case Timeout => FlushLeads(c, b);
    case SensorDeposits => DepositLeads(c, b);
    case Data(bytes, late) => ReadLeads(c, b, CStr(bytes), late);
    case Closed(accepted) =>
      assert [Outbox.Disconnect] + [] == [Outbox.Disconnect];
      OneStepLeads(b, Outbox.Disconnect, c.(connected := false));
      if accepted {
        OneStepLeads(Outbox.Next(b, Outbox.Disconnect), Outbox.Connect, c.(connected := true));
        Outbox.Unfold(b, Outbox.Disconnect, [Outbox.Connect]);
      }
    case SensorTests(message) =>
      if c.held.Some? {
        NoStepLeads(b, c);
      } else {
        OneStepLeads(b, Outbox.Check(Outbox.SensorThread, message), AfterTests(c, message));
      }
  }

  /** The whole send, as CommSend makes it, is the two steps Check and Commit of one sender. */
  lemma SendIsCheckThenCommit(b: Outbox.Box, sender: Outbox.Sender, message: string)
    requires sender !in b.checked
    ensures var checked := Outbox.Next(b, Outbox.Check(sender, message));
      var out := Outbox.Send(b.sbuf, b.connected, message);
      if sender in checked.checked
      then Outbox.Next(checked, Outbox.Commit(sender)).sbuf == (if out.Some? then out.value else b.sbuf)
      else out == None && checked == b
  {
    hide Strlen;
  }

  /** Whatever comes to the comm loop and whenever the sensor thread tests and deposits, their
      sends, flushes and client changes are a run of Outbox: the buffer, the connection and
      everything written are what the step machine leaves. */
  lemma {:induction false} CommLoopFeedsOutbox(c: Comm, b: Outbox.Box, inputs: seq<Input>)
    requires Represents(c, b)
    requires forall i :: 0 <= i < |inputs| ==> Short(inputs[i])
    ensures Leads(b, AllOutboxSteps(c, inputs), AfterInputs(c, inputs))
    decreases |inputs|
  {
    if inputs == [] {
      NoStepLeads(b, c);
    } else {
      hide Represents, Short, OutboxSteps, AfterInput;
      var d, steps := AfterInput(c, inputs[0]), OutboxSteps(c, inputs[0]);
      InputLeads(c, b, inputs[0]);
      CommLoopFeedsOutbox(d, Outbox.Final(b, steps), inputs[1..]);
      LeadsOn(b, steps, d, AllOutboxSteps(d, inputs[1..]), AfterInputs(d, inputs[1..]));
    }
  }

  /** So over any inputs everything on the wire, followed by the message waiting, is what was
      accepted, whole and in order. */
  lemma CommLoopIsFifo(c: Comm, inputs: seq<Input>)
    requires c.sbuf == Zeros(BUFFER) && !c.connected && c.held == None && c.sent == []
    requires forall i :: 0 <= i < |inputs| ==> Short(inputs[i])
    ensures var steps, d := AllOutboxSteps(c, inputs), AfterInputs(c, inputs);
      && Outbox.Valid(Outbox.Init(), steps)
      && Outbox.Messages(Outbox.Final(Outbox.Init(), steps).accepted)
         == d.sent + (if Strlen(d.sbuf) == 0 then [] else [CStr(d.sbuf)])
  {
    hide AllOutboxSteps, AfterInputs, Strlen;
    ZerosEmpty(BUFFER);
    assert Outbox.Messages([]) == [];
    CommLoopFeedsOutbox(c, Outbox.Init(), inputs);
    Outbox.OutboxIsFifo(AllOutboxSteps(c, inputs));
  }
}
