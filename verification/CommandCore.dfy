/** The command register shared by the comm thread and the follow thread.

    The comm thread stores parsed commands in a one-slot register under
    follow_mutex and signals follow_cond; the follow thread executes the register
    and waits. One step is one critical section, or one wake-up from the wait.
    Wake-ups may be spurious, as pthread_cond_wait of IEEE 1003.1-2017 allows. */
module CommandCore {
  import opened CTypes
  import opened Frames

  const CMD_NONE: int32 := 0
  const CMD_STOP: int32 := 1
  const CMD_SPEED: int32 := 2
  const CMD_DIRECTION: int32 := 3
  const CMD_ACTION_MODE: int32 := 4

  datatype Mode = ModeNone | ModeAuto | ModeRemote

  datatype Command = Command(cmd: int32, data1: int32, data2: int32)

  datatype Register = Register(mode: Mode, command: Command)

  /** What the critical section of comm_receive_callback does to the register;
      None when the frame reaches no critical section. */
  function Store(r: Register, verdict: Verdict): Option<Register> {
    match verdict
    case Accepted(cmd, data1, data2) =>
      if cmd == CMD_STOP || cmd == CMD_SPEED || cmd == CMD_DIRECTION then
        Some(Register(r.mode, Command(cmd, data1, data2)))
      else if cmd == CMD_ACTION_MODE then
        Some(Register(if data1 == 0 then ModeAuto else ModeRemote, r.command.(cmd := CMD_STOP)))
      else
        None
    case _ => None
  }

  /** True of the frames that switch to remote mode. */
  predicate SwitchesToRemote(text: string) {
    var v := Parse(text);
    v.Accepted? && v.cmd == CMD_ACTION_MODE && v.data1 != 0
  }

  // ---- The step machine ----

  /** Where the follow thread is: about to lock follow_mutex, or waiting on follow_cond. */
  datatype Follow = Running | Blocked(signalled: bool)

  /** A command passed to move_of_remote, and which store put it in the register. */
  datatype Executed = Executed(command: Command, at: nat)

  /** The shared state, with the history of the register (initial content first)
      and of the executed commands. */
  datatype Core = Core(register: Register, follow: Follow, stores: seq<Register>, executed: seq<Executed>)

  datatype Step = Receive(text: string) | Pass | Wake

  function Init(): Core {
    var r := Register(ModeNone, Command(CMD_NONE, 0, 0));
    Core(r, Running, [r], [])
  }

  predicate Enabled(c: Core, step: Step) {
    match step
    case Receive(_) => true
    case Pass => c.follow.Running?
    case Wake => c.follow.Blocked?
  }

  /** pthread_cond_signal: wakes a waiter, is lost when there is none. */
  function Signal(f: Follow): Follow {
    if f.Blocked? then Blocked(true) else f
  }

  function Next(c: Core, step: Step): Core
    requires Enabled(c, step) && c.stores != []
    ensures Next(c, step).stores != []
  {
    match step
    case Receive(text) =>
      (match Store(c.register, Parse(text))
       case None => c
       case Some(r) => c.(register := r, follow := Signal(c.follow), stores := c.stores + [r]))
    case Pass =>
      (match c.register.mode
       case ModeRemote =>
         c.(follow := Blocked(false), executed := c.executed + [Executed(c.register.command, |c.stores| - 1)])
       case ModeNone => c.(follow := Blocked(false))
       case ModeAuto => c)
    case Wake => c.(follow := Running)
  }

  predicate Valid(c: Core, steps: seq<Step>)
    requires c.stores != []
    decreases |steps|
  {
    steps == [] || (Enabled(c, steps[0]) && Valid(Next(c, steps[0]), steps[1..]))
  }

  function Final(c: Core, steps: seq<Step>): (r: Core)
    requires c.stores != [] && Valid(c, steps)
    ensures r.stores != []
    decreases |steps|
  {
    if steps == [] then c else Final(Next(c, steps[0]), steps[1..])
  }

  // ---- What every step keeps ----

  /** Consecutive register contents: a motion command keeps the mode; a mode switch
      leaves ModeNone for good and overwrites the command with STOP, keeping its data. */
  predicate Stored(r: Register, s: Register) {
    || (s.mode == r.mode && CMD_STOP <= s.command.cmd <= CMD_DIRECTION)
    || (s.mode != ModeNone && s.command == r.command.(cmd := CMD_STOP))
  }

  ghost predicate History(stores: seq<Register>) {
    && stores != []
    && stores[0] == Init().register
    && (forall i :: 0 < i < |stores| ==> Stored(stores[i - 1], stores[i]))
  }

  /** Each executed command is the one some store put there, and that store left
      the machine in remote mode. */
  ghost predicate FromStores(executed: seq<Executed>, stores: seq<Register>) {
    forall j :: 0 <= j < |executed| ==>
      && executed[j].at < |stores|
      && stores[executed[j].at] == Register(ModeRemote, executed[j].command)
  }

  ghost predicate InOrder(executed: seq<Executed>) {
    forall i, j :: 0 <= i < j < |executed| ==> executed[i].at <= executed[j].at
  }

  /** The newest store has been executed. */
  ghost predicate CaughtUp(c: Core) {
    c.executed != [] && c.stores != [] && c.executed[|c.executed| - 1] == Executed(c.register.command, |c.stores| - 1)
  }

  ghost predicate Inv(c: Core) {
    && History(c.stores)
    && c.stores[|c.stores| - 1] == c.register
    && FromStores(c.executed, c.stores)
    && InOrder(c.executed)
    && (c.follow == Blocked(false) && c.register.mode == ModeRemote ==> CaughtUp(c))
    && (c.follow == Blocked(false) ==> c.register.mode != ModeAuto)
  }

  lemma StoreIsStored(r: Register, verdict: Verdict)
    requires Store(r, verdict).Some?
    ensures Stored(r, Store(r, verdict).value)
  {
  }

  lemma StepKeepsInv(c: Core, step: Step)
    requires Inv(c) && Enabled(c, step)
    ensures Inv(Next(c, step))
  {
    hide Parse;
    var d := Next(c, step);
    if step.Receive? {
      var verdict := Parse(step.text);
      if Store(c.register, verdict).Some? {
        StoreIsStored(c.register, verdict);
        forall j | 0 <= j < |d.executed|
          ensures d.executed[j].at < |d.stores|
          ensures d.stores[d.executed[j].at] == Register(ModeRemote, d.executed[j].command)
        {
          assert d.stores[d.executed[j].at] == c.stores[c.executed[j].at];
        }
      }
    }
  }

  lemma {:induction false} RunKeepsInv(c: Core, steps: seq<Step>)
    requires Inv(c) && Valid(c, steps)
    ensures Inv(Final(c, steps))
    decreases |steps|
  {
    if steps != [] {
      StepKeepsInv(c, steps[0]);
      RunKeepsInv(Next(c, steps[0]), steps[1..]);
    }
  }

  // ---- Whole runs ----

  lemma ReachableHasInv(steps: seq<Step>)
    requires Valid(Init(), steps)
    ensures Inv(Final(Init(), steps))
  {
    RunKeepsInv(Init(), steps);
  }

  /** No lost command: whenever the follow thread waits with no wake pending in
      remote mode, the last command it executed is the register's, from the newest store. */
  lemma NoLostCommand(steps: seq<Step>)
    requires Valid(Init(), steps)
    requires Final(Init(), steps).follow == Blocked(false)
    requires Final(Init(), steps).register.mode == ModeRemote
    ensures CaughtUp(Final(Init(), steps))
  {
    ReachableHasInv(steps);
  }

  /** How the register came to hold the i-th store while the mode is remote: a motion command
      that arrived in remote mode, or the STOP of a mode switch. */
  predicate RemoteOrigin(stores: seq<Register>, i: nat)
    requires 0 < i < |stores|
  {
    || (stores[i - 1].mode == ModeRemote && CMD_STOP <= stores[i].command.cmd <= CMD_DIRECTION)
    || stores[i].command == stores[i - 1].command.(cmd := CMD_STOP)
  }

  /** The executed commands are, in order, contents the register got in remote mode or by
      the switch to it; repeats and gaps are possible, nothing else is. */
  lemma ExecutedFromRemoteStores(steps: seq<Step>)
    requires Valid(Init(), steps)
    ensures var c := Final(Init(), steps);
      && History(c.stores) && FromStores(c.executed, c.stores) && InOrder(c.executed)
      && forall j :: 0 <= j < |c.executed| ==> c.executed[j].at > 0 && RemoteOrigin(c.stores, c.executed[j].at)
  {
    ReachableHasInv(steps);
    var c := Final(Init(), steps);
    forall j | 0 <= j < |c.executed| ensures c.executed[j].at > 0 && RemoteOrigin(c.stores, c.executed[j].at) {
      var i := c.executed[j].at;
      assert c.stores[i].mode == ModeRemote && c.stores[0].mode == ModeNone;
      assert Stored(c.stores[i - 1], c.stores[i]);
    }
  }

  /** A run only adds to the histories, and what it executes is no older than the store
      it started from. */
  lemma {:induction false} LaterExecutions(c: Core, steps: seq<Step>)
    requires c.stores != [] && Valid(c, steps)
    ensures var d := Final(c, steps);
      && c.stores <= d.stores && c.executed <= d.executed
      && forall j :: |c.executed| <= j < |d.executed| ==> d.executed[j].at >= |c.stores| - 1
    decreases |steps|
  {
    if steps != [] {
      hide Parse;
      LaterExecutions(Next(c, steps[0]), steps[1..]);
    }
  }

  /** No stale command across a mode switch: whatever was received, stored or executed
      before, after a mode-switch frame only that switch's STOP and what is stored after it
      is executed, in every continuation; and of that only what arrives in remote mode. */
  lemma NoStaleCommand(before: seq<Step>, text: string, after: seq<Step>)
    requires Valid(Init(), before)
    requires Parse(text).Accepted? && Parse(text).cmd == CMD_ACTION_MODE
    requires Valid(Next(Final(Init(), before), Receive(text)), after)
    ensures var c := Next(Final(Init(), before), Receive(text));
      var d, switched := Final(c, after), |c.stores| - 1;
      && c.stores <= d.stores && c.executed <= d.executed
      && d.stores[switched].command.cmd == CMD_STOP
      && forall j :: |c.executed| <= j < |d.executed| ==>
           var e := d.executed[j];
           && switched <= e.at < |d.stores| && d.stores[e.at] == Register(ModeRemote, e.command)
           && (e.at == switched ==> e.command.cmd == CMD_STOP)
           && (e.at > switched ==> RemoteOrigin(d.stores, e.at))
  {
    ReachableHasInv(before);
    var b := Final(Init(), before);
    var c := Next(b, Receive(text));
    hide Parse;
    StepKeepsInv(b, Receive(text));
    RunKeepsInv(c, after);
    LaterExecutions(c, after);
    var d, switched := Final(c, after), |c.stores| - 1;
    forall j | |c.executed| <= j < |d.executed| && d.executed[j].at > switched
      ensures RemoteOrigin(d.stores, d.executed[j].at)
    {
      var i := d.executed[j].at;
      assert Stored(d.stores[i - 1], d.stores[i]) && d.stores[i].mode == ModeRemote;
    }
  }

  lemma {:induction false} HistoryModes(stores: seq<Register>, i: nat, j: nat)
    requires History(stores) && i <= j < |stores|
    ensures CMD_NONE <= stores[j].command.cmd <= CMD_DIRECTION
    ensures stores[j].mode != ModeNone ==> stores[j].command.cmd != CMD_NONE
    ensures stores[i].mode != ModeNone ==> stores[j].mode != ModeNone
    decreases j
  {
    if j > 0 {
      assert Stored(stores[j - 1], stores[j]);
      HistoryModes(stores, if i < j then i else j - 1, j - 1);
    }
  }

  /** Only STOP, SPEED and DIRECTION are ever executed, so the default branch of
      move_of_remote is unreachable; and once left, ModeNone never returns. */
  lemma OnlyMotionCommands(steps: seq<Step>)
    requires Valid(Init(), steps)
    ensures var c := Final(Init(), steps);
      && CMD_NONE <= c.register.command.cmd <= CMD_DIRECTION
      && (forall j :: 0 <= j < |c.executed| ==> CMD_STOP <= c.executed[j].command.cmd <= CMD_DIRECTION)
      && (forall i, j :: 0 <= i <= j < |c.stores| && c.stores[i].mode != ModeNone ==> c.stores[j].mode != ModeNone)
  {
    ReachableHasInv(steps);
    var c := Final(Init(), steps);
    HistoryModes(c.stores, 0, |c.stores| - 1);
    forall j | 0 <= j < |c.executed| ensures CMD_STOP <= c.executed[j].command.cmd <= CMD_DIRECTION {
      HistoryModes(c.stores, 0, c.executed[j].at);
    }
    forall i, j | 0 <= i <= j < |c.stores| && c.stores[i].mode != ModeNone ensures c.stores[j].mode != ModeNone {
      HistoryModes(c.stores, i, j);
    }
  }

  /** What the follow thread does by itself when no frame arrives: take the pending
      wake-up, if any, and go once through its loop. */
  function Settled(c: Core): Core
    requires c.stores != []
  {
    match c.follow
    case Running => Next(c, Pass)
    case Blocked(true) => Next(Next(c, Wake), Pass)
    case Blocked(false) => c
  }

  /** From every reachable remote-mode state the follow thread, left alone, comes to
      wait with the newest store executed. */
  lemma Settles(steps: seq<Step>)
    requires Valid(Init(), steps)
    requires Final(Init(), steps).register.mode == ModeRemote
    ensures var c := Final(Init(), steps);
      && Settled(c).follow == Blocked(false)
      && Settled(c).register == c.register
      && CaughtUp(Settled(c))
  {
    ReachableHasInv(steps);
  }

  // ---- When the follow thread waits ----

  function Passes(n: nat): seq<Step> {
    if n == 0 then [] else [Pass] + Passes(n - 1)
  }

  /** In auto mode the follow thread goes round without ever waiting, and changes nothing. */
  lemma {:induction false} AutoNeverWaits(c: Core, n: nat)
    requires c.stores != [] && c.follow.Running? && c.register.mode == ModeAuto
    ensures Valid(c, Passes(n)) && Final(c, Passes(n)) == c
    decreases n
  {
    if n > 0 {
      AutoNeverWaits(c, n - 1);
      Unfold(c, Pass, Passes(n - 1));
    }
  }

  /** In the other modes one pass ends in the wait, and a wake-up, signalled or spurious, leads
      to the next pass; so in every reachable state a second pass can follow a first one at
      once exactly when the thread is running and the mode is auto. */
  lemma WhenFollowWaits(before: seq<Step>)
    requires Valid(Init(), before)
    ensures var c := Final(Init(), before);
      && (Valid(c, [Pass, Pass]) <==> c.follow == Running && c.register.mode == ModeAuto)
      && (c.follow == Running && c.register.mode != ModeAuto ==>
           Valid(c, [Pass]) && Final(c, [Pass]).follow == Blocked(false) && Valid(c, [Pass, Wake, Pass]))
      && (c.follow != Running ==> !Valid(c, [Pass]) && Valid(c, [Wake, Pass]))
      && (c.follow == Running ==> Valid(c, [Pass]) && !Valid(c, [Wake]))
      && (c.follow == Blocked(false) ==> c.register.mode != ModeAuto)
  {
    ReachableHasInv(before);
    var c := Final(Init(), before);
    assert [Pass, Pass][1..] == [Pass] && [Wake, Pass][1..] == [Pass] && [Pass, Wake, Pass][1..] == [Wake, Pass];
    assert [Pass][1..] == [];
  }

  /** A stored frame signals a waiting thread; no other frame, and no frame with the thread
      running, changes where it is. */
  lemma OnlyStoresSignal(c: Core, text: string)
    requires c.stores != []
    ensures Next(c, Receive(text)).follow
         == if c.follow != Running && StoresText(text) then Blocked(true) else c.follow
    ensures Next(c, Receive(text)).register != c.register || |Next(c, Receive(text)).stores| > |c.stores|
       ==> StoresText(text)
  {
    hide Parse;
  }

  // ---- What the one-slot register does not do ----

  /** Whether the command of the i-th store has been executed. */
  ghost predicate Ran(executed: seq<Executed>, i: nat) {
    exists j :: 0 <= j < |executed| && executed[j].at == i
  }

  lemma RanExtend(executed: seq<Executed>, e: Executed, i: nat)
    ensures Ran(executed + [e], i) <==> Ran(executed, i) || e.at == i
  {
    if Ran(executed, i) {
      var j :| 0 <= j < |executed| && executed[j].at == i;
      assert (executed + [e])[j].at == i;
    }
    if e.at == i {
      assert (executed + [e])[|executed|].at == i;
    }
  }

  lemma {:induction false} OlderStoresAreDecided(c: Core, steps: seq<Step>, i: nat)
    requires Inv(c) && Valid(c, steps)
    requires i < |c.stores| - 1
    ensures Ran(Final(c, steps).executed, i) <==> Ran(c.executed, i)
    decreases |steps|
  {
    if steps != [] {
      hide Parse;
      StepKeepsInv(c, steps[0]);
      RanExtend(c.executed, Executed(c.register.command, |c.stores| - 1), i);
      OlderStoresAreDecided(Next(c, steps[0]), steps[1..], i);
    }
  }

  /** Exactly which stored commands are executed: once a newer store has replaced a
      command in the register, it is executed in the end if and only if it already has been. */
  lemma OverwrittenCommandsAreLost(before: seq<Step>, after: seq<Step>, i: nat)
    requires Valid(Init(), before) && Valid(Final(Init(), before), after)
    requires i < |Final(Init(), before).stores| - 1
    ensures Ran(Final(Final(Init(), before), after).executed, i) <==> Ran(Final(Init(), before).executed, i)
  {
    ReachableHasInv(before);
    OlderStoresAreDecided(Final(Init(), before), after, i);
  }

  /** The frames that are stored, whatever the register holds. */
  predicate StoresText(text: string) {
    Parse(text).Accepted? && CMD_STOP <= Parse(text).cmd <= CMD_ACTION_MODE
  }

  predicate NoStores(steps: seq<Step>) {
    forall k :: 0 <= k < |steps| && steps[k].Receive? ==> !StoresText(steps[k].text)
  }

  /** Until the next store the register stands, and it has been executed on top of what was
      before exactly when the mode is remote and the follow thread has made a pass. */
  lemma {:induction false} PassesExecute(c: Core, steps: seq<Step>)
    requires c.stores != [] && Valid(c, steps) && NoStores(steps)
    ensures var d, i := Final(c, steps), |c.stores| - 1;
      && d.stores == c.stores && d.register == c.register
      && (Ran(d.executed, i) <==> Ran(c.executed, i) || (c.register.mode == ModeRemote && Pass in steps))
    decreases |steps|
  {
    if steps != [] {
      hide Parse, Ran;
      RanExtend(c.executed, Executed(c.register.command, |c.stores| - 1), |c.stores| - 1);
      assert NoStores(steps[1..]);
      assert steps[0] in steps && (Pass in steps <==> steps[0] == Pass || Pass in steps[1..]);
      PassesExecute(Next(c, steps[0]), steps[1..]);
    }
  }

  /** Exactly when a stored command is executed: a frame is stored, the next one is stored
      after the steps mid, and whatever comes later, the first has been executed in the end
      if and only if it was stored in remote mode and the follow thread passed in mid. */
  lemma ExecutedIffPassInTime(before: seq<Step>, text: string, mid: seq<Step>, newer: string, after: seq<Step>)
    requires Valid(Init(), before) && StoresText(text)
    requires var c := Next(Final(Init(), before), Receive(text));
      && Valid(c, mid) && NoStores(mid)
      && StoresText(newer) && Valid(Next(Final(c, mid), Receive(newer)), after)
    ensures var c := Next(Final(Init(), before), Receive(text));
      Ran(Final(Next(Final(c, mid), Receive(newer)), after).executed, |c.stores| - 1)
      <==> c.register.mode == ModeRemote && Pass in mid
  {
    hide Parse, Ran;
    ReachableHasInv(before);
    var b := Final(Init(), before);
    var c := Next(b, Receive(text));
    StepKeepsInv(b, Receive(text));
    NotYetRan(b);
    PassesExecute(c, mid);
    var d := Final(c, mid);
    RunKeepsInv(c, mid);
    StepKeepsInv(d, Receive(newer));
    OlderStoresAreDecided(Next(d, Receive(newer)), after, |c.stores| - 1);
  }

  lemma NotYetRan(c: Core)
    requires Inv(c)
    ensures !Ran(c.executed, |c.stores|)
  {
  }

  function SpeedFrame(v: int32): string {
    Print(CMD_SPEED, v, 0, Wrap32(CMD_SPEED + v + 0))
  }

  function DirectionFrame(v: int32): string {
    Print(CMD_DIRECTION, v, 0, Wrap32(CMD_DIRECTION + v + 0))
  }

  function StopFrame(): string {
    Print(CMD_STOP, 0, 0, Wrap32(CMD_STOP + 0 + 0))
  }

  function ModeFrame(data1: int32): string {
    Print(CMD_ACTION_MODE, data1, 0, Wrap32(CMD_ACTION_MODE + data1 + 0))
  }

  lemma FrameVerdicts(v: int32)
    ensures Parse(SpeedFrame(v)) == Accepted(CMD_SPEED, v, 0)
    ensures Parse(DirectionFrame(v)) == Accepted(CMD_DIRECTION, v, 0)
    ensures Parse(StopFrame()) == Accepted(CMD_STOP, 0, 0)
    ensures Parse(ModeFrame(v)) == Accepted(CMD_ACTION_MODE, v, 0)
  {
    hide Parse, Print, Wrap32;
    FrameRoundTrip(CMD_SPEED, v, 0, Wrap32(CMD_SPEED + v + 0));
    FrameRoundTrip(CMD_DIRECTION, v, 0, Wrap32(CMD_DIRECTION + v + 0));
    FrameRoundTrip(CMD_STOP, 0, 0, Wrap32(CMD_STOP + 0 + 0));
    FrameRoundTrip(CMD_ACTION_MODE, v, 0, Wrap32(CMD_ACTION_MODE + v + 0));
  }

  /** The frames on the wire, byte by byte. */
  lemma WireFormat()
    ensures StopFrame() == "y1 0 0 1c"
    ensures SpeedFrame(500) == "y2 500 0 502c" && SpeedFrame(-500) == "y2 -500 0 -498c"
    ensures DirectionFrame(15) == "y3 15 0 18c"
    ensures ModeFrame(0) == "y4 0 0 4c" && ModeFrame(1) == "y4 1 0 5c"
  {
    Units();
    Hundreds();
    hide Decimal, Wrap32;
    PrintIs(1, 0, 0, 1);
    PrintIs(2, 500, 0, 502);
    PrintIs(2, -500, 0, -498);
    PrintIs(3, 15, 0, 18);
    PrintIs(4, 0, 0, 4);
    PrintIs(4, 1, 0, 5);
  }

  lemma PrintIs(cmd: int32, data1: int32, data2: int32, sum: int32)
    requires sum == cmd + data1 + data2
    ensures Wrap32(cmd + data1 + data2) == sum
    ensures Print(cmd, data1, data2, Wrap32(cmd + data1 + data2))
         == "y" + Decimal(cmd) + " " + Decimal(data1) + " " + Decimal(data2) + " " + Decimal(sum) + "c"
  {
  }

  lemma Units()
    ensures Decimal(0) == "0" && Decimal(1) == "1" && Decimal(2) == "2" && Decimal(3) == "3" && Decimal(4) == "4"
    ensures Decimal(5) == "5" && Decimal(15) == "15" && Decimal(18) == "18"
  {
    assert Natural(15) == Natural(1) + "5" && Natural(18) == Natural(1) + "8";
  }

  lemma Hundreds()
    ensures Decimal(500) == "500" && Decimal(-500) == "-500" && Decimal(502) == "502" && Decimal(-498) == "-498"
  {
    assert Natural(500) == Natural(50) + "0" && Natural(50) == Natural(5) + "0" && Natural(5) == "5";
    assert Natural(502) == Natural(50) + "2";
    assert Natural(498) == Natural(49) + "8" && Natural(49) == Natural(4) + "9" && Natural(4) == "4";
  }

  /** A SPEED followed at once by a DIRECTION is never executed. */
  lemma SpeedCanBeLost(v: int32, turn: int32)
    ensures var steps := [Receive(ModeFrame(1)), Receive(SpeedFrame(v)), Receive(DirectionFrame(turn)), Pass];
      && Valid(Init(), steps)
      && Final(Init(), steps).executed == [Executed(Command(CMD_DIRECTION, turn, 0), 3)]
      && Final(Init(), steps).follow == Blocked(false)
  {
    hide Parse, Print, Wrap32, SpeedFrame, DirectionFrame, ModeFrame;
    FrameVerdicts(v);
    FrameVerdicts(turn);
    FrameVerdicts(1);
    var steps := [Receive(ModeFrame(1)), Receive(SpeedFrame(v)), Receive(DirectionFrame(turn)), Pass];
    var c1 := Next(Init(), steps[0]);
    var c2 := Next(c1, steps[1]);
    var c3 := Next(c2, steps[2]);
    Unfold(c3, Pass, []);
    Unfold(c2, steps[2], [Pass]);
    Unfold(c1, steps[1], [steps[2], Pass]);
    Unfold(Init(), steps[0], [steps[1], steps[2], Pass]);
    assert steps == [steps[0]] + [steps[1], steps[2], Pass];
  }

  lemma Unfold(c: Core, step: Step, rest: seq<Step>)
    requires c.stores != [] && Enabled(c, step) && Valid(Next(c, step), rest)
    ensures Valid(c, [step] + rest)
    ensures Final(c, [step] + rest) == Final(Next(c, step), rest)
  {
    assert ([step] + rest)[1..] == rest;
  }

  lemma {:induction false} Append(c: Core, steps: seq<Step>, more: seq<Step>)
    requires c.stores != [] && Valid(c, steps) && Valid(Final(c, steps), more)
    ensures Valid(c, steps + more)
    ensures Final(c, steps + more) == Final(Final(c, steps), more)
    decreases |steps|
  {
    hide Parse;
    if steps == [] {
      assert steps + more == more;
    } else {
      Append(Next(c, steps[0]), steps[1..], more);
      assert steps + more == [steps[0]] + (steps[1..] + more);
      Unfold(c, steps[0], steps[1..] + more);
    }
  }

  /** Outside remote mode nothing is executed, however many frames arrive, until one
      switches to it. In particular a STOP received in auto mode, or any command received
      before the first mode switch, has no effect, and the switch to auto mode itself leaves
      the vehicle as it was. */
  lemma {:induction false} OnlyRemoteExecutes(c: Core, steps: seq<Step>)
    requires c.stores != [] && c.register.mode != ModeRemote && Valid(c, steps)
    requires forall k :: 0 <= k < |steps| && steps[k].Receive? ==> !SwitchesToRemote(steps[k].text)
    ensures Final(c, steps).executed == c.executed
    ensures Final(c, steps).register.mode != ModeRemote
    decreases |steps|
  {
    if steps != [] {
      hide Parse;
      OnlyRemoteExecutes(Next(c, steps[0]), steps[1..]);
    }
  }

  /** A store in remote mode, or one that switches to it, is what the settled follow
      thread has executed last, and all it has executed on top. */
  lemma SettledAfterStore(c: Core, text: string)
    requires Inv(c)
    requires Store(c.register, Parse(text)).Some?
    ensures var r, d := Store(c.register, Parse(text)).value, Next(c, Receive(text));
      && d.register == r
      && Settled(d).executed == c.executed + (if r.mode == ModeRemote then [Executed(r.command, |c.stores|)] else [])
  {
    hide Parse;
    var d := Next(c, Receive(text));
    assert d.follow != Blocked(false);
  }

  /** After a mode switch the follow thread stops the vehicle exactly when the new
      mode is remote (data1 != 0). */
  lemma ModeSwitchStops(before: seq<Step>, text: string)
    requires Valid(Init(), before)
    requires Parse(text).Accepted? && Parse(text).cmd == CMD_ACTION_MODE
    ensures var c := Next(Final(Init(), before), Receive(text));
      var stop := c.register.command;
      && stop.cmd == CMD_STOP
      && Settled(c).executed == c.executed + (if Parse(text).data1 != 0 then [Executed(stop, |c.stores| - 1)] else [])
  {
    hide Parse, Settled;
    ReachableHasInv(before);
    SettledAfterStore(Final(Init(), before), text);
  }
}
