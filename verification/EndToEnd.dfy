/** From the bytes of a remote command to the waveforms on the motor and servo pins, over
    timed runs of the whole machine from boot on. */
module EndToEnd {
  import opened CTypes
  import opened Frames
  import opened CommandCore
  import opened SoftPwm
  import opened Waveform
  import opened Actuators
  import opened Stroller
  import opened Machine

  // ---- A channel that no device call disturbs ----

  /** Nothing in the run but its own timer changes the channel. */
  predicate Undisturbed(m: State, run: seq<Tick>, part: Part)
    requires m.core.stores != [] && Machine.Valid(m, run)
    decreases |run|
  {
    if run == [] then true
    else
      var n := Machine.Next(m, run[0]);
      && (!run[0].what.Expires? ==> PwmOf(n.vehicle, part) == PwmOf(m.vehicle, part))
      && Undisturbed(n, run[1..], part)
  }

  /** How often the timer of a channel expires in a run. */
  function Expiries(run: seq<Tick>, part: Part): nat {
    if run == [] then 0 else (if run[0].what == Expires(part) then 1 else 0) + Expiries(run[1..], part)
  }

  lemma PwmAfterTick(m: State, tick: Tick, part: Part)
    requires m.core.stores != [] && Machine.Enabled(m, tick)
    requires !tick.what.Expires? ==> PwmOf(Machine.Next(m, tick).vehicle, part) == PwmOf(m.vehicle, part)
    ensures var p, q := PwmOf(m.vehicle, part), PwmOf(Machine.Next(m, tick).vehicle, part);
      if tick.what == Expires(part) then p.expiry == Some(tick.at) && q == Fire(p) else q == p
    ensures NotOverdue(PwmOf(m.vehicle, part), tick.at)
  {
  }

  lemma SoundTicks(m: State, part: Part)
    requires Sound(m)
    ensures m.core.stores != []
    ensures Ticking(PwmOf(m.vehicle, part), PeriodOf(part), m.now)
  {
  }

  /** Seen through the machine, whatever else happens in it, an undisturbed channel is the
      channel of Waveform after as many firings as its timer has expired. */
  lemma {:induction false} ChannelFires(m: State, run: seq<Tick>, part: Part)
    requires Sound(m) && Machine.Valid(m, run) && Undisturbed(m, run, part)
    ensures var p, d, k := PwmOf(m.vehicle, part), Machine.Final(m, run), Expiries(run, part);
      && Cycling(p) && PwmOf(d.vehicle, part) == Fires(p, k)
      && m.now <= d.now
      && (k > 0 ==> Fires(p, k - 1).expiry.value <= d.now)
    decreases |run|
  {
    hide Sound, Machine.Next, Machine.Enabled, Fire, Cycling;
    SoundTicks(m, part);
    var p := PwmOf(m.vehicle, part);
    if run != [] {
      var tick, rest := run[0], run[1..];
      TickKeepsSound(m, tick);
      TickTime(m, tick);
      PwmAfterTick(m, tick, part);
      ChannelFires(Machine.Next(m, tick), rest, part);
      if tick.what == Expires(part) {
        FireExact(p);
        var k := Expiries(rest, part);
        assert Fires(p, 1) == Fire(Fires(p, 0));
        FiresAdd(p, 1, k);
        if k > 0 {
          FiresAdd(p, 1, k - 1);
        }
      }
    }
  }

  lemma TickTime(m: State, tick: Tick)
    requires m.core.stores != [] && Machine.Enabled(m, tick)
    ensures Machine.Next(m, tick).now == tick.at >= m.now
  {
  }

  /** The pin of an undisturbed channel, at any instant t from its next rising edge on, in
      the state of the machine at t. */
  lemma UndisturbedPin(m: State, run: seq<Tick>, part: Part, t: int)
    requires Sound(m) && Machine.Valid(m, run) && Undisturbed(m, run, part)
    requires Cycling(PwmOf(m.vehicle, part))
    requires var d := Machine.Final(m, run); d.now <= t && !Due(d, part, t)
    requires NextRise(PwmOf(m.vehicle, part)) <= t
    ensures var p := PwmOf(m.vehicle, part);
      PwmOf(Machine.Final(m, run).vehicle, part).pin <==> Ideal(t - NextRise(p), p.duty, p.period)
  {
    hide Sound, Fires, Undisturbed, NextRise, Ideal;
    ChannelFires(m, run, part);
    RefinesIdeal(PwmOf(m.vehicle, part), Expiries(run, part), t);
  }

  /** The timer of a channel is due by t. */
  predicate Due(m: State, part: Part, t: int) {
    var p := PwmOf(m.vehicle, part);
    p.expiry.Some? && p.expiry.value <= t
  }

  // ---- High time ----

  /** The time a pin is high from the state m until t, along a run. */
  function HighDuring(m: State, run: seq<Tick>, part: Part, t: int): int
    requires m.core.stores != [] && Machine.Valid(m, run)
    decreases |run|
  {
    if run == [] then (if PwmOf(m.vehicle, part).pin then t - m.now else 0)
    else
      (if PwmOf(m.vehicle, part).pin then run[0].at - m.now else 0)
      + HighDuring(Machine.Next(m, run[0]), run[1..], part, t)
  }

  lemma HighAcrossFiring(p: Pwm, rise: int, k: nat)
    requires JustRisen(p, rise)
    ensures HighUntil(p, rise, k, Fires(p, k).expiry.value) == HighUntil(p, rise, k + 1, Fires(p, k).expiry.value)
  {
  }

  lemma HighLinear(p: Pwm, rise: int, k: nat, t: int, u: int)
    requires JustRisen(p, rise)
    ensures HighUntil(p, rise, k, u) == HighUntil(p, rise, k, t) + (if Fires(p, k).pin then u - t else 0)
  {
  }

  /** Along an undisturbed run the high time adds up to that of Waveform. */
  lemma {:induction false} HighAddsUp(p: Pwm, rise: int, k: nat, m: State, run: seq<Tick>, part: Part, t: int)
    requires JustRisen(p, rise) && Sound(m) && PwmOf(m.vehicle, part) == Fires(p, k)
    requires Machine.Valid(m, run) && Undisturbed(m, run, part)
    ensures HighUntil(p, rise, k, m.now) + HighDuring(m, run, part, t) == HighUntil(p, rise, k + Expiries(run, part), t)
    decreases |run|
  {
    hide Sound, Machine.Next, Machine.Enabled, Fire, Cycling, HighUntil;
    if run == [] {
      HighLinear(p, rise, k, m.now, t);
    } else {
      var tick, rest := run[0], run[1..];
      SoundTicks(m, part);
      TickKeepsSound(m, tick);
      TickTime(m, tick);
      PwmAfterTick(m, tick, part);
      HighLinear(p, rise, k, m.now, tick.at);
      if tick.what == Expires(part) {
        HighAcrossFiring(p, rise, k);
        HighAddsUp(p, rise, k + 1, Machine.Next(m, tick), rest, part, t);
      } else {
        HighAddsUp(p, rise, k, Machine.Next(m, tick), rest, part, t);
      }
    }
  }

  /** The pin of an undisturbed channel in any window of time from its next rising edge on: from
      the instant where the run wait ends, until t, it is high for exactly as long as an
      ideal PWM. */
  lemma UndisturbedHighTime(m: State, wait: seq<Tick>, after: seq<Tick>, part: Part, t: int)
    requires Sound(m) && Window(m, wait, after, part, t)
    requires Undisturbed(m, wait, part) && Undisturbed(Machine.Final(m, wait), after, part)
    ensures var p, e := PwmOf(m.vehicle, part), Machine.Final(m, wait);
      HighDuring(e, after, part, t) == HighBetween(p, NextRise(p), e.now, t)
  {
    hide Sound, Fires, Undisturbed, HighUntil, Machine.Valid, Machine.Final, HighDuring, Cycling, NextRise, HighOfIdeal;
    SoundHasStores(m);
    var p, e := PwmOf(m.vehicle, part), Machine.Final(m, wait);
    var k, more := Expiries(wait, part), Expiries(after, part);
    var j, rise := ToRise(p), NextRise(p);
    var q := Fires(p, j);
    RunKeepsSound(m, wait);
    ChannelFires(m, wait, part);
    ChannelFires(e, after, part);
    CyclingBounds(Fires(p, k));
    CyclingBounds(Fires(Fires(p, k), more));
    ReachesRise(p);
    SeenAfterRise(p, k, e.now);
    FiresAdd(p, j, k - j);
    SeenLater(q, k - j, more, e.now, t);
    HighAddsUp(q, rise, k - j, e, after, part, t);
    HighTime(q, rise, k - j, e.now);
    HighTime(q, rise, k - j + more, t);
  }

  /** What is due by e has happened after k firings, and what is due by t after more of them. */
  lemma SeenLater(q: Pwm, k: nat, more: nat, e: int, t: int)
    requires Cycling(q) && SeenAt(q, k, e) && e <= t
    requires more > 0 ==> Fires(Fires(q, k), more - 1).expiry.value <= t
    requires t < Fires(Fires(q, k), more).expiry.value
    ensures SeenAt(q, k + more, t)
  {
    hide Fires;
    FiresAdd(q, k, more);
    if more > 0 {
      FiresAdd(q, k, more - 1);
    }
  }

  /** The high time of a channel, from an instant at or after its rising edge to a later one. */
  function HighBetween(p: Pwm, rise: int, from: int, to: int): int
    requires p.period > 0 && rise <= from && rise <= to
  {
    HighOfIdeal(to - rise, p.duty, p.period) - HighOfIdeal(from - rise, p.duty, p.period)
  }

  /** A run wait up to an instant at or after the channel's next rising edge, and a run on from
      there until t, at both instants with everything done that is due on the channel. */
  predicate Window(m: State, wait: seq<Tick>, after: seq<Tick>, part: Part, t: int)
    requires m.core.stores != []
  {
    && Machine.Valid(m, wait)
    && var e := Machine.Final(m, wait);
    && Machine.Valid(e, after)
    && Cycling(PwmOf(m.vehicle, part)) && NextRise(PwmOf(m.vehicle, part)) <= e.now && !Due(e, part, e.now)
    && e.now <= t && Machine.Final(e, after).now <= t && !Due(Machine.Final(e, after), part, t)
  }

  // ---- Which commands disturb which channel ----

  /** The command leaves the channel alone: for a motor with this duty it asks for no speed, for
      this magnitude in either direction, or for one out of range; for the servo it is no
      turn in range. */
  predicate Harmless(c: Command, part: Part, duty: nat) {
    if part == Steering then !Turns(c)
    else match AskedSpeed(c) case None => true case Some(x) => Abs(x) == duty || Abs(x) > SPEED_MAX
  }

  predicate AllHarmless(executed: seq<Executed>, from: nat, part: Part, duty: nat) {
    forall j :: from <= j < |executed| ==> Harmless(executed[j].command, part, duty)
  }

  /** Where the executed commands begin that are not finished yet. */
  function Unfinished(m: State): nat {
    if m.stage.Idle? || m.core.executed == [] then |m.core.executed| else |m.core.executed| - 1
  }

  lemma {:induction false} ExecutedGrows(m: State, run: seq<Tick>)
    requires m.core.stores != [] && Machine.Valid(m, run)
    ensures m.core.executed <= Machine.Final(m, run).core.executed
    decreases |run|
  {
    if run != [] {
      hide Machine.Next, Machine.Enabled;
      OneTickGrows(m, run[0]);
      ExecutedGrows(Machine.Next(m, run[0]), run[1..]);
    }
  }

  lemma OneTickGrows(m: State, tick: Tick)
    requires m.core.stores != [] && Machine.Enabled(m, tick)
    ensures m.core.executed <= Machine.Next(m, tick).core.executed
    ensures Unfinished(m) <= Unfinished(Machine.Next(m, tick))
  {
    hide Parse, Act, Begin, Fire;
  }

  /** One device call, or the start of a command, with a harmless command in execution. */
  lemma ActHarmless(w: Work, executed: seq<Executed>, now: int, ok: bool, part: Part)
    requires VehicleSound(w.vehicle, now) && StageFits(w.stage, executed)
    requires !w.stage.Idle? ==> Harmless(executed[|executed| - 1].command, part, PwmOf(w.vehicle, part).duty)
    ensures PwmOf(Act(w, now, ok).vehicle, part) == PwmOf(w.vehicle, part)
  {
    hide Cycling;
    match w.stage
    case SetLeft(x) => MagnitudeOfInt(x);
    case SetRight(x, _) => MagnitudeOfInt(x);
    case _ =>
  }

  lemma TickHarmless(m: State, tick: Tick, part: Part)
    requires Sound(m) && Machine.Enabled(m, tick)
    requires AllHarmless(m.core.executed, Unfinished(m), part, PwmOf(m.vehicle, part).duty)
    ensures var p, q := PwmOf(m.vehicle, part), PwmOf(Machine.Next(m, tick).vehicle, part);
      q.duty == p.duty && (!tick.what.Expires? ==> q == p)
  {
    hide Parse, CommandCore.Inv, Cycling, Act, Harmless;
    assert VehicleSound(m.vehicle, tick.at);
    match tick.what
    case ThreadStep(step) => BeginKeepsSettings(m.vehicle, m.core.register.command);
    case DeviceCall(ok) => ActHarmless(Work(m.vehicle, m.stage), m.core.executed, tick.at, ok, part);
    case Expires(_) =>
  }

  /** While every command executed, and the one in execution, is harmless to the channel, it is
      undisturbed, whichever device calls fail. */
  lemma {:induction false} HarmlessIsUndisturbed(m: State, run: seq<Tick>, part: Part)
    requires Sound(m) && Machine.Valid(m, run)
    requires AllHarmless(Machine.Final(m, run).core.executed, Unfinished(m), part, PwmOf(m.vehicle, part).duty)
    ensures Undisturbed(m, run, part)
    ensures var d := Machine.Final(m, run);
      PwmOf(d.vehicle, part).duty == PwmOf(m.vehicle, part).duty && Unfinished(m) <= Unfinished(d)
    decreases |run|
  {
    if run != [] {
      hide Sound, Machine.Next, Machine.Enabled, AllHarmless, Unfinished;
      var tick, rest, duty := run[0], run[1..], PwmOf(m.vehicle, part).duty;
      SoundHasStores(m);
      var n := Machine.Next(m, tick);
      TickKeepsSound(m, tick);
      OneTickGrows(m, tick);
      ExecutedGrows(m, run);
      SplitHarmless(Machine.Final(m, run).core.executed, m.core.executed, Unfinished(m), Unfinished(n), part, duty);
      TickHarmless(m, tick, part);
      HarmlessIsUndisturbed(n, rest, part);
    }
  }

  lemma SplitHarmless(executed: seq<Executed>, init: seq<Executed>, from: nat, later: nat, part: Part, duty: nat)
    requires init <= executed && from <= later && AllHarmless(executed, from, part, duty)
    ensures AllHarmless(init, from, part, duty)
    ensures AllHarmless(executed, later, part, duty)
  {
    assert forall j :: from <= j < |init| ==> init[j] == executed[j];
  }

  // ---- The waveforms ----

  /** The duty, in microseconds, that the executed commands give a channel. */
  function TargetDuty(executed: seq<Executed>, part: Part): nat {
    if part == Steering then PulseOf(LastTurn(executed) as real + 90.0) else Abs(LastSpeed(executed))
  }

  /** From boot to the pins: in every state reachable with working calls, with no command in
      execution, and every run from there without a command that bears on the channel, its
      pin is, at every instant t from the next rising edge on, high exactly when an ideal PWM
      of the duty is that the executed commands ask for. */
  lemma PinsFollowCommands(m: State, after: seq<Tick>, part: Part, t: int)
    requires ReachableWorking(m) && m.stage.Idle? && Machine.Valid(m, after)
    requires var d := Machine.Final(m, after);
      && AllHarmless(d.core.executed, |m.core.executed|, part, TargetDuty(m.core.executed, part))
      && d.now <= t && !Due(d, part, t)
    ensures var p := PwmOf(m.vehicle, part);
      && Cycling(p)
      && (NextRise(p) <= t ==>
           (PwmOf(Machine.Final(m, after).vehicle, part).pin
            <==> (t - NextRise(p)) % (PeriodOf(part) * 1000) < TargetDuty(m.core.executed, part) * 1000))
  {
    hide ReachableWorking, Sound, WillFollow, Follows, Machine.Final, Machine.Valid, NextRise, TargetDuty;
    hide AllHarmless, Due, Cycling;
    VehicleFollows(m);
    ReachableIsSound(m);
    TargetIsDuty(m, part);
    HarmlessIsUndisturbed(m, after, part);
    SoundTicks(m, part);
    if NextRise(PwmOf(m.vehicle, part)) <= t {
      UndisturbedPin(m, after, part, t);
      IdealMeans(t - NextRise(PwmOf(m.vehicle, part)), TargetDuty(m.core.executed, part), PeriodOf(part));
    }
  }

  lemma IdealMeans(x: nat, duty: nat, period: nat)
    requires period > 0
    ensures Ideal(x, duty, period) <==> x % (period * 1000) < duty * 1000
  {
  }

  lemma TargetIsDuty(m: State, part: Part)
    requires Sound(m) && Follows(m.vehicle, m.core.executed)
    ensures PwmOf(m.vehicle, part).duty == TargetDuty(m.core.executed, part)
  {
    hide Cycling, CommandCore.Inv;
  }

  /** High time: in any window of time from the next rising edge on, and without a command that
      bears on the channel, its pin is high for exactly as long as an ideal PWM of the duty
      the executed commands ask for. */
  lemma HighTimeFollowsCommands(m: State, wait: seq<Tick>, after: seq<Tick>, part: Part, t: int)
    requires ReachableWorking(m) && m.stage.Idle? && Window(m, wait, after, part, t)
    requires var executed := Machine.Final(Machine.Final(m, wait), after).core.executed;
      AllHarmless(executed, |m.core.executed|, part, TargetDuty(m.core.executed, part))
    ensures var rise, from := NextRise(PwmOf(m.vehicle, part)), Machine.Final(m, wait).now;
      var duty, period := TargetDuty(m.core.executed, part), PeriodOf(part);
      HighDuring(Machine.Final(m, wait), after, part, t)
      == HighOfIdeal(t - rise, duty, period) - HighOfIdeal(from - rise, duty, period)
  {
    hide ReachableWorking, Sound, WillFollow, Follows, Machine.Final, Machine.Valid, TargetDuty, HighDuring;
    hide HighOfIdeal, AllHarmless, Due, NextRise, Cycling, Unfinished;
    VehicleFollows(m);
    ReachableIsSound(m);
    TargetIsDuty(m, part);
    SoundTicks(m, part);
    UnfinishedIdle(m);
    var e, from, duty := Machine.Final(m, wait), |m.core.executed|, PwmOf(m.vehicle, part).duty;
    var executed := Machine.Final(e, after).core.executed;
    RunKeepsSound(m, wait);
    ExecutedGrows(e, after);
    SplitHarmless(executed, e.core.executed, from, from, part, duty);
    HarmlessIsUndisturbed(m, wait, part);
    SplitHarmless(executed, e.core.executed, from, Unfinished(e), part, duty);
    HarmlessIsUndisturbed(e, after, part);
    UndisturbedHighTime(m, wait, after, part, t);
  }

  lemma UnfinishedIdle(m: State)
    requires m.stage.Idle?
    ensures Unfinished(m) == |m.core.executed|
  {
  }

  // ---- From a frame to the executed commands ----

  predicate NoFrames(run: seq<Tick>) {
    forall i :: 0 <= i < |run| && run[i].what.ThreadStep? ==> !run[i].what.step.Receive?
  }

  /** While no frame comes the register stands, and only its command is executed. */
  lemma {:induction false} OnlyRegisterExecuted(m: State, run: seq<Tick>)
    requires m.core.stores != [] && Machine.Valid(m, run) && NoFrames(run)
    ensures var d := Machine.Final(m, run);
      && d.core.register == m.core.register && d.core.stores == m.core.stores
      && m.core.executed <= d.core.executed
      && forall j :: |m.core.executed| <= j < |d.core.executed| ==>
           d.core.executed[j].command == m.core.register.command
    decreases |run|
  {
    if run != [] {
      hide Act, Begin, Fire;
      assert NoFrames(run[1..]);
      OnlyRegisterExecuted(Machine.Next(m, run[0]), run[1..]);
    }
  }

  /** The text arrives in remote mode with no command in execution, and with no other frame the
      follow thread comes to wait. */
  predicate Served(m: State, receive: Tick, text: string, settle: seq<Tick>)
    requires m.core.stores != []
  {
    && m.core.register.mode == ModeRemote
    && Machine.Enabled(m, receive) && receive.what.ThreadStep? && receive.what.step == Receive(text)
    && Machine.Valid(Machine.Next(m, receive), settle) && NoFrames(settle)
    && ServedState(m, receive, settle).core.follow == Blocked(false) && ServedState(m, receive, settle).stage.Idle?
  }

  function ServedState(m: State, receive: Tick, settle: seq<Tick>): (d: State)
    requires m.core.stores != [] && Machine.Enabled(m, receive) && Machine.Valid(Machine.Next(m, receive), settle)
    ensures d.core.stores != []
  {
    Machine.Final(Machine.Next(m, receive), settle)
  }

  /** A command frame received in remote mode is the one command executed, at least once, by
      the time the follow thread waits again, if no other frame comes. */
  lemma FrameIsExecuted(m: State, receive: Tick, text: string, settle: seq<Tick>)
    requires Reachable(m)
    requires Parse(text).Accepted? && 1 <= Parse(text).cmd <= 3
    requires Served(m, receive, text, settle)
    ensures var d, c := ServedState(m, receive, settle), Command(Parse(text).cmd, Parse(text).data1, Parse(text).data2);
      && d.core.register == Register(ModeRemote, c)
      && m.core.executed < d.core.executed
      && forall j :: |m.core.executed| <= j < |d.core.executed| ==> d.core.executed[j].command == c
  {
    hide Reachable, Parse, Machine.Final, Machine.Valid;
    ReachableIsSound(m);
    TickKeepsSound(m, receive);
    var n := Machine.Next(m, receive);
    RunKeepsSound(n, settle);
    OnlyRegisterExecuted(n, settle);
    var d := Machine.Final(n, settle);
    assert n.core.executed == m.core.executed && |n.core.stores| == |m.core.stores| + 1;
    assert CaughtUp(d.core);
    OlderExecutions(m);
  }

  lemma OlderExecutions(m: State)
    requires Sound(m)
    ensures forall j :: 0 <= j < |m.core.executed| ==> m.core.executed[j].at < |m.core.stores|
  {
  }

  /** What a history comes to whose last entries are all the same command. */
  lemma {:induction false} SameCommandTail(executed: seq<Executed>, from: nat, c: Command)
    requires from < |executed|
    requires forall j :: from <= j < |executed| ==> executed[j].command == c
    ensures AskedSpeed(c).Some? ==> LastRequest(executed) == AskedSpeed(c).value
    ensures LastSpeed(executed) ==
      (match AskedSpeed(c) case None => LastSpeed(executed[..from])
       case Some(x) => if Abs(x) <= SPEED_MAX then x else LastSpeed(executed[..from]))
    ensures LastTurn(executed) == if Turns(c) then c.data1 else LastTurn(executed[..from])
  {
    var n := |executed| - 1;
    if from < n {
      SameCommandTail(executed[..n], from, c);
      assert executed[..n][..from] == executed[..from];
    }
  }

  /** The text of a frame that passes, with this command and first datum. */
  predicate Says(text: string, cmd: int32, x: int32) {
    Parse(text).Accepted? && Parse(text).cmd == cmd && Parse(text).data1 == x
  }

  /** A SPEED frame, received in any reachable remote-mode state: once the follow thread waits
      again, the last request is x and the wheels' speed is x, or if x is out of range the
      one before; turns are untouched. */
  lemma SpeedFrameTakesEffect(m: State, receive: Tick, text: string, settle: seq<Tick>, x: int32)
    requires Reachable(m)
    requires Says(text, 2, x) && Served(m, receive, text, settle)
    ensures var executed := ServedState(m, receive, settle).core.executed;
      && LastRequest(executed) == x
      && LastSpeed(executed) == (if Abs(x) <= 2000 then x else LastSpeed(m.core.executed))
      && LastTurn(executed) == LastTurn(m.core.executed)
  {
    hide Reachable, Parse, ServedState, Machine.Final, Machine.Valid, Machine.Next, Machine.Enabled;
    FrameIsExecuted(m, receive, text, settle);
    var executed := ServedState(m, receive, settle).core.executed;
    SameCommandTail(executed, |m.core.executed|, Command(CMD_SPEED, x, Parse(text).data2));
    assert executed[..|m.core.executed|] == m.core.executed;
  }

  /** The same for a DIRECTION frame and the last turn. */
  lemma DirectionFrameTakesEffect(m: State, receive: Tick, text: string, settle: seq<Tick>, x: int32)
    requires Reachable(m)
    requires Says(text, 3, x) && Served(m, receive, text, settle)
    ensures var executed := ServedState(m, receive, settle).core.executed;
      && LastTurn(executed) == (if Abs(x) < 40 then x else LastTurn(m.core.executed))
      && LastSpeed(executed) == LastSpeed(m.core.executed)
  {
    hide Reachable, Parse, ServedState, Machine.Final, Machine.Valid, Machine.Next, Machine.Enabled;
    FrameIsExecuted(m, receive, text, settle);
    var executed := ServedState(m, receive, settle).core.executed;
    SameCommandTail(executed, |m.core.executed|, Command(CMD_DIRECTION, x, Parse(text).data2));
    assert executed[..|m.core.executed|] == m.core.executed;
  }

  // ---- From a frame to the pins ----

  lemma ServedIsReachable(m: State, receive: Tick, text: string, settle: seq<Tick>)
    requires ReachableWorking(m) && Served(m, receive, text, settle) && AllWork(settle)
    ensures ReachableWorking(ServedState(m, receive, settle))
  {
    hide ReachableWorking, Machine.Next, Machine.Enabled;
    Machine.Unfold(m, receive, settle);
    StaysReachable(m, [receive] + settle);
  }

  /** The text is served with working calls, and time then passes to t with no other frame. */
  predicate ServedUntil(m: State, receive: Tick, text: string, settle: seq<Tick>, after: seq<Tick>, t: int)
    requires m.core.stores != []
  {
    && Served(m, receive, text, settle) && AllWork(settle)
    && var d := ServedState(m, receive, settle);
    && Machine.Valid(d, after) && AllWork(after) && NoFrames(after)
    && var e := Machine.Final(d, after);
    && e.now <= t && !Due(e, LeftWheel, t) && !Due(e, RightWheel, t) && !Due(e, Steering, t)
  }

  /** From every reachable remote-mode state with no command in execution a command frame can be
      served at once, and time can then pass to any later t with no further frame. */
  lemma CanServe(m: State, text: string, t: int)
    requires Machine.Reachable(m) && m.stage.Idle? && m.core.register.mode == ModeRemote && m.now <= t
    requires Parse(text).Accepted? && 1 <= Parse(text).cmd <= 3
    ensures exists receive, settle, after :: ServedUntil(m, receive, text, settle, after, t)
  {
    hide Parse, Sound, Machine.Reachable, Machine.Enabled, Machine.Next, Machine.Valid, Machine.Final;
    ReachableIsSound(m);
    var receive := Tick(m.now, ThreadStep(Receive(text)));
    ReceivedNow(m, receive, text);
    TickKeepsSound(m, receive);
    var n := Machine.Next(m, receive);
    var settle := CanSettle(n);
    RunKeepsSound(n, settle);
    var after := TimePasses(Machine.Final(n, settle), t);
    assert ServedUntil(m, receive, text, settle, after, t);
  }

  lemma ReceivedNow(m: State, receive: Tick, text: string)
    requires Sound(m) && m.stage.Idle? && m.core.register.mode == ModeRemote && m.core.stores != []
    requires Parse(text).Accepted? && Parse(text).cmd != 4
    requires receive == Tick(m.now, ThreadStep(Receive(text)))
    ensures Machine.Enabled(m, receive)
    ensures Machine.Next(m, receive).now == m.now && Machine.Next(m, receive).core.register.mode == ModeRemote
  {
    hide Parse;
  }

  /** While no frame comes after a served SPEED x in range, only that command is executed. */
  lemma OnlyThisSpeed(m: State, receive: Tick, text: string, settle: seq<Tick>, x: int32, after: seq<Tick>, part: Part)
    requires Machine.Reachable(m) && Says(text, 2, x) && Abs(x) <= 2000 && part != Steering
    requires Served(m, receive, text, settle)
    requires Machine.Valid(ServedState(m, receive, settle), after) && NoFrames(after)
    ensures var d := ServedState(m, receive, settle);
      var executed := Machine.Final(d, after).core.executed;
      && TargetDuty(d.core.executed, part) == Abs(x)
      && AllHarmless(executed, |d.core.executed|, part, Abs(x))
      && LastRequest(executed) == x
  {
    hide ServedState, Parse, Machine.Final, Machine.Valid, LastSpeed, LastRequest;
    var d := ServedState(m, receive, settle);
    FrameIsExecuted(m, receive, text, settle);
    SpeedFrameTakesEffect(m, receive, text, settle, x);
    OnlyRegisterExecuted(d, after);
    var c := Command(CMD_SPEED, x, Parse(text).data2);
    SameCommandTail(Machine.Final(d, after).core.executed, |m.core.executed|, c);
  }

  /** No channel is more than two periods from its next rising edge. */
  lemma RiseIsNear(m: State, part: Part)
    requires Sound(m)
    ensures Cycling(PwmOf(m.vehicle, part))
    ensures NextRise(PwmOf(m.vehicle, part)) <= m.now + 2 * (PeriodOf(part) * 1000)
  {
  }

  lemma PulseOfTurn(x: int32)
    requires Abs(x) < 40
    ensures PulseOf(x as real + 90.0) == 1500 + x * 100 / 9
    ensures 1055 <= PulseOf(x as real + 90.0) <= 1944
  {
    var exact := (x as real + 90.0 - 45.0) / 90.0 * 1000.0 + 1000.0;
    var n := 1500 + x * 100 / 9;
    assert exact == 1500.0 + x as real * 100.0 / 9.0;
    assert n as real <= exact < n as real + 1.0;
  }

  lemma SoundPins(m: State)
    requires Sound(m)
    ensures var forward := LastRequest(m.core.executed) > 0;
      m.vehicle.leftPins == m.vehicle.rightPins == Bridge(forward, !forward)
  {
  }

  /** From a SPEED frame to the wheels: for as long as no other frame comes, at every instant
      t from the next rising edge on, the PWM pin of either motor is high exactly as an
      ideal PWM of abs(x) us in 2000 us; that edge is at most 4 ms away, and both bridges
      drive in the direction of x. */
  lemma SpeedFrameOnPins(m: State, receive: Tick, text: string, settle: seq<Tick>, x: int32,
                         after: seq<Tick>, part: Part, t: int)
    requires ReachableWorking(m)
    requires Says(text, 2, x) && Abs(x) <= 2000 && part != Steering
    requires Served(m, receive, text, settle) && AllWork(settle)
    requires Machine.Valid(ServedState(m, receive, settle), after) && NoFrames(after)
    requires var e := Machine.Final(ServedState(m, receive, settle), after); e.now <= t && !Due(e, part, t)
    ensures var d := ServedState(m, receive, settle);
      var e, p := Machine.Final(d, after), PwmOf(d.vehicle, part);
      && e.vehicle.leftPins == e.vehicle.rightPins == Bridge(x > 0, x <= 0)
      && Cycling(p) && NextRise(p) <= d.now + 4_000_000
      && (NextRise(p) <= t ==> (PwmOf(e.vehicle, part).pin <==> (t - NextRise(p)) % 2_000_000 < Abs(x) * 1000))
  {
    hide ReachableWorking, Machine.Reachable, WillFollow, ServedState, Parse, Machine.Final, Machine.Valid, NextRise;
    hide Due, Cycling, TargetDuty, AllHarmless, Sound, LastRequest;
    VehicleFollows(m);
    ServedIsReachable(m, receive, text, settle);
    OnlyThisSpeed(m, receive, text, settle, x, after, part);
    var d := ServedState(m, receive, settle);
    PinsFollowCommands(d, after, part, t);
    VehicleFollows(d);
    ReachableIsSound(d);
    RunKeepsSound(d, after);
    SoundPins(Machine.Final(d, after));
    RiseIsNear(d, part);
  }

  /** From a SPEED frame to the high time: for as long as no other frame comes, in any window of
      time from the next rising edge on, the PWM pin of either motor is high exactly as long
      as an ideal PWM of abs(x) us in 2000 us; if the window is n whole periods, n times
      abs(x) us. At 2000 and -2000 the pin is high throughout, at 0 never. */
  lemma SpeedFrameHighTime(m: State, receive: Tick, text: string, settle: seq<Tick>, x: int32,
                           wait: seq<Tick>, after: seq<Tick>, part: Part, t: int)
    requires ReachableWorking(m)
    requires Says(text, 2, x) && Abs(x) <= 2000 && part != Steering
    requires Served(m, receive, text, settle) && AllWork(settle)
    requires Window(ServedState(m, receive, settle), wait, after, part, t) && NoFrames(wait) && NoFrames(after)
    ensures var d := ServedState(m, receive, settle);
      var e, rise := Machine.Final(d, wait), NextRise(PwmOf(d.vehicle, part));
      && HighDuring(e, after, part, t) == HighOfIdeal(t - rise, Abs(x), 2000) - HighOfIdeal(e.now - rise, Abs(x), 2000)
      && (forall n: nat :: t == e.now + Periods(n, 2000) ==> HighDuring(e, after, part, t) == n * (Abs(x) * 1000))
      && (Abs(x) == 2000 ==> HighDuring(e, after, part, t) == t - e.now)
      && (x == 0 ==> HighDuring(e, after, part, t) == 0)
  {
    hide ReachableWorking, Machine.Reachable, WillFollow, ServedState, Parse, Machine.Final, Machine.Valid, NextRise;
    hide Due, Cycling, TargetDuty, AllHarmless, HighOfIdeal, HighDuring, Periods;
    VehicleFollows(m);
    ServedIsReachable(m, receive, text, settle);
    var d := ServedState(m, receive, settle);
    var e, rise := Machine.Final(d, wait), NextRise(PwmOf(d.vehicle, part));
    Machine.Append(d, wait, after);
    assert NoFrames(wait + after);
    OnlyThisSpeed(m, receive, text, settle, x, wait + after, part);
    HighTimeFollowsCommands(d, wait, after, part, t);
    HighOfExtremes(t - rise, 2000);
    HighOfExtremes(e.now - rise, 2000);
    forall n: nat | t == e.now + Periods(n, 2000)
      ensures HighOfIdeal(t - rise, Abs(x), 2000) == HighOfIdeal(e.now - rise, Abs(x), 2000) + n * (Abs(x) * 1000)
    {
      HighOfIdealPeriods(e.now - rise, n, Abs(x), 2000);
    }
  }

  /** From a STOP frame to the wheels: for as long as no other frame comes, both PWM pins are
      low from at most 4 ms after it was served on. */
  lemma StopFrameOnPins(m: State, receive: Tick, text: string, settle: seq<Tick>,
                        after: seq<Tick>, part: Part, t: int)
    requires ReachableWorking(m)
    requires Parse(text).Accepted? && Parse(text).cmd == 1 && part != Steering
    requires Served(m, receive, text, settle) && AllWork(settle)
    requires Machine.Valid(ServedState(m, receive, settle), after) && NoFrames(after)
    requires var e := Machine.Final(ServedState(m, receive, settle), after); e.now <= t && !Due(e, part, t)
    requires ServedState(m, receive, settle).now + 4_000_000 <= t
    ensures !PwmOf(Machine.Final(ServedState(m, receive, settle), after).vehicle, part).pin
  {
    hide ReachableWorking, Machine.Reachable, WillFollow, ServedState, Parse, Machine.Final, Machine.Valid, NextRise;
    hide Due, Cycling, Sound, LastSpeed, LastRequest;
    VehicleFollows(m);
    ServedIsReachable(m, receive, text, settle);
    var d := ServedState(m, receive, settle);
    FrameIsExecuted(m, receive, text, settle);
    OnlyRegisterExecuted(d, after);
    var c := Command(CMD_STOP, Parse(text).data1, Parse(text).data2);
    SameCommandTail(d.core.executed, |m.core.executed|, c);
    PinsFollowCommands(d, after, part, t);
    VehicleFollows(d);
    ReachableIsSound(d);
    RiseIsNear(d, part);
  }

  /** From a DIRECTION frame within 40 degrees to the steering: until the next turn is
      executed, at every instant t from the next rising edge on, the servo pin is high
      exactly as an ideal PWM of that angle's pulse, between 1055 and 1944 us, in 20 ms;
      that edge is at most 40 ms away. */
  lemma DirectionFrameOnPin(m: State, receive: Tick, text: string, settle: seq<Tick>, x: int32,
                            after: seq<Tick>, t: int)
    requires ReachableWorking(m)
    requires Says(text, 3, x) && Abs(x) < 40
    requires Served(m, receive, text, settle) && AllWork(settle)
    requires Machine.Valid(ServedState(m, receive, settle), after)
    requires var d := ServedState(m, receive, settle);
      var e := Machine.Final(d, after);
      && (forall j :: |d.core.executed| <= j < |e.core.executed| ==> !Turns(e.core.executed[j].command))
      && e.now <= t && !Due(e, Steering, t)
    ensures var d := ServedState(m, receive, settle);
      var e, p, pulse := Machine.Final(d, after), d.vehicle.steering, PulseOf(x as real + 90.0);
      && 1055 <= pulse <= 1944
      && pulse == 1500 + x * 100 / 9
      && Cycling(p) && NextRise(p) <= d.now + 40_000_000
      && (NextRise(p) <= t ==> (e.vehicle.steering.pin <==> (t - NextRise(p)) % 20_000_000 < pulse * 1000))
  {
    hide ReachableWorking, Machine.Reachable, WillFollow, ServedState, Parse, Machine.Final, Machine.Valid, NextRise;
    hide Due, Cycling, LastSpeed, LastTurn, Turns, Sound, PulseOf;
    VehicleFollows(m);
    DirectionFrameTakesEffect(m, receive, text, settle, x);
    ServedIsReachable(m, receive, text, settle);
    var d := ServedState(m, receive, settle);
    PinsFollowCommands(d, after, Steering, t);
    VehicleFollows(d);
    ReachableIsSound(d);
    RiseIsNear(d, Steering);
    PulseOfTurn(x);
  }
}
