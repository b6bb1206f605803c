/** The whole machine in time: the comm and follow threads around the command register, the
    vehicle, and the three PWM timers, from boot on, in any interleaving. A tick is one
    step of a thread, one device call of a command in execution, or the expiry of one
    timer, at an instant in nanoseconds. */
module Machine {
  import opened CTypes
  import opened Frames
  import opened CommandCore
  import opened SoftPwm
  import opened Waveform
  import opened Actuators
  import opened Stroller
  import Outbox

  /** The device-tree period of both motor channels, and the servo driver's, in microseconds. */
  const MOTOR_PERIOD: uint32 := 2000
  const SERVO_PERIOD: uint32 := 20000

  datatype Part = LeftWheel | RightWheel | Steering

  function PeriodOf(part: Part): uint32 {
    if part == Steering then SERVO_PERIOD else MOTOR_PERIOD
  }

  function PwmOf(v: Vehicle, part: Part): Pwm {
    match part
    case LeftWheel => v.left.pwm
    case RightWheel => v.right.pwm
    case Steering => v.steering
  }

  function WithPwm(v: Vehicle, part: Part, p: Pwm): Vehicle {
    match part
    case LeftWheel => v.(left := v.left.(pwm := p))
    case RightWheel => v.(right := v.right.(pwm := p))
    case Steering => v.(steering := p)
  }

  // ---- Boot ----

  /** When the motors were started and the first turn was sent, and how often the motors'
      timers had expired by then. */
  datatype BootTimes = BootTimes(right: int, left: int, straight: int, rightFirings: nat, leftFirings: nat)

  /** A motor channel at its START in motor_create: duty 0, in whatever state it was probed. */
  function StartedMotor(at: int): Pwm {
    Pwm(Start, 0, MOTOR_PERIOD, false, Some(at + 1_000_000))
  }

  /** By t the timer has expired k times, and nothing earlier than t is outstanding. */
  predicate FiredBy(p: Pwm, k: nat, t: int)
    requires Cycling(p)
  {
    && (k > 0 ==> Fires(p, k - 1).expiry.value <= t)
    && t <= Fires(p, k).expiry.value
  }

  /** chassis_register starts the right motor, then the left one; the turn comes last. */
  predicate Possible(times: BootTimes) {
    && times.right <= times.left <= times.straight
    && FiredBy(StartedMotor(times.right), times.rightFirings, times.straight)
    && FiredBy(StartedMotor(times.left), times.leftFirings, times.straight)
  }

  /** Whenever the motors are started and the turn is sent, the timers expire some number of
      times in between. */
  lemma BootCanHappen(right: int, left: int, straight: int)
    requires right <= left <= straight
    ensures exists i, j :: Possible(BootTimes(right, left, straight, i, j))
  {
    var i := FiringsBy(right, straight);
    var j := FiringsBy(left, straight);
    assert Possible(BootTimes(right, left, straight, i, j));
  }

  lemma FiringsBy(start: int, t: int) returns (k: nat)
    requires start <= t
    ensures FiredBy(StartedMotor(start), k, t)
  {
    var p := StartedMotor(start);
    if t < NextRise(p) {
      k := 0;
      FiresNone(p);
    } else {
      k := EveryInstantSeen(p, t);
    }
  }

  /** Stopped, straight, both motors running for some time, the servo just started. */
  function BootedVehicle(times: BootTimes): Vehicle {
    Vehicle(0.0, 0.0, BACKWARD, BACKWARD,
            Drive(0, Fires(StartedMotor(times.left), times.leftFirings)),
            Drive(0, Fires(StartedMotor(times.right), times.rightFirings)),
            Pwm(Start, 1500, SERVO_PERIOD, false, Some(times.straight + 1_000_000)))
  }

  predicate Probed(p: Pwm, period: uint32) {
    p.status == Disable && !p.pin && p.period == period
  }

  /** The timer of a channel expires n times. */
  method Elapse(channel: Channel, n: nat)
    requires Cycling(channel.View())
    modifies channel
    ensures channel.View() == Fires(old(channel.View()), n)
  {
    hide Fire, Cycling;
    var i := 0;
    while i < n
      invariant 0 <= i <= n
      invariant channel.View() == Fires(old(channel.View()), i)
    {
      CyclingBounds(channel.View());
      channel.Handler();
      i := i + 1;
    }
  }

  function RegisteredVehicle(times: BootTimes, steering: Pwm): Vehicle {
    Vehicle(0.0, 0.0, Bridge(false, false), Bridge(false, false),
            Drive(0, Fires(StartedMotor(times.left), times.leftFirings)),
            Drive(0, Fires(StartedMotor(times.right), times.rightFirings)),
            steering)
  }

  lemma FirstStopAndTurn(times: BootTimes, steering: Pwm)
    requires Probed(steering, SERVO_PERIOD)
    ensures SetTurn(SetSpeed(RegisteredVehicle(times, steering), 0.0, true, true), 0.0, times.straight, true, true)
         == BootedVehicle(times)
  {
    hide Fires;
    assert PulseOf(90.0) == 1500;
  }

  /** chassis_register; the timers of the motors go on from their START. */
  method RegisterChassis(right: Channel, left: Channel, steering: Channel, times: BootTimes)
    returns (chassis: Chassis)
    requires right != left && right != steering && left != steering
    requires Probed(right.View(), MOTOR_PERIOD) && Probed(left.View(), MOTOR_PERIOD)
    modifies right, left
    ensures fresh(chassis) && fresh(chassis.motorLeft) && fresh(chassis.motorRight) && chassis.Valid()
    ensures chassis.motorLeft.channel == left && chassis.motorRight.channel == right
    ensures chassis.servo.channel == steering
    ensures chassis.View() == RegisteredVehicle(times, old(steering.View()))
  {
    hide Fires, Fire;
    var motorRight := new Motor(right, times.right, true, true);
    var motorLeft := new Motor(left, times.left, true, true);
    assert right.View() == StartedMotor(times.right) && left.View() == StartedMotor(times.left);
    Elapse(right, times.rightFirings);
    Elapse(left, times.leftFirings);
    var servo := new Servo(steering);
    chassis := new Chassis(motorLeft, motorRight, servo);
  }

  /** chassis_register, then the first stop and straighten of stlr_create. The stop leaves the
      channels as they are, so it does not matter when it comes. */
  method BootStroller(right: Channel, left: Channel, steering: Channel, times: BootTimes)
    returns (stroller: Stroller)
    requires right != left && right != steering && left != steering
    requires Probed(right.View(), MOTOR_PERIOD) && Probed(left.View(), MOTOR_PERIOD)
    requires Probed(steering.View(), SERVO_PERIOD)
    requires Possible(times)
    modifies right, left, steering
    ensures fresh(stroller) && stroller.Valid()
    ensures stroller.View() == Comm(CommandCore.Init().register, Outbox.Init().sbuf, false, None, [])
    ensures stroller.chassis.View() == BootedVehicle(times)
  {
    hide Possible, Probed, SetSpeed, SetTurn, RegisteredVehicle, BootedVehicle;
    FirstStopAndTurn(times, steering.View());
    var chassis := RegisterChassis(right, left, steering, times);
    var stopped := chassis.SetChassisSpeed(0.0, times.straight, true, true);
    var straight := chassis.SetChassisTurn(0.0, times.straight, true, true);
    stroller := new Stroller(chassis);
  }

  // ---- Commands, call by call ----

  /** What is left of the command in execution: the next device call. The left motor comes
      first; SetRight knows how its call ended, and Restart that the pulse was set. */
  datatype Stage =
    | Idle
    | SetLeft(x: int32)
    | SetRight(x: int32, leftOk: bool)
    | SetPulse(x: int32)
    | Restart(x: int32)

  datatype Work = Work(vehicle: Vehicle, stage: Stage)

  /** The speed a command asks the motors for. */
  function AskedSpeed(c: Command): Option<int32> {
    if c.cmd == CMD_STOP then Some(0) else if c.cmd == CMD_SPEED then Some(c.data1) else None
  }

  /** Up to the first device call: the direction pins. */
  function Begin(v: Vehicle, c: Command): Work {
    match AskedSpeed(c)
    case Some(x) => Work(v.(leftPins := Direction(x as real), rightPins := Direction(x as real)), SetLeft(x))
    case None => Work(v, if c.cmd == CMD_DIRECTION then SetPulse(c.data1) else Idle)
  }

  /** One device call, and what follows it up to the next. */
  function Act(w: Work, now: int, ok: bool): Work {
    var v := w.vehicle;
    match w.stage
    case Idle => w
    case SetLeft(x) => Work(v.(left := SetMotor(v.left, Magnitude(x as real), ok)), SetRight(x, ok))
    case SetRight(x, leftOk) =>
      Work(v.(right := SetMotor(v.right, Magnitude(x as real), ok),
              speed := if InRange(x as real) && leftOk && ok then x as real else v.speed),
           Idle)
    case SetPulse(x) =>
      if !TurnAccepted(x as real) || !ok then Work(v, Idle)
      else Work(v.(steering := Ioctl(v.steering, now, SetDuty(PulseOf(x as real + 90.0)))), Restart(x))
    case Restart(x) =>
      Work(v.(turn := x as real, steering := if ok then Ioctl(v.steering, now, StartPwm) else v.steering), Idle)
  }

  /** The left motor is called first, and the direction is shown before either. */
  lemma LeftMotorFirst(v: Vehicle, c: Command, x: int32, now: int, ok: bool)
    requires AskedSpeed(c) == Some(x)
    ensures var begun := Begin(v, c); var called := Act(begun, now, ok);
      && begun.vehicle.left == v.left && begun.vehicle.right == v.right
      && begun.vehicle.leftPins == begun.vehicle.rightPins == Bridge(x > 0, x <= 0)
      && called.vehicle.right == v.right && called.vehicle.speed == v.speed
      && called.vehicle.left.speed == (if -2000 <= x <= 2000 && ok then (if x < 0 then -x else x) else v.left.speed)
  {
    MagnitudeOfInt(x);
  }

  /** Which of the outcomes is that of the next call. */
  function Outcome(stage: Stage, ok: Ioctls): bool {
    match stage
    case Idle => true
    case SetLeft(_) => ok.left
    case SetRight(_, _) => ok.right
    case SetPulse(_) => ok.duty
    case Restart(_) => ok.start
  }

  function CallsLeft(stage: Stage): nat {
    match stage
    case Idle => 0
    case SetLeft(_) | SetPulse(_) => 2
    case SetRight(_, _) | Restart(_) => 1
  }

  /** All that is left, at one instant. */
  function Finish(w: Work, now: int, ok: Ioctls): Vehicle
    decreases CallsLeft(w.stage)
  {
    if w.stage.Idle? then w.vehicle else Finish(Act(w, now, Outcome(w.stage, ok)), now, ok)
  }

  /** Call by call, with nothing in between, a command does what Execute says. */
  lemma FinishIsExecute(v: Vehicle, c: Command, now: int, ok: Ioctls)
    ensures Finish(Begin(v, c), now, ok) == Execute(v, c, now, ok)
  {
    var w := Begin(v, c);
    if !w.stage.Idle? {
      var w1 := Act(w, now, Outcome(w.stage, ok));
      assert Finish(w, now, ok) == Finish(w1, now, ok);
      if !w1.stage.Idle? {
        var w2 := Act(w1, now, Outcome(w1.stage, ok));
        assert Finish(w1, now, ok) == Finish(w2, now, ok) == w2.vehicle;
      }
    }
  }

  // ---- Ticks ----

  datatype State = State(core: Core, vehicle: Vehicle, stage: Stage, now: int)

  /** A step of a thread, the next device call of the command in execution, which may fail, or
      the expiry of a timer. */
  datatype Happening = ThreadStep(step: Step) | DeviceCall(ok: bool) | Expires(part: Part)

  datatype Tick = Tick(at: int, what: Happening)

  function Boot(times: BootTimes): State {
    State(CommandCore.Init(), BootedVehicle(times), Idle, times.straight)
  }

  predicate NotOverdue(p: Pwm, at: int) {
    p.expiry.Some? ==> at <= p.expiry.value
  }

  /** Time does not go back, no timer is overtaken, and a timer expires on time. The follow
      thread holds follow_mutex while it executes a command, so neither thread takes its
      next step before; a frame that stores nothing changes nothing and may as well come later. */
  predicate Enabled(m: State, tick: Tick) {
    && m.now <= tick.at
    && NotOverdue(m.vehicle.left.pwm, tick.at)
    && NotOverdue(m.vehicle.right.pwm, tick.at)
    && NotOverdue(m.vehicle.steering, tick.at)
    && match tick.what
       case ThreadStep(step) => m.stage.Idle? && CommandCore.Enabled(m.core, step)
       case DeviceCall(_) => !m.stage.Idle?
       case Expires(part) => PwmOf(m.vehicle, part).expiry == Some(tick.at)
  }

  /** The pass of the follow thread that executes the register. */
  predicate Executes(c: Core, step: Step) {
    step.Pass? && c.register.mode == ModeRemote
  }

  /** The work of a state after the tick. */
  function NextWork(m: State, tick: Tick): Work
    requires m.core.stores != [] && Enabled(m, tick)
  {
    match tick.what
    case ThreadStep(step) =>
      if Executes(m.core, step) then Begin(m.vehicle, m.core.register.command) else Work(m.vehicle, Idle)
    case DeviceCall(ok) => Act(Work(m.vehicle, m.stage), tick.at, ok)
    case Expires(part) => Work(WithPwm(m.vehicle, part, Fire(PwmOf(m.vehicle, part))), m.stage)
  }

  function Next(m: State, tick: Tick): (r: State)
    requires m.core.stores != [] && Enabled(m, tick)
    ensures r.core.stores != []
  {
    var core := if tick.what.ThreadStep? then CommandCore.Next(m.core, tick.what.step) else m.core;
    var work := NextWork(m, tick);
    State(core, work.vehicle, work.stage, tick.at)
  }

  predicate Valid(m: State, run: seq<Tick>)
    requires m.core.stores != []
    decreases |run|
  {
    run == [] || (Enabled(m, run[0]) && Valid(Next(m, run[0]), run[1..]))
  }

  function Final(m: State, run: seq<Tick>): (r: State)
    requires m.core.stores != [] && Valid(m, run)
    ensures r.core.stores != []
    decreases |run|
  {
    if run == [] then m else Final(Next(m, run[0]), run[1..])
  }

  lemma Unfold(m: State, tick: Tick, rest: seq<Tick>)
    requires m.core.stores != [] && Enabled(m, tick) && Valid(Next(m, tick), rest)
    ensures Valid(m, [tick] + rest)
    ensures Final(m, [tick] + rest) == Final(Next(m, tick), rest)
  {
    assert ([tick] + rest)[1..] == rest;
  }

  lemma FirstAndRest(run: seq<Tick>, more: seq<Tick>)
    requires run != []
    ensures run + more == [run[0]] + (run[1..] + more)
  {
  }

  lemma FirstTick(m: State, run: seq<Tick>)
    requires m.core.stores != [] && Valid(m, run) && run != []
    ensures Enabled(m, run[0]) && Next(m, run[0]).core.stores != []
    ensures Valid(Next(m, run[0]), run[1..]) && Final(m, run) == Final(Next(m, run[0]), run[1..])
  {
  }

  lemma {:induction false} Append(m: State, run: seq<Tick>, more: seq<Tick>)
    requires m.core.stores != [] && Valid(m, run) && Valid(Final(m, run), more)
    ensures Valid(m, run + more)
    ensures Final(m, run + more) == Final(Final(m, run), more)
    decreases |run|
  {
    if run == [] {
      assert run + more == more;
    } else {
      hide Next, Enabled, Valid, Final;
      var tick, rest := run[0], run[1..];
      FirstTick(m, run);
      Append(Next(m, tick), rest, more);
      FirstAndRest(run, more);
      Unfold(m, tick, rest + more);
    }
  }

  // ---- What every tick keeps, whichever calls fail ----

  /** A channel is started, with its own period, exact delays, nothing overdue, and at most
      one period to its next expiry. */
  predicate Ticking(p: Pwm, period: uint32, now: int) {
    p.expiry.Some? && Cycling(p) && p.period == period && now <= p.expiry.value <= now + period * 1000
  }

  predicate VehicleSound(v: Vehicle, now: int) {
    && Ticking(v.left.pwm, MOTOR_PERIOD, now) && v.left.pwm.duty == v.left.speed
    && Ticking(v.right.pwm, MOTOR_PERIOD, now) && v.right.pwm.duty == v.right.speed
    && Ticking(v.steering, SERVO_PERIOD, now)
  }

  predicate Turns(c: Command) {
    c.cmd == CMD_DIRECTION && Abs(c.data1) < 40
  }

  /** The command in execution is the last one of the executed history. */
  predicate StageFits(stage: Stage, executed: seq<Executed>) {
    if stage.Idle? then true
    else
      && executed != []
      && var c := executed[|executed| - 1].command;
      match stage
      case Idle => true
      case SetLeft(x) => AskedSpeed(c) == Some(x)
      case SetRight(x, _) => AskedSpeed(c) == Some(x)
      case SetPulse(x) => c.cmd == CMD_DIRECTION && c.data1 == x
      case Restart(x) => Turns(c) && c.data1 == x
  }

  /** The speed last asked for, by the executed commands. */
  function LastRequest(executed: seq<Executed>): int32 {
    if executed == [] then 0
    else match AskedSpeed(executed[|executed| - 1].command)
         case Some(x) => x
         case None => LastRequest(executed[..|executed| - 1])
  }

  /** The direction pins of both bridges show the sign of the last request. */
  predicate PinsShow(v: Vehicle, executed: seq<Executed>) {
    v.leftPins == v.rightPins == Direction(LastRequest(executed) as real)
  }

  ghost predicate Sound(m: State) {
    && CommandCore.Inv(m.core) && VehicleSound(m.vehicle, m.now)
    && StageFits(m.stage, m.core.executed) && PinsShow(m.vehicle, m.core.executed)
  }

  lemma BeginShows(v: Vehicle, executed: seq<Executed>, e: Executed)
    requires PinsShow(v, executed)
    ensures PinsShow(Begin(v, e.command).vehicle, executed + [e])
    ensures StageFits(Begin(v, e.command).stage, executed + [e])
  {
    assert (executed + [e])[..|executed|] == executed;
  }

  lemma MotorSound(d: Drive, magnitude: uint32, ok: bool, now: int)
    requires Ticking(d.pwm, MOTOR_PERIOD, now) && d.pwm.duty == d.speed
    ensures var e := SetMotor(d, magnitude, ok);
      Ticking(e.pwm, MOTOR_PERIOD, now) && e.pwm.duty == e.speed
  {
  }

  lemma MagnitudeOfInt(x: int32)
    ensures Magnitude(x as real) == Abs(x)
  {
    assert (x as real).Floor == x && (-(x as real)).Floor == -(x as int);
  }

  lemma ActSound(w: Work, executed: seq<Executed>, now: int, ok: bool)
    requires VehicleSound(w.vehicle, now) && StageFits(w.stage, executed)
    ensures VehicleSound(Act(w, now, ok).vehicle, now) && StageFits(Act(w, now, ok).stage, executed)
    ensures PinsShow(w.vehicle, executed) ==> PinsShow(Act(w, now, ok).vehicle, executed)
  {
    hide SetMotor;
    match w.stage
    case Idle =>
    case SetLeft(x) => MotorSound(w.vehicle.left, Magnitude(x as real), ok, now);
    case SetRight(x, _) => MotorSound(w.vehicle.right, Magnitude(x as real), ok, now);
    case SetPulse(x) => TurnPulse(w.vehicle, x as real, now, ok, false);
    case Restart(x) =>
  }

  lemma StepIsSound(m: State, tick: Tick)
    requires Sound(m) && Enabled(m, tick) && tick.what.ThreadStep?
    ensures Sound(Next(m, tick))
  {
    SoundHasStores(m);
    hide CommandCore.Inv, Cycling, PinsShow, StageFits, Begin;
    var step := tick.what.step;
    StepKeepsInv(m.core, step);
    BeginKeepsSettings(m.vehicle, m.core.register.command);
    BeginShows(m.vehicle, m.core.executed, Executed(m.core.register.command, |m.core.stores| - 1));
    IdleFits(m.core.executed);
  }

  lemma BeginKeepsSettings(v: Vehicle, c: Command)
    ensures var b := Begin(v, c).vehicle;
      b.left == v.left && b.right == v.right && b.steering == v.steering
  {
  }

  lemma TickKeepsSound(m: State, tick: Tick)
    requires Sound(m) && Enabled(m, tick)
    ensures Sound(Next(m, tick))
  {
    SoundHasStores(m);
    hide CommandCore.Inv, Cycling, Act, Begin, Fire, PinsShow, StageFits;
    match tick.what
    case ThreadStep(step) =>
      StepIsSound(m, tick);
    case DeviceCall(ok) =>
      assert VehicleSound(m.vehicle, tick.at);
      ActSound(Work(m.vehicle, m.stage), m.core.executed, tick.at, ok);
    case Expires(part) =>
      FireExact(PwmOf(m.vehicle, part));
      CyclingBounds(PwmOf(m.vehicle, part));
      FireShows(m.vehicle, m.core.executed, part);
  }

  lemma IdleFits(executed: seq<Executed>)
    ensures StageFits(Idle, executed)
  {
  }

  lemma FireShows(v: Vehicle, executed: seq<Executed>, part: Part)
    requires PwmOf(v, part).expiry.Some?
    ensures PinsShow(v, executed) ==> PinsShow(WithPwm(v, part, Fire(PwmOf(v, part))), executed)
  {
  }

  lemma CyclingBounds(p: Pwm)
    requires Cycling(p)
    ensures p.expiry.Some? && p.status != Disable && p.duty <= p.period
  {
  }

  lemma {:induction false} RunKeepsSound(m: State, run: seq<Tick>)
    requires Sound(m) && Valid(m, run)
    ensures Sound(Final(m, run))
    decreases |run|
  {
    if run != [] {
      hide Sound, Next, Enabled;
      TickKeepsSound(m, run[0]);
      SoundHasStores(m);
      RunKeepsSound(Next(m, run[0]), run[1..]);
    }
  }

  lemma SoundHasStores(m: State)
    requires Sound(m)
    ensures m.core.stores != []
  {
  }

  lemma StartedTicks(start: int, k: nat, t: int)
    requires start <= t && FiredBy(StartedMotor(start), k, t)
    ensures Ticking(Fires(StartedMotor(start), k), MOTOR_PERIOD, t)
  {
    if k > 0 {
      hide Fire;
      FireExact(Fires(StartedMotor(start), k - 1));
    }
  }

  lemma BootIsSound(times: BootTimes)
    requires Possible(times)
    ensures Sound(Boot(times))
  {
    hide Fires;
    StartedTicks(times.left, times.leftFirings, times.straight);
    StartedTicks(times.right, times.rightFirings, times.straight);
  }

  /** Reachable from boot by steps of the threads, device calls and expiries of the timers,
      whichever calls fail. */
  ghost predicate Reachable(m: State)
    ensures Reachable(m) ==> m.core.stores != []
  {
    exists times, run :: Possible(times) && Valid(Boot(times), run) && Final(Boot(times), run) == m
  }

  lemma ReachableIsSound(m: State)
    requires Reachable(m)
    ensures Sound(m)
  {
    hide Sound;
    var times, run :| Possible(times) && Valid(Boot(times), run) && Final(Boot(times), run) == m;
    BootIsSound(times);
    RunKeepsSound(Boot(times), run);
  }

  /** In every reachable state the three channels are started with the periods of their
      drivers and exact delays, the duty register of each motor channel is the motor's speed,
      at most 2000, and both bridges drive one way, by the sign of the last request. */
  lemma ChannelsAlwaysTick(m: State)
    requires Reachable(m)
    ensures forall part ::
      && Cycling(PwmOf(m.vehicle, part))
      && PwmOf(m.vehicle, part).period == (if part == Steering then 20000 else 2000)
    ensures m.vehicle.left.pwm.duty == m.vehicle.left.speed <= 2000
    ensures m.vehicle.right.pwm.duty == m.vehicle.right.speed <= 2000
    ensures var forward := LastRequest(m.core.executed) > 0;
      m.vehicle.leftPins == m.vehicle.rightPins == Bridge(forward, !forward)
  {
    ReachableIsSound(m);
  }

  // ---- Time goes on ----

  /** Firings of a channel left until t, each firing counting down. */
  function Countdown(p: Pwm, t: int): nat
    requires Cycling(p)
  {
    var left := t + p.period * 1000 - NextRise(p);
    2 * (if left > 0 then left else 0) + (if p.status == Falling then 1 else 0)
  }

  lemma FireCountsDown(p: Pwm, t: int)
    requires Cycling(p) && p.expiry.value <= t
    ensures Cycling(Fire(p)) && Countdown(Fire(p), t) < Countdown(p, t)
  {
    FireExact(p);
  }

  /** From every sound state the timers alone take the machine to any later instant t: a
      state where all that is due by t has happened. */
  lemma TimePasses(m: State, t: int) returns (run: seq<Tick>)
    requires Sound(m) && m.now <= t
    ensures Valid(m, run) && Sound(Final(m, run))
    ensures var d := Final(m, run);
      && d.core == m.core && d.now <= t
      && t < d.vehicle.left.pwm.expiry.value && t < d.vehicle.right.pwm.expiry.value
      && t < d.vehicle.steering.expiry.value
    ensures forall i :: 0 <= i < |run| ==> run[i].what.Expires?
    decreases Countdown(m.vehicle.left.pwm, t) + Countdown(m.vehicle.right.pwm, t) + Countdown(m.vehicle.steering, t)
  {
    hide Cycling, Countdown, Fire, CommandCore.Inv;
    var l, r, s := m.vehicle.left.pwm.expiry.value, m.vehicle.right.pwm.expiry.value, m.vehicle.steering.expiry.value;
    if t < l && t < r && t < s {
      run := [];
    } else {
      var part := if l <= r && l <= s then LeftWheel else if r <= s then RightWheel else Steering;
      var p := PwmOf(m.vehicle, part);
      var tick := Tick(p.expiry.value, Expires(part));
      FireCountsDown(p, t);
      TickKeepsSound(m, tick);
      var rest := TimePasses(Next(m, tick), t);
      run := [tick] + rest;
      Unfold(m, tick, rest);
    }
  }

  /** From every sound state the calls that are left, if any, can all be made at once, with any
      outcomes. */
  lemma CanFinish(m: State, ok: Ioctls) returns (run: seq<Tick>)
    requires Sound(m)
    ensures Valid(m, run)
    ensures Final(m, run) == m.(vehicle := Finish(Work(m.vehicle, m.stage), m.now, ok), stage := Idle)
    ensures forall i :: 0 <= i < |run| ==> run[i].what.DeviceCall?
    ensures ok == ALL_OK ==> AllWork(run)
    decreases CallsLeft(m.stage)
  {
    hide CommandCore.Inv, Cycling, Act;
    SoundHasStores(m);
    if m.stage.Idle? {
      run := [];
    } else {
      var tick := Tick(m.now, DeviceCall(Outcome(m.stage, ok)));
      TickKeepsSound(m, tick);
      CallsDecrease(Work(m.vehicle, m.stage), m.now, Outcome(m.stage, ok));
      var rest := CanFinish(Next(m, tick), ok);
      run := [tick] + rest;
      Unfold(m, tick, rest);
    }
  }

  lemma CallsDecrease(w: Work, now: int, ok: bool)
    requires !w.stage.Idle?
    ensures CallsLeft(Act(w, now, ok).stage) < CallsLeft(w.stage)
  {
  }

  /** A pass of the follow thread in remote mode, with its calls following at once: the
      register is executed as by FollowPass of Stroller. */
  lemma PassExecutes(m: State, ok: Ioctls) returns (run: seq<Tick>)
    requires Sound(m) && m.stage.Idle? && m.core.follow.Running? && m.core.register.mode == ModeRemote
    ensures Valid(m, run)
    ensures Final(m, run)
         == State(CommandCore.Next(m.core, Pass), Execute(m.vehicle, m.core.register.command, m.now, ok), Idle, m.now)
    ensures forall i :: 0 <= i < |run| && run[i].what.ThreadStep? ==> run[i].what.step == Pass
    ensures ok == ALL_OK ==> AllWork(run)
  {
    hide CommandCore.Inv, Cycling, Act, Finish, Execute;
    SoundHasStores(m);
    var pass := Tick(m.now, ThreadStep(Pass));
    TickKeepsSound(m, pass);
    var calls := CanFinish(Next(m, pass), ok);
    FinishIsExecute(m.vehicle, m.core.register.command, m.now, ok);
    run := [pass] + calls;
    Unfold(m, pass, calls);
  }

  /** From every sound state in remote mode the follow thread can, at once, come to wait with
      no command in execution. */
  lemma CanSettle(m: State) returns (run: seq<Tick>)
    requires Sound(m) && m.core.register.mode == ModeRemote
    ensures Valid(m, run)
    ensures var d := Final(m, run); d.core == Settled(m.core) && d.stage.Idle? && d.now == m.now
    ensures AllWork(run)
    ensures forall i :: 0 <= i < |run| && run[i].what.ThreadStep? ==> !run[i].what.step.Receive?
  {
    hide CommandCore.Inv, Cycling, Finish, Execute, VehicleSound;
    SoundHasStores(m);
    var calls := CanFinish(m, ALL_OK);
    var n := Final(m, calls);
    RunKeepsSound(m, calls);
    match n.core.follow
    case Running =>
      var pass := PassExecutes(n, ALL_OK);
      Append(m, calls, pass);
      run := calls + pass;
    case Blocked(true) =>
      var wake := Tick(n.now, ThreadStep(Wake));
      WakeNow(n);
      TickKeepsSound(n, wake);
      var pass := PassExecutes(Next(n, wake), ALL_OK);
      Unfold(n, wake, pass);
      Append(m, calls, [wake] + pass);
      run := calls + ([wake] + pass);
    case Blocked(false) =>
      run := calls;
  }

  lemma WakeNow(m: State)
    requires Sound(m) && m.stage.Idle? && m.core.follow.Blocked?
    ensures Enabled(m, Tick(m.now, ThreadStep(Wake)))
  {
  }

  // ---- With working calls the vehicle is a function of the executed commands ----

  const ALL_OK := Ioctls(true, true, true, true)

  function Abs(x: int): nat {
    if x < 0 then -x else x
  }

  /** The last requested speed the motors can take. */
  function LastSpeed(executed: seq<Executed>): (x: int32)
    ensures Abs(x) <= 2000
  {
    if executed == [] then 0
    else match AskedSpeed(executed[|executed| - 1].command)
         case Some(x) => if Abs(x) <= SPEED_MAX then x else LastSpeed(executed[..|executed| - 1])
         case None => LastSpeed(executed[..|executed| - 1])
  }

  /** The last requested turn the servo can take. */
  function LastTurn(executed: seq<Executed>): (x: int32)
    ensures Abs(x) < 40
  {
    if executed == [] then 0
    else
      var c := executed[|executed| - 1].command;
      if Turns(c) then c.data1 else LastTurn(executed[..|executed| - 1])
  }

  predicate Follows(v: Vehicle, executed: seq<Executed>) {
    && v.left.speed == v.right.speed == Abs(LastSpeed(executed))
    && v.speed == LastSpeed(executed) as real
    && v.leftPins == v.rightPins == Direction(LastRequest(executed) as real)
    && v.turn == LastTurn(executed) as real
    && v.steering.duty == PulseOf(LastTurn(executed) as real + 90.0)
  }

  /** The vehicle follows the commands once the one in execution is finished. */
  predicate WillFollow(m: State) {
    Follows(Finish(Work(m.vehicle, m.stage), m.now, ALL_OK), m.core.executed)
  }

  lemma ExecuteFollows(v: Vehicle, executed: seq<Executed>, e: Executed, now: int)
    requires Follows(v, executed)
    ensures Follows(Execute(v, e.command, now, ALL_OK), executed + [e])
  {
    assert (executed + [e])[..|executed|] == executed;
    var c := e.command;
    if AskedSpeed(c).Some? {
      MagnitudeOfInt(AskedSpeed(c).value);
    }
  }

  predicate Works(tick: Tick) {
    tick.what.DeviceCall? ==> tick.what.ok
  }

  predicate AllWork(run: seq<Tick>) {
    forall i :: 0 <= i < |run| ==> Works(run[i])
  }

  /** Vehicles that differ at most in the phases of their timers. */
  predicate SameSettings(v: Vehicle, w: Vehicle) {
    && v.left.speed == w.left.speed && v.right.speed == w.right.speed
    && v.speed == w.speed && v.turn == w.turn
    && v.leftPins == w.leftPins && v.rightPins == w.rightPins
    && v.steering.duty == w.steering.duty
  }

  lemma {:induction false} FinishSettings(u: Work, w: Work, now: int, then': int)
    requires SameSettings(u.vehicle, w.vehicle) && u.stage == w.stage
    ensures SameSettings(Finish(u, now, ALL_OK), Finish(w, then', ALL_OK))
    decreases CallsLeft(u.stage)
  {
    if !u.stage.Idle? {
      FinishSettings(Act(u, now, true), Act(w, then', true), now, then');
    }
  }

  lemma SameFollow(v: Vehicle, w: Vehicle, executed: seq<Executed>)
    requires SameSettings(v, w) && Follows(v, executed)
    ensures Follows(w, executed)
  {
  }

  lemma TickFollows(m: State, tick: Tick)
    requires m.core.stores != [] && Enabled(m, tick) && Works(tick)
    requires WillFollow(m)
    ensures WillFollow(Next(m, tick))
  {
    hide Parse, Follows, Execute, Finish, Act;
    var n, executed := Next(m, tick), m.core.executed;
    FinishIdle(m.vehicle, tick.at);
    match tick.what
    case ThreadStep(step) =>
      if Executes(m.core, step) {
        FinishIdle(m.vehicle, m.now);
        var c := m.core.register.command;
        ExecuteFollows(m.vehicle, executed, Executed(c, |m.core.stores| - 1), tick.at);
        FinishIsExecute(m.vehicle, c, tick.at, ALL_OK);
      } else {
        FinishIdle(m.vehicle, m.now);
      }
    case DeviceCall(ok) =>
      var w := Work(m.vehicle, m.stage);
      FinishOne(w, tick.at);
      FinishSettings(w, w, m.now, tick.at);
      SameFollow(Finish(w, m.now, ALL_OK), Finish(w, tick.at, ALL_OK), executed);
    case Expires(part) =>
      var w, after := Work(m.vehicle, m.stage), Work(n.vehicle, n.stage);
      FireSettings(m.vehicle, part);
      FinishSettings(w, after, m.now, tick.at);
      SameFollow(Finish(w, m.now, ALL_OK), Finish(after, tick.at, ALL_OK), executed);
  }

  lemma FinishIdle(v: Vehicle, now: int)
    ensures Finish(Work(v, Idle), now, ALL_OK) == v
  {
  }

  lemma FinishOne(w: Work, now: int)
    requires !w.stage.Idle?
    ensures Finish(w, now, ALL_OK) == Finish(Act(w, now, true), now, ALL_OK)
  {
  }

  lemma FireSettings(v: Vehicle, part: Part)
    requires PwmOf(v, part).expiry.Some?
    ensures SameSettings(v, WithPwm(v, part, Fire(PwmOf(v, part))))
  {
  }

  lemma {:induction false} RunFollows(m: State, run: seq<Tick>)
    requires m.core.stores != [] && Valid(m, run) && AllWork(run)
    requires WillFollow(m)
    ensures WillFollow(Final(m, run))
    decreases |run|
  {
    if run != [] {
      hide WillFollow, Next, Enabled, Works;
      TickFollows(m, run[0]);
      RunFollows(Next(m, run[0]), run[1..]);
    }
  }

  lemma BootFollows(times: BootTimes)
    requires Possible(times)
    ensures WillFollow(Boot(times))
  {
    assert PulseOf(90.0) == 1500;
    FinishIdle(BootedVehicle(times), times.straight);
  }

  /** Reachable from boot with working calls. */
  ghost predicate ReachableWorking(m: State)
    ensures ReachableWorking(m) ==> m.core.stores != []
  {
    exists times, run ::
      Possible(times) && Valid(Boot(times), run) && AllWork(run) && Final(Boot(times), run) == m
  }

  /** Whatever such a state reaches with working calls is one again. */
  lemma StaysReachable(m: State, run: seq<Tick>)
    requires ReachableWorking(m) && Valid(m, run) && AllWork(run)
    ensures ReachableWorking(Final(m, run))
  {
    hide Possible, BootedVehicle, Works;
    var times, before :|
      Possible(times) && Valid(Boot(times), before) && AllWork(before) && Final(Boot(times), before) == m;
    Append(Boot(times), before, run);
    assert AllWork(before + run);
  }

  /** In every state reachable with working calls, and with no command in execution, the
      vehicle follows the executed commands: both motors and the mirror hold the last speed
      in range, the pins of both bridges drive one way, by the sign of the last request, and
      the servo and its mirror hold the last turn in range. */
  lemma VehicleFollows(m: State)
    requires ReachableWorking(m)
    ensures Reachable(m) && WillFollow(m)
    ensures m.stage.Idle? ==> Follows(m.vehicle, m.core.executed)
  {
    var times, run :|
      Possible(times) && Valid(Boot(times), run) && AllWork(run) && Final(Boot(times), run) == m;
    hide WillFollow, Follows, Possible, Boot;
    BootFollows(times);
    RunFollows(Boot(times), run);
    IdleFollows(m);
  }

  lemma IdleFollows(m: State)
    requires WillFollow(m)
    ensures m.stage.Idle? ==> Follows(m.vehicle, m.core.executed)
  {
    FinishIdle(m.vehicle, m.now);
  }

  /** Exactly when the wheels turn as the last accepted speed says: iff that is 0 or the last
      request, accepted or not, had its sign. */
  lemma WheelsFollowIff(m: State)
    requires ReachableWorking(m) && m.stage.Idle?
    ensures var x, v := LastSpeed(m.core.executed), m.vehicle;
      && WheelVelocity(v.leftPins, v.left) == WheelVelocity(v.rightPins, v.right)
      && (WheelVelocity(v.leftPins, v.left) == x <==> x == 0 || (LastRequest(m.core.executed) > 0 <==> x > 0))
  {
    VehicleFollows(m);
  }
}
