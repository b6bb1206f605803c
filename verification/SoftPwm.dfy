/** The software PWM of the motor and servo drivers: a one-shot hrtimer whose handler
    toggles a GPIO and re-arms the timer. Both drivers run the same automaton.
    Times are in nanoseconds; handlers and ioctls are atomic, and the timer is
    idealised to run its handler exactly when it expires. */
module SoftPwm {
  import opened CTypes

  datatype Status = Disable | Start | Rising | Falling

  /** One PWM channel. At most one expiry is pending: arming a pending hrtimer replaces it. */
  datatype Pwm = Pwm(status: Status, duty: uint32, period: uint32, pin: bool, expiry: Option<int>)

  const START_DELAY_US: uint32 := 1000

  /** start_pwm_hrtimer: the delay in nanoseconds is computed in 32 bits. */
  function Arm(p: Pwm, status: Status, now: int, delay: uint32): Pwm {
    p.(status := status, expiry := Some(now + U32(delay * 1000)))
  }

  /** The timer handler, run at the instant the timer expires. */
  function Fire(p: Pwm): Pwm
    requires p.expiry.Some?
  {
    var now, q := p.expiry.value, p.(expiry := None);
    match p.status
    case Start | Rising => Arm(q.(pin := true), Falling, now, q.duty)
    case Falling => Arm(q.(pin := false), Rising, now, U32(q.period - q.duty))
    case Disable => q.(pin := false)
  }

  datatype Request = SetDuty(duty: uint32) | GetDuty | StartPwm | StopPwm | Unknown

  /** Whether the kernel could copy the argument from or to user space; if not, how many
      bytes it could not, and what a failed read leaves in the duty register. */
  datatype Copy = Copied | Fault(missing: int32, leaves: uint32)

  /** The request as the driver sees it. */
  function Delivered(request: Request, copy: Copy): Request {
    if request.SetDuty? && copy.Fault? then SetDuty(copy.leaves) else request
  }

  function Ioctl(p: Pwm, now: int, request: Request): Pwm {
    match request
    case SetDuty(duty) => p.(duty := duty)
    case StartPwm => Arm(p, Start, now, START_DELAY_US)
    case StopPwm => Arm(p, Disable, now, START_DELAY_US)
    case GetDuty | Unknown => p
  }

  const EFAULT: int32 := 14
  const EINVAL: int32 := 22

  /** A channel of either driver. The motor driver ignores unknown requests and returns
      the bytes a copy misses; the servo driver returns -EINVAL and -EFAULT. */
  class Channel {
    var status: Status
    var duty: uint32
    const period: uint32
    var gpio: bool
    var timer: Option<int>
    const ofServo: bool

    function View(): Pwm
      reads this
    {
      Pwm(status, duty, period, gpio, timer)
    }

    /** motor_probe: duty and period from the device tree, pin low, and a first timer
        expiry after 1000 ns that finds the channel disabled. */
    constructor Motor(duty: uint32, period: uint32, now: int)
      ensures View() == Pwm(Disable, duty, period, false, Some(now + 1000))
    {
      this.status, this.duty, this.period, this.gpio := Disable, duty, period, false;
      this.timer := Some(now + 1000);
      this.ofServo := false;
    }

    /** servo_probe: duty 0 until the first SERVO_SET_DUTY, timer not started. */
    constructor Servo()
      ensures View() == Pwm(Disable, 0, 20000, false, None)
    {
      this.status, this.duty, this.period, this.gpio := Disable, 0, 20000, false;
      this.timer := None;
      this.ofServo := true;
    }

    method StartTimer(state: Status, now: int, delayUs: uint32)
      modifies this`status, this`timer
      ensures View() == Arm(old(View()), state, now, delayUs)
    {
      status := state;
      var delayNs := U32(delayUs * 1000);
      timer := Some(now + delayNs);
    }

    method Handler()
      requires timer.Some?
      modifies this`status, this`gpio, this`timer
      ensures View() == Fire(old(View()))
    {
      var now := timer.value;
      timer := None;
      match status {
        case Start | Rising =>
          gpio := true;
          StartTimer(Falling, now, duty);
        case Falling =>
          gpio := false;
          StartTimer(Rising, now, U32(period - duty));
        case Disable =>
          gpio := false;
      }
    }

    method HandleIoctl(now: int, request: Request, copy: Copy) returns (result: int32, answer: Option<uint32>)
      requires copy.Fault? ==> 0 < copy.missing <= 4
      modifies this`status, this`duty, this`timer
      ensures View() == Ioctl(old(View()), now, Delivered(request, copy))
      ensures answer == if request.GetDuty? && copy.Copied? then Some(old(duty)) else None
      ensures result == if request.Unknown? then (if ofServo then -22 else 0)
                        else if (request.SetDuty? || request.GetDuty?) && copy.Fault?
                        then (if ofServo then -14 else copy.missing)
                        else 0
    {
      result, answer := 0, None;
      match request {
        case SetDuty(d) =>
          duty := if copy.Copied? then d else copy.leaves;
          result := CopyResult(copy);
        case GetDuty =>
          answer := if copy.Copied? then Some(duty) else None;
          result := CopyResult(copy);
        case StartPwm => StartTimer(Start, now, START_DELAY_US);
        case StopPwm => StartTimer(Disable, now, START_DELAY_US);
        case Unknown => result := if ofServo then -EINVAL else 0;
      }
    }

    function CopyResult(copy: Copy): int32 {
      if copy.Copied? then 0 else if ofServo then -EFAULT else copy.missing
    }
  }

  // ---- Timed runs of one channel ----

  datatype Event = Expire | Call(request: Request)

  datatype Timed = Timed(at: int, event: Event)

  /** An event may happen next: the timer expires exactly on time, and no ioctl
      overtakes a due expiry. */
  predicate Allowed(p: Pwm, now: int, e: Timed) {
    && now <= e.at
    && match e.event
       case Expire => p.expiry == Some(e.at)
       case Call(_) => p.expiry.Some? ==> e.at <= p.expiry.value
  }

  function After(p: Pwm, e: Timed): Pwm
    requires e.event.Expire? ==> p.expiry.Some?
  {
    match e.event
    case Expire => Fire(p)
    case Call(request) => Ioctl(p, e.at, request)
  }

  predicate Valid(p: Pwm, now: int, run: seq<Timed>)
    decreases |run|
  {
    run == [] || (Allowed(p, now, run[0]) && Valid(After(p, run[0]), run[0].at, run[1..]))
  }

  function Final(p: Pwm, now: int, run: seq<Timed>): Pwm
    requires Valid(p, now, run)
    decreases |run|
  {
    if run == [] then p else Final(After(p, run[0]), run[0].at, run[1..])
  }

  function EndTime(now: int, run: seq<Timed>): int {
    if run == [] then now else run[|run| - 1].at
  }

  // ---- What every event keeps ----

  /** The pin agrees with the phase, and a channel without a pending expiry is off. */
  predicate Inv(p: Pwm) {
    && (p.status == Falling ==> p.pin)
    && (p.status == Rising ==> !p.pin)
    && (p.expiry.None? ==> p.status == Disable && !p.pin)
  }

  /** The timer automaton invariant, over every run of expiries and ioctls. */
  lemma {:induction false} RunKeepsInv(p: Pwm, now: int, run: seq<Timed>)
    requires Inv(p) && Valid(p, now, run)
    ensures Inv(Final(p, now, run))
    ensures Final(p, now, run).period == p.period
    decreases |run|
  {
    if run != [] {
      RunKeepsInv(After(p, run[0]), run[0].at, run[1..]);
    }
  }

  /** A START or STOP call. */
  predicate Rearms(e: Timed) {
    e.event.Call? && (e.event.request.StartPwm? || e.event.request.StopPwm?)
  }

  predicate NoStartStop(run: seq<Timed>) {
    forall i :: 0 <= i < |run| ==> !Rearms(run[i])
  }

  lemma {:induction false} StoppingRun(p: Pwm, now: int, run: seq<Timed>)
    requires Inv(p) && Valid(p, now, run) && NoStartStop(run)
    requires p.status == Disable
    ensures var q := Final(p, now, run);
      q.status == Disable && (q.expiry == p.expiry || q.expiry == None)
    decreases |run|
  {
    if run != [] {
      assert NoStartStop(run[1..]);
      StoppingRun(After(p, run[0]), run[0].at, run[1..]);
    }
  }

  /** STOP: unless another START or STOP follows, the pin is low from 1000 us after
      the call on, however many duty changes happen in between. */
  lemma StopsWithinOneMillisecond(p: Pwm, stop: int, run: seq<Timed>, t: int)
    requires Inv(p)
    requires Valid(Ioctl(p, stop, StopPwm), stop, run) && NoStartStop(run)
    requires var q := Final(Ioctl(p, stop, StopPwm), stop, run); q.expiry.None? || t < q.expiry.value
    requires t >= stop + 1_000_000
    ensures !Final(Ioctl(p, stop, StopPwm), stop, run).pin
    ensures Final(Ioctl(p, stop, StopPwm), stop, run).expiry == None
  {
    StoppingRun(Ioctl(p, stop, StopPwm), stop, run);
    RunKeepsInv(Ioctl(p, stop, StopPwm), stop, run);
  }

  /** START and STOP calls in any mix, each at most 1000 us after the one before. */
  predicate Storm(now: int, run: seq<Timed>)
    decreases |run|
  {
    if run == [] then true
    else Rearms(run[0]) && now <= run[0].at <= now + 1_000_000 && Storm(run[0].at, run[1..])
  }

  /** Repeating START or STOP at gaps of at most 1000 us keeps re-arming the timer: such a
      run is possible whatever its length, and leaves the pin as it was before it. */
  lemma {:induction false} StormHoldsPin(p: Pwm, now: int, run: seq<Timed>)
    requires p.expiry == Some(now + 1_000_000) && Storm(now, run)
    ensures Valid(p, now, run)
    ensures Final(p, now, run).pin == p.pin
    ensures Final(p, now, run).expiry == Some(EndTime(now, run) + 1_000_000)
    decreases |run|
  {
    if run != [] {
      StormHoldsPin(After(p, run[0]), run[0].at, run[1..]);
    }
  }

  /** A START or STOP comes in before the timer next expires. */
  predicate RearmedBeforeExpiry(run: seq<Timed>) {
    run != [] && run[0].event.Call? && (Rearms(run[0]) || RearmedBeforeExpiry(run[1..]))
  }

  lemma {:induction false} StopOutcome(p: Pwm, now: int, run: seq<Timed>, due: int)
    requires p.status == Disable && p.pin && p.expiry == Some(due) && now <= due
    requires Valid(p, now, run) && EndTime(now, run) <= due
    requires forall i :: 0 <= i < |run| && Rearms(run[i]) ==> run[i].at > due - 1_000_000
    requires var q := Final(p, now, run); q.expiry.Some? ==> q.expiry.value > due
    ensures !Final(p, now, run).pin <==> !RearmedBeforeExpiry(run)
    decreases |run|
  {
    if run != [] {
      var e, rest := run[0], run[1..];
      var q := After(p, e);
      assert forall i :: 0 <= i < |rest| ==> rest[i] == run[i + 1];
      if e.event.Expire? || Rearms(e) {
        PinHeld(q, e.at, rest, due);
      } else {
        StopOutcome(q, e.at, rest, due);
      }
    }
  }

  /** Until due no timer expires, so no event moves the pin. */
  lemma {:induction false} PinHeld(p: Pwm, now: int, run: seq<Timed>, due: int)
    requires Valid(p, now, run) && EndTime(now, run) <= due
    requires p.expiry.Some? ==> p.expiry.value > due
    requires forall i :: 0 <= i < |run| && Rearms(run[i]) ==> run[i].at > due - 1_000_000
    ensures Final(p, now, run).pin == p.pin
    decreases |run|
  {
    if run != [] {
      var rest := run[1..];
      EndAfterFirst(p, now, run);
      assert forall i :: 0 <= i < |rest| ==> rest[i] == run[i + 1];
      PinHeld(After(p, run[0]), run[0].at, rest, due);
    }
  }

  lemma {:induction false} EndAfterFirst(p: Pwm, now: int, run: seq<Timed>)
    requires run != [] && Valid(p, now, run)
    ensures run[0].at <= EndTime(now, run)
    decreases |run|
  {
    if |run| > 1 {
      EndAfterFirst(After(p, run[0]), run[0].at, run[1..]);
    }
  }

  /** Exactly when STOP brings a high pin down in 1000 us: in every run up to that instant,
      at its end all due expiries handled, iff no later START or STOP comes before the
      expiry STOP has armed. */
  lemma StopInTimeUnlessRearmed(p: Pwm, stop: int, run: seq<Timed>)
    requires p.pin
    requires Valid(Ioctl(p, stop, StopPwm), stop, run) && EndTime(stop, run) <= stop + 1_000_000
    requires forall i :: 0 <= i < |run| && Rearms(run[i]) ==> run[i].at > stop
    requires var q := Final(Ioctl(p, stop, StopPwm), stop, run); q.expiry.Some? ==> q.expiry.value > stop + 1_000_000
    ensures !Final(Ioctl(p, stop, StopPwm), stop, run).pin <==> !RearmedBeforeExpiry(run)
  {
    StopOutcome(Ioctl(p, stop, StopPwm), stop, run, stop + 1_000_000);
  }
}
