/** The actuator chain: chassis -> motors and servo -> PWM channels. Ioctls on an open
    device either take effect or fail leaving it untouched; which of them fail is an input. */
module Actuators {
  import opened CTypes
  import opened SoftPwm

  const SPEED_MIN: int32 := 0
  const SPEED_MAX: int32 := 2000

  // ---- The state as values ----

  datatype Drive = Drive(speed: int32, pwm: Pwm)

  /** The two direction pins of one bridge. */
  datatype Bridge = Bridge(positive: bool, negative: bool)

  datatype Vehicle = Vehicle(
    speed: real, turn: real,
    leftPins: Bridge, rightPins: Bridge,
    left: Drive, right: Drive, steering: Pwm)

  /** The speeds whose conversion to uint32_t is defined (section 6.3.1.4 of ISO C11). */
  type Speed = x: real | -4294967296.0 < x < 4294967296.0

  /** The whole part of |speed|. */
  function Magnitude(speed: Speed): uint32 {
    if speed > 0.0 then speed.Floor else (-speed).Floor
  }

  predicate InRange(speed: Speed) {
    SPEED_MIN <= Magnitude(speed) <= SPEED_MAX
  }

  const FORWARD := Bridge(true, false)
  const BACKWARD := Bridge(false, true)

  function Direction(speed: Speed): Bridge {
    if speed > 0.0 then FORWARD else BACKWARD
  }

  /** motor_set_speed. */
  function SetMotor(d: Drive, magnitude: uint32, ioctlOk: bool): Drive {
    if SPEED_MIN <= magnitude <= SPEED_MAX && ioctlOk
    then Drive(magnitude, Ioctl(d.pwm, 0, SetDuty(magnitude)))
    else d
  }

  /** motor_create on a probed channel. */
  function Created(p: Pwm, now: int, setOk: bool, startOk: bool): Drive {
    var atZero := if setOk then Ioctl(p, now, SetDuty(0)) else p;
    Drive(0, if startOk then Ioctl(atZero, now, StartPwm) else atZero)
  }

  /** set_chassis_speed: the pins follow every request, the motors and the mirror only accepted ones. */
  function SetSpeed(v: Vehicle, speed: Speed, leftOk: bool, rightOk: bool): Vehicle {
    v.(leftPins := Direction(speed), rightPins := Direction(speed),
       left := SetMotor(v.left, Magnitude(speed), leftOk),
       right := SetMotor(v.right, Magnitude(speed), rightOk),
       speed := if InRange(speed) && leftOk && rightOk then speed else v.speed)
  }

  predicate AngleAccepted(angle: real) {
    45.0 <= angle <= 135.0
  }

  /** The pulse width servo_set_angle computes. */
  function PulseOf(angle: real): uint32
    requires AngleAccepted(angle)
  {
    ((angle - 45.0) / 90.0 * 1000.0 + 1000.0).Floor
  }

  /** The angle servo_get_angle computes; the subtraction is unsigned. */
  function AngleOf(pulse: uint32): real {
    U32(pulse - 1000) as real / 1000.0 * 90.0 + 45.0
  }

  predicate TurnAccepted(turn: real) {
    -40.0 < turn < 40.0
  }

  /** set_chassis_turn: an accepted turn sets the pulse and restarts the servo PWM. */
  function SetTurn(v: Vehicle, turn: real, now: int, dutyOk: bool, startOk: bool): Vehicle {
    if !TurnAccepted(turn) || !dutyOk then v
    else
      var steering := Ioctl(v.steering, now, SetDuty(PulseOf(turn + 90.0)));
      v.(turn := turn, steering := if startOk then Ioctl(steering, now, StartPwm) else steering)
  }

  // ---- The objects ----

  class Motor {
    var speed: int32
    const speedMax: int32 := SPEED_MAX
    const speedMin: int32 := SPEED_MIN
    const channel: Channel

    function View(): Drive
      reads this, channel
    {
      Drive(speed, channel.View())
    }

    /** motor_create: speed 0, then start the PWM; the results of both are ignored. */
    constructor (channel: Channel, now: int, setOk: bool, startOk: bool)
      modifies channel
      ensures this.channel == channel
      ensures View() == Created(old(channel.View()), now, setOk, startOk)
    {
      this.channel := channel;
      this.speed := 0;
      new;
      var result := SetSpeed(0, now, setOk);
      if startOk {
        var started, _ := channel.HandleIoctl(now, StartPwm, Copied);
      }
    }

    method SetSpeed(magnitude: uint32, now: int, ioctlOk: bool) returns (result: int32)
      modifies this, channel
      ensures View() == SetMotor(old(View()), magnitude, ioctlOk)
      ensures result == if 0 <= magnitude <= 2000 && ioctlOk then 0 else -1
    {
      if magnitude < speedMin || magnitude > speedMax {
        return -1;
      }
      if !ioctlOk {
        return -1;
      }
      var r, _ := channel.HandleIoctl(now, SetDuty(magnitude), Copied);
      speed := magnitude;
      return 0;
    }
  }

  class Servo {
    const channel: Channel

    constructor (channel: Channel)
      ensures this.channel == channel
    {
      this.channel := channel;
    }

    method Start(now: int, ioctlOk: bool) returns (result: int32)
      modifies channel
      ensures channel.View() == if ioctlOk then Ioctl(old(channel.View()), now, StartPwm) else old(channel.View())
      ensures result == if ioctlOk then 0 else -1
    {
      if !ioctlOk {
        return -1;
      }
      var _, _ := channel.HandleIoctl(now, StartPwm, Copied);
      return 0;
    }

    method SetAngle(angle: real, now: int, ioctlOk: bool) returns (result: int32)
      modifies channel
      ensures channel.View() == if AngleAccepted(angle) && ioctlOk
                                then Ioctl(old(channel.View()), now, SetDuty(PulseOf(angle)))
                                else old(channel.View())
      ensures result == if 45.0 <= angle <= 135.0 && ioctlOk then 0 else -1
    {
      if angle < 45.0 || angle > 135.0 {
        return -1;
      }
      if !ioctlOk {
        return -1;
      }
      var pulse := ((angle - 45.0) / 90.0 * 1000.0 + 1000.0).Floor;
      var _, _ := channel.HandleIoctl(now, SetDuty(pulse), Copied);
      return 0;
    }

    /** A failed ioctl leaves the caller's angle as it was. */
    method GetAngle(now: int, ioctlOk: bool, before: real) returns (result: int32, angle: real)
      modifies channel
      ensures channel.View() == old(channel.View())
      ensures if ioctlOk then result == 0 && angle == AngleOf(old(channel.View()).duty)
              else result == -1 && angle == before
    {
      if !ioctlOk {
        return -1, before;
      }
      var _, answer := channel.HandleIoctl(now, GetDuty, Copied);
      return 0, U32(answer.value - 1000) as real / 1000.0 * 90.0 + 45.0;
    }
  }

  class Chassis {
    var speed: real
    var turn: real
    var leftPositive: bool
    var leftNegative: bool
    var rightPositive: bool
    var rightNegative: bool
    const motorLeft: Motor
    const motorRight: Motor
    const servo: Servo

    ghost predicate Valid()
      reads this
    {
      && motorLeft != motorRight
      && motorLeft.channel != motorRight.channel
      && servo.channel != motorLeft.channel
      && servo.channel != motorRight.channel
    }

    function View(): Vehicle
      reads this, motorLeft, motorLeft.channel, motorRight, motorRight.channel, servo.channel
    {
      Vehicle(speed, turn, Bridge(leftPositive, leftNegative), Bridge(rightPositive, rightNegative),
              motorLeft.View(), motorRight.View(), servo.channel.View())
    }

    /** chassis_register: all direction pins low. */
    constructor (motorLeft: Motor, motorRight: Motor, servo: Servo)
      requires motorLeft != motorRight && motorLeft.channel != motorRight.channel
      requires servo.channel != motorLeft.channel && servo.channel != motorRight.channel
      ensures Valid()
      ensures this.motorLeft == motorLeft && this.motorRight == motorRight && this.servo == servo
      ensures View() == Vehicle(0.0, 0.0, Bridge(false, false), Bridge(false, false),
                                motorLeft.View(), motorRight.View(), servo.channel.View())
    {
      this.speed, this.turn := 0.0, 0.0;
      this.leftPositive, this.leftNegative := false, false;
      this.rightPositive, this.rightNegative := false, false;
      this.motorLeft, this.motorRight, this.servo := motorLeft, motorRight, servo;
    }

    method SetChassisSpeed(speed: Speed, now: int, leftOk: bool, rightOk: bool) returns (result: int32)
      requires Valid()
      modifies this, motorLeft, motorLeft.channel, motorRight, motorRight.channel
      ensures Valid()
      ensures View() == SetSpeed(old(View()), speed, leftOk, rightOk)
      ensures result == if -2001.0 < speed < 2001.0 && leftOk && rightOk then 0 else -1
      ensures leftPositive == rightPositive == (speed > 0.0) && leftNegative == rightNegative == (speed <= 0.0)
    {
      var magnitude: uint32;
      if speed > 0.0 {
        magnitude := speed.Floor;
        leftPositive := true;
        leftNegative := false;
        rightPositive := true;
        rightNegative := false;
      } else {
        magnitude := (-speed).Floor;
        leftPositive := false;
        leftNegative := true;
        rightPositive := false;
        rightNegative := true;
      }
      var left := motorLeft.SetSpeed(magnitude, now, leftOk);
      var right := motorRight.SetSpeed(magnitude, now, rightOk);
      result := if left == 0 then right else left;
      if result == 0 {
        this.speed := speed;
      }
    }

    method SetChassisTurn(turn: real, now: int, dutyOk: bool, startOk: bool) returns (result: int32)
      requires Valid()
      modifies this, servo.channel
      ensures Valid()
      ensures View() == SetTurn(old(View()), turn, now, dutyOk, startOk)
      ensures result == if -40.0 < turn < 40.0 && dutyOk then 0 else -1
    {
      if turn <= -40.0 || turn >= 40.0 {
        return -1;
      }
      result := servo.SetAngle(turn + 90.0, now, dutyOk);
      if result == 0 {
        var _ := servo.Start(now, startOk);
        this.turn := turn;
      }
    }
  }

  // ---- Speed calls over whole histories ----

  datatype SpeedCall = SpeedCall(speed: Speed, leftOk: bool, rightOk: bool)

  function AfterCalls(v: Vehicle, calls: seq<SpeedCall>): Vehicle {
    if calls == [] then v
    else
      var last := calls[|calls| - 1];
      SetSpeed(AfterCalls(v, calls[..|calls| - 1]), last.speed, last.leftOk, last.rightOk)
  }

  /** Both motors hold the whole part of the mirrored speed, within the motor limits,
      and so do the duty registers of their PWM channels. */
  predicate InStep(v: Vehicle) {
    && -4294967296.0 < v.speed < 4294967296.0
    && v.left.speed == v.right.speed == Magnitude(v.speed) <= SPEED_MAX
    && v.left.pwm.duty == v.left.speed
    && v.right.pwm.duty == v.right.speed
  }

  /** The range of the motors, on the speed asked for: its whole part, toward zero, is at most
      2000, which the fractions up to 2001 on either side are. */
  lemma RangeOfSpeeds(speed: Speed)
    ensures InRange(speed) <==> -2001.0 < speed < 2001.0
    ensures var abs := if speed < 0.0 then -speed else speed;
      Magnitude(speed) as real <= abs < Magnitude(speed) as real + 1.0
  {
  }

  /** One call keeps the motors in step exactly when it is rejected for its range, or both
      ioctls agree, or it asks for the magnitude the motors already have. */
  lemma SpeedCallKeepsStep(v: Vehicle, call: SpeedCall)
    requires InStep(v)
    ensures InStep(SetSpeed(v, call.speed, call.leftOk, call.rightOk))
       <==> !InRange(call.speed) || call.leftOk == call.rightOk || Magnitude(call.speed) == v.left.speed
  {
  }

  /** Whose ioctls have to work for a call to count. */
  datatype Taker = LeftMotor | RightMotor | BothMotors

  predicate Takes(taker: Taker, call: SpeedCall) {
    InRange(call.speed) && (taker != RightMotor ==> call.leftOk) && (taker != LeftMotor ==> call.rightOk)
  }

  /** The speeds a motor, or both, have taken, in order. */
  function Granted(taker: Taker, calls: seq<SpeedCall>): seq<Speed> {
    if calls == [] then []
    else
      var last := calls[|calls| - 1];
      Granted(taker, calls[..|calls| - 1]) + (if Takes(taker, last) then [last.speed] else [])
  }

  function LastOr<T>(s: seq<T>, initial: T): T {
    if s == [] then initial else s[|s| - 1]
  }

  /** Chassis consistency over every sequence of calls, whichever ioctls work: each motor and
      its duty register hold the whole part of the last speed that motor took, the mirror is
      the last speed both took, and the pins of both bridges drive one way, by the sign of
      the last request. */
  lemma {:induction false} CallsHistory(v: Vehicle, calls: seq<SpeedCall>)
    requires InStep(v)
    ensures var w := AfterCalls(v, calls);
      && w.left.speed == w.left.pwm.duty == Magnitude(LastOr(Granted(LeftMotor, calls), v.speed)) <= 2000
      && w.right.speed == w.right.pwm.duty == Magnitude(LastOr(Granted(RightMotor, calls), v.speed)) <= 2000
      && w.speed == LastOr(Granted(BothMotors, calls), v.speed)
      && (calls != [] ==>
           var forward := calls[|calls| - 1].speed > 0.0;
           w.leftPins == w.rightPins == Bridge(forward, !forward))
  {
    if calls != [] {
      CallsHistory(v, calls[..|calls| - 1]);
    }
  }

  lemma {:induction false} GrantedTogether(calls: seq<SpeedCall>)
    requires forall i :: 0 <= i < |calls| ==> calls[i].leftOk && calls[i].rightOk
    ensures Granted(LeftMotor, calls) == Granted(RightMotor, calls) == Granted(BothMotors, calls)
  {
    if calls != [] {
      GrantedTogether(calls[..|calls| - 1]);
    }
  }

  /** With working ioctls the motors therefore stay in step with each other and the mirror. */
  lemma CallsKeepStep(v: Vehicle, calls: seq<SpeedCall>)
    requires InStep(v)
    requires forall i :: 0 <= i < |calls| ==> calls[i].leftOk && calls[i].rightOk
    ensures InStep(AfterCalls(v, calls))
  {
    CallsHistory(v, calls);
    GrantedTogether(calls);
  }

  /** What a wheel does: a bridge drives one way when exactly one of its pins is high, and
      not at all when both are or none is. */
  function WheelVelocity(pins: Bridge, motor: Drive): int {
    if pins.positive && !pins.negative then motor.speed as int
    else if pins.negative && !pins.positive then -(motor.speed as int)
    else 0
  }

  /** Both pins of a bridge are never alike once a speed has been asked for: after any calls,
      whichever ioctls work, each bridge drives forward iff the last request is above 0,
      and backward otherwise. */
  lemma BridgesDrive(v: Vehicle, calls: seq<SpeedCall>)
    requires calls != []
    ensures var w, last := AfterCalls(v, calls), calls[|calls| - 1].speed;
      && w.leftPins.positive != w.leftPins.negative && w.rightPins.positive != w.rightPins.negative
      && (w.leftPins.positive <==> last > 0.0) && (w.rightPins.positive <==> last > 0.0)
      && WheelVelocity(w.leftPins, w.left) == (if last > 0.0 then w.left.speed as int else -(w.left.speed as int))
      && WheelVelocity(w.rightPins, w.right) == (if last > 0.0 then w.right.speed as int else -(w.right.speed as int))
  {
  }

  /** The mirrored speed, truncated toward zero. */
  function MirroredVelocity(v: Vehicle): int
    requires InStep(v)
  {
    if v.speed > 0.0 then Magnitude(v.speed) as int else -(Magnitude(v.speed) as int)
  }

  /** Exactly when the wheels do what the mirror says: the last request had the sign of
      the last accepted speed, or the wheels stand still. */
  lemma VelocityFollowsMirror(v: Vehicle, calls: seq<SpeedCall>)
    requires InStep(v) && calls != []
    requires forall i :: 0 <= i < |calls| ==> calls[i].leftOk && calls[i].rightOk
    ensures InStep(AfterCalls(v, calls))
    ensures var w := AfterCalls(v, calls);
      && WheelVelocity(w.leftPins, w.left) == WheelVelocity(w.rightPins, w.right)
      && (WheelVelocity(w.leftPins, w.left) == MirroredVelocity(w)
      <==> w.left.speed == 0 || (calls[|calls| - 1].speed > 0.0 <==> w.speed > 0.0))
  {
    CallsKeepStep(v, calls);
    CallsHistory(v, calls);
  }

  /** A rejected request of the opposite sign reverses a moving vehicle at its old magnitude. */
  lemma RejectedRequestReverses(v: Vehicle)
    requires InStep(v) && v.speed == 1000.0
    ensures var w := AfterCalls(v, [SpeedCall(-3000.0, true, true)]);
      && w.speed == 1000.0
      && WheelVelocity(w.leftPins, w.left) == -1000 && WheelVelocity(w.rightPins, w.right) == -1000
  {
  }

  // ---- Servo quantisation ----

  /** Reading back an angle loses less than one step of 0.09 degrees, always downwards. */
  lemma AngleReadBack(angle: real)
    requires AngleAccepted(angle)
    ensures 45.0 <= angle <= 135.0 && 1000 <= PulseOf(angle) <= 2000
    ensures PulseOf(angle) as real <= 1500.0 + (angle - 90.0) / 0.09 < PulseOf(angle) as real + 1.0
    ensures angle - 0.09 < AngleOf(PulseOf(angle)) <= angle
  {
  }

  lemma PulseMonotone(a: real, b: real)
    requires AngleAccepted(a) && AngleAccepted(b) && a <= b
    ensures PulseOf(a) <= PulseOf(b)
    ensures b - a >= 0.09 ==> PulseOf(a) < PulseOf(b)
  {
  }

  /** The read-back formula is meaningful exactly for pulses of at least 1000 us: below,
      as after boot, the unsigned subtraction wraps to millions of degrees. */
  lemma AngleReadBackWraps(pulse: uint32)
    ensures AngleOf(pulse) == (pulse as int - 1000) as real / 1000.0 * 90.0 + 45.0 <==> pulse >= 1000
    ensures pulse < 1000 ==> AngleOf(pulse) > 386_000_000.0
  {
  }

  /** Every accepted turn gives a pulse of 1055 to 1944 us, inside the 500 to 2500 us
      limits and the 20 ms period of the servo driver, and restarts the servo PWM;
      rejected and failed turns change nothing. */
  lemma TurnPulse(v: Vehicle, turn: real, now: int, dutyOk: bool, startOk: bool)
    ensures var w := SetTurn(v, turn, now, dutyOk, startOk);
      if -40.0 < turn < 40.0 && dutyOk then
        && 1055 <= w.steering.duty <= 1944
        && w.turn == turn
        && turn - 0.09 < AngleOf(w.steering.duty) - 90.0 <= turn
        && (startOk ==> w.steering.status == Start && w.steering.expiry == Some(now + 1_000_000))
        && w == v.(turn := turn, steering := w.steering)
        && w.steering.pin == v.steering.pin && w.steering.period == v.steering.period
      else w == v
  {
    if TurnAccepted(turn) {
      AngleReadBack(turn + 90.0);
    }
  }
}
