/** The SW18015 shake sensor: a kernel driver that counts interrupts and wakes pollers
    after a quiet time, and its user-space reader, which reads and clears the count in
    two separate ioctls. Interrupts and ioctls are atomic. */
module Sw18015 {
  import opened CTypes

  const QUIET_MS: nat := 100

  /** event_flag++ in 32 bits. */
  function Increment(flag: int32): int32 {
    Wrap32(flag + 1)
  }

  // ---- The driver object ----

  class Driver {
    var eventFlag: int32
    var timer: Option<int>
    ghost var wakes: seq<int>

    /** sw18015_probe: the timer is added with expiry time 0, so it is due at once. */
    constructor (now: int)
      ensures eventFlag == 0 && timer == Some(now) && wakes == []
    {
      eventFlag, timer, wakes := 0, Some(now), [];
    }

    method IrqHandler(now: int)
      modifies this`eventFlag, this`timer
      ensures eventFlag == Increment(old(eventFlag))
      ensures timer == Some(now + 100)
      ensures forall r: Reader :: Next(Counter(old(eventFlag), r), Interrupt) == Counter(eventFlag, r)
    {
      timer := Some(now + QUIET_MS);
      eventFlag := Wrap32(eventFlag + 1);
    }

    method TimerHandler()
      requires timer.Some?
      modifies this`timer, this`wakes
      ensures timer == TimerAfter(Expiry(old(timer).value))
      ensures wakes == old(wakes) + [old(timer).value]
    {
      wakes := wakes + [timer.value];
      timer := None;
    }

    /** Poll reports an event and clears the count. */
    method Poll() returns (readable: bool)
      modifies this`eventFlag
      ensures readable <==> old(eventFlag) != 0
      ensures eventFlag == 0
      ensures forall r: Reader :: Next(Counter(old(eventFlag), r), Step.Poll) == Counter(eventFlag, r)
    {
      readable := false;
      if eventFlag != 0 {
        eventFlag := 0;
        readable := true;
      }
    }

    method ShakeCount() returns (value: int32)
      ensures value == eventFlag
      ensures Next(Counter(eventFlag, Idle), Count) == Counter(eventFlag, Counted(value))
    {
      value := eventFlag;
    }

    method Clean()
      modifies this`eventFlag
      ensures eventFlag == 0
      ensures forall value: int32 ::
        Next(Counter(old(eventFlag), Counted(value)), Step.Clean) == Counter(eventFlag, Idle)
    {
      eventFlag := 0;
    }
  }

  /** sw18015_read with interrupts falling between its two ioctls: they are not in the
      value and are cleared with it. */
  method ReadShakes(driver: Driver, between: seq<int>) returns (value: int32)
    modifies driver`eventFlag, driver`timer
    ensures value == old(driver.eventFlag)
    ensures driver.eventFlag == 0
    ensures driver.timer == if between == [] then old(driver.timer) else Some(between[|between| - 1] + 100)
  {
    value := driver.ShakeCount();
    var i := 0;
    while i < |between|
      invariant 0 <= i <= |between|
      invariant driver.timer == if i == 0 then old(driver.timer) else Some(between[i - 1] + QUIET_MS)
    {
      driver.IrqHandler(between[i]);
      i := i + 1;
    }
    driver.Clean();
  }

  // ---- Conservation of counts ----

  /** Where the single reader is; between its ioctls it holds the value it has read. */
  datatype Reader = Idle | Counted(value: int32)

  datatype Counter = Counter(flag: int32, reader: Reader)

  datatype Step = Interrupt | Poll | Count | Clean

  predicate Enabled(c: Counter, step: Step) {
    match step
    case Interrupt | Poll => true
    case Count => c.reader.Idle?
    case Clean => c.reader.Counted?
  }

  function Next(c: Counter, step: Step): Counter {
    match step
    case Interrupt => c.(flag := Increment(c.flag))
    case Poll => c.(flag := 0)
    case Count => c.(reader := Counted(c.flag))
    case Clean => Counter(0, Idle)
  }

  predicate Valid(c: Counter, steps: seq<Step>)
    decreases |steps|
  {
    steps == [] || (Enabled(c, steps[0]) && Valid(Next(c, steps[0]), steps[1..]))
  }

  function Final(c: Counter, steps: seq<Step>): Counter
    requires Valid(c, steps)
    decreases |steps|
  {
    if steps == [] then c else Final(Next(c, steps[0]), steps[1..])
  }

  function Interrupts(steps: seq<Step>): nat {
    if steps == [] then 0 else (if steps[0].Interrupt? then 1 else 0) + Interrupts(steps[1..])
  }

  /** The sum of the values sw18015_read returns. */
  function Returned(c: Counter, steps: seq<Step>): int
    requires Valid(c, steps)
    decreases |steps|
  {
    if steps == [] then 0
    else (if steps[0].Clean? then c.reader.value else 0) + Returned(Next(c, steps[0]), steps[1..])
  }

  /** The interrupts that fall between the two ioctls of a read. */
  function InWindow(c: Counter, steps: seq<Step>): nat
    decreases |steps|
  {
    if steps == [] then 0
    else (if steps[0].Interrupt? && c.reader.Counted? then 1 else 0) + InWindow(Next(c, steps[0]), steps[1..])
  }

  /** The counts polls discard outside a read. */
  function Polled(c: Counter, steps: seq<Step>): int
    decreases |steps|
  {
    if steps == [] then 0
    else (if steps[0].Poll? && c.reader.Idle? then c.flag else 0) + Polled(Next(c, steps[0]), steps[1..])
  }

  /** How often the 32-bit count wraps outside a read. */
  function Wraps(c: Counter, steps: seq<Step>): nat
    decreases |steps|
  {
    if steps == [] then 0
    else
      (if steps[0].Interrupt? && c.reader.Idle? && c.flag == 0x7FFF_FFFF then 1 else 0)
      + Wraps(Next(c, steps[0]), steps[1..])
  }

  /** What a read has still to return: the count, or the value already read. */
  function Outstanding(c: Counter): int {
    if c.reader.Counted? then c.reader.value else c.flag
  }

  /** Conservation, in every interleaving of interrupts, polls and the reader's two
      ioctls: every interrupt is returned by some read, outstanding, in a window between
      the two ioctls, or discarded by a poll, up to wraps of the 32-bit count. */
  lemma {:induction false} CountsConserved(c: Counter, steps: seq<Step>)
    requires Valid(c, steps)
    ensures Outstanding(c) + Interrupts(steps)
         == Returned(c, steps) + InWindow(c, steps) + Polled(c, steps)
            + Outstanding(Final(c, steps)) + TWO_32 * Wraps(c, steps)
    decreases |steps|
  {
    if steps != [] {
      CountsConserved(Next(c, steps[0]), steps[1..]);
      assert Increment(c.flag) == if c.flag == 0x7FFF_FFFF then c.flag + 1 - TWO_32 else c.flag + 1;
    }
  }

  lemma {:induction false} SmallCountsDoNotWrap(c: Counter, steps: seq<Step>)
    requires Valid(c, steps)
    requires 0 <= c.flag && c.flag + Interrupts(steps) < 0x8000_0000
    requires 0 <= Outstanding(c)
    ensures Wraps(c, steps) == 0
    ensures 0 <= Returned(c, steps) && 0 <= Polled(c, steps) && 0 <= Outstanding(Final(c, steps))
    decreases |steps|
  {
    if steps != [] {
      SmallCountsDoNotWrap(Next(c, steps[0]), steps[1..]);
    }
  }

  /** While fewer than 2^31 interrupts occur, reads never over-count; together with the
      outstanding count they are exact if and only if no interrupt fell into a window and
      no poll discarded any. */
  lemma ReadsNeverOverCount(steps: seq<Step>)
    requires Valid(Counter(0, Idle), steps) && Interrupts(steps) < 0x8000_0000
    ensures var c := Counter(0, Idle);
      && Returned(c, steps) + Outstanding(Final(c, steps)) <= Interrupts(steps)
      && (Returned(c, steps) + Outstanding(Final(c, steps)) == Interrupts(steps)
          <==> InWindow(c, steps) == 0 && Polled(c, steps) == 0)
  {
    CountsConserved(Counter(0, Idle), steps);
    SmallCountsDoNotWrap(Counter(0, Idle), steps);
  }

  predicate NoReader(steps: seq<Step>) {
    forall i :: 0 <= i < |steps| ==> steps[i].Interrupt? || steps[i].Poll?
  }

  lemma {:induction false} WindowThenClean(c: Counter, between: seq<Step>)
    requires c.reader.Counted? && NoReader(between)
    ensures var steps := between + [Clean];
      && Valid(c, steps) && Final(c, steps) == Counter(0, Idle)
      && Returned(c, steps) == c.reader.value && InWindow(c, steps) == Interrupts(between)
    decreases |between|
  {
    if between == [] {
      assert between + [Clean] == [Clean] && [Clean][1..] == [];
    } else {
      var rest := between[1..] + [Clean];
      assert between + [Clean] == [between[0]] + rest && ([between[0]] + rest)[1..] == rest;
      WindowThenClean(Next(c, between[0]), between[1..]);
    }
  }

  /** Any interrupts and polls can fall between the two ioctls of a read, and none of the
      interrupts counts: the read returns the count at its first ioctl and leaves 0. */
  lemma WindowLosesAll(c: Counter, between: seq<Step>)
    requires c.reader.Idle? && NoReader(between)
    ensures var read := [Count] + (between + [Clean]);
      && Valid(c, read) && Final(c, read) == Counter(0, Idle)
      && Returned(c, read) == c.flag && InWindow(c, read) == Interrupts(between)
  {
    assert ([Count] + (between + [Clean]))[1..] == between + [Clean];
    WindowThenClean(Next(c, Count), between);
  }

  // ---- The debounced wake-up ----

  /** Interrupts and timer expiries, with their times in milliseconds. */
  datatype Edge = Irq(at: int) | Expiry(at: int)

  predicate Allowed(timer: Option<int>, now: int, e: Edge) {
    && now <= e.at
    && match e
       case Irq(at) => timer.Some? ==> at <= timer.value
       case Expiry(at) => timer == Some(at)
  }

  /** An interrupt re-arms the timer; an expiry, which wakes the pollers, leaves it idle. */
  function TimerAfter(e: Edge): Option<int> {
    match e
    case Irq(at) => Some(at + QUIET_MS)
    case Expiry(_) => None
  }

  predicate ValidRun(timer: Option<int>, now: int, run: seq<Edge>)
    decreases |run|
  {
    run == [] || (Allowed(timer, now, run[0]) && ValidRun(TimerAfter(run[0]), run[0].at, run[1..]))
  }

  function FinalTimer(timer: Option<int>, run: seq<Edge>): Option<int> {
    if run == [] then timer else TimerAfter(run[|run| - 1])
  }

  /** The wake-up still to come after a run. */
  function Pending(timer: Option<int>, run: seq<Edge>): seq<int> {
    match FinalTimer(timer, run) case Some(at) => [at] case None => []
  }

  function IrqTimes(run: seq<Edge>): seq<int> {
    if run == [] then [] else (if run[0].Irq? then [run[0].at] else []) + IrqTimes(run[1..])
  }

  function WakeTimes(run: seq<Edge>): seq<int> {
    if run == [] then [] else (if run[0].Expiry? then [run[0].at] else []) + WakeTimes(run[1..])
  }

  /** The wake-ups that belong to a list of interrupts: one 100 ms after the last interrupt
      of each burst and no other. Gaps below 100 ms continue a burst, gaps above end it;
      at exactly 100 ms interrupt and expiry coincide and either may come first. */
  predicate OneWakePerBurst(irqs: seq<int>, wakes: seq<int>)
    decreases |irqs|
  {
    if irqs == [] then wakes == []
    else if |irqs| == 1 then wakes == [irqs[0] + QUIET_MS]
    else
      var gap := irqs[1] - irqs[0];
      || (gap <= QUIET_MS && OneWakePerBurst(irqs[1..], wakes))
      || (gap >= QUIET_MS && wakes != [] && wakes[0] == irqs[0] + QUIET_MS && OneWakePerBurst(irqs[1..], wakes[1..]))
  }

  lemma {:induction false} FirstIrqNotEarlier(timer: Option<int>, now: int, run: seq<Edge>)
    requires ValidRun(timer, now, run)
    ensures IrqTimes(run) != [] ==> now <= IrqTimes(run)[0]
    decreases |run|
  {
    if run != [] {
      FirstIrqNotEarlier(TimerAfter(run[0]), run[0].at, run[1..]);
    }
  }

  lemma {:induction false} BurstsWakeOnce(timer: Option<int>, last: int, now: int, run: seq<Edge>)
    requires ValidRun(timer, now, run)
    requires timer == None || timer == Some(last + QUIET_MS)
    ensures OneWakePerBurst((if timer == None then [] else [last]) + IrqTimes(run),
                            WakeTimes(run) + Pending(timer, run))
    decreases |run|
  {
    if run != [] {
      var e, rest := run[0], run[1..];
      BurstsWakeOnce(TimerAfter(e), e.at, e.at, rest);
      var irqs, wakes := IrqTimes(rest), WakeTimes(rest) + Pending(TimerAfter(e), rest);
      assert [] + irqs == irqs && [] + WakeTimes(rest) == WakeTimes(rest);
      assert Pending(timer, run) == Pending(TimerAfter(e), rest);
      if e.Irq? {
        assert IrqTimes(run) == [e.at] + irqs && WakeTimes(run) + Pending(timer, run) == wakes;
        if timer == None {
          assert [] + ([e.at] + irqs) == [e.at] + irqs;
        } else {
          BurstGoesOn(last, e.at, irqs, wakes);
        }
      } else {
        assert IrqTimes(run) == irqs && WakeTimes(run) + Pending(timer, run) == [e.at] + wakes;
        FirstIrqNotEarlier(None, e.at, rest);
        BurstOver(last, irqs, wakes);
      }
    }
  }

  lemma BurstGoesOn(last: int, next: int, irqs: seq<int>, wakes: seq<int>)
    requires next - last <= QUIET_MS && OneWakePerBurst([next] + irqs, wakes)
    ensures OneWakePerBurst([last] + ([next] + irqs), wakes)
  {
    assert ([last] + ([next] + irqs))[1..] == [next] + irqs;
  }

  lemma BurstOver(last: int, irqs: seq<int>, wakes: seq<int>)
    requires irqs != [] ==> irqs[0] - last >= QUIET_MS
    requires OneWakePerBurst(irqs, wakes)
    ensures OneWakePerBurst([last] + irqs, [last + QUIET_MS] + wakes)
  {
    assert ([last] + irqs)[1..] == irqs && ([last + QUIET_MS] + wakes)[1..] == wakes;
  }

  /** Debouncing: in every run that starts with the timer idle, each burst of interrupts wakes
      the pollers exactly once, 100 ms after its last interrupt; if the run ends with the
      timer armed, the wake-up of the last burst is the one still to come. */
  lemma DebouncedWakeUp(now: int, run: seq<Edge>)
    requires ValidRun(None, now, run)
    ensures OneWakePerBurst(IrqTimes(run), WakeTimes(run) + Pending(None, run))
  {
    BurstsWakeOnce(None, 0, now, run);
    assert [] + IrqTimes(run) == IrqTimes(run);
  }

  /** The interrupts of a run come in the order of their times. */
  predicate InOrder(times: seq<int>) {
    forall i, j :: 0 <= i < j < |times| ==> times[i] <= times[j]
  }

  lemma {:induction false} IrqsInOrder(timer: Option<int>, now: int, run: seq<Edge>)
    requires ValidRun(timer, now, run)
    ensures InOrder(IrqTimes(run)) && forall u :: u in IrqTimes(run) ==> now <= u
    decreases |run|
  {
    if run != [] {
      IrqsInOrder(TimerAfter(run[0]), run[0].at, run[1..]);
      var rest := IrqTimes(run[1..]);
      assert forall i :: 0 <= i < |rest| ==> rest[i] in rest;
    }
  }

  /** The run with these interrupts in which the timer goes off only when it has to. */
  function RunOf(timer: Option<int>, irqs: seq<int>): seq<Edge>
    decreases |irqs|, timer.Some?
  {
    if irqs == [] then []
    else if timer.Some? && timer.value < irqs[0] then [Expiry(timer.value)] + RunOf(None, irqs)
    else [Irq(irqs[0])] + RunOf(Some(irqs[0] + 100), irqs[1..])
  }

  /** Interrupts may come at any times in order, within a burst or not. */
  lemma {:induction false} AnyInterrupts(timer: Option<int>, now: int, irqs: seq<int>)
    requires InOrder(irqs) && (irqs != [] ==> now <= irqs[0]) && (timer.Some? ==> now <= timer.value)
    ensures ValidRun(timer, now, RunOf(timer, irqs)) && IrqTimes(RunOf(timer, irqs)) == irqs
    decreases |irqs|, timer.Some?
  {
    if irqs != [] {
      if timer.Some? && timer.value < irqs[0] {
        var rest := RunOf(None, irqs);
        AnyInterrupts(None, timer.value, irqs);
        assert ([Expiry(timer.value)] + rest)[1..] == rest;
        assert [] + irqs == irqs;
      } else {
        var rest := RunOf(Some(irqs[0] + 100), irqs[1..]);
        AnyInterrupts(Some(irqs[0] + 100), irqs[0], irqs[1..]);
        assert ([Irq(irqs[0])] + rest)[1..] == rest;
      }
    }
  }

  /** Each wake-up comes 100 ms after an interrupt, with none in between. */
  ghost predicate QuietBefore(irqs: seq<int>, w: int) {
    w - 100 in irqs && forall u :: u in irqs ==> !(w - 100 < u < w)
  }

  /** No interrupt follows within 100 ms. */
  ghost predicate QuietAfter(irqs: seq<int>, u: int) {
    forall v :: v in irqs ==> !(u < v <= u + 100)
  }

  predicate Spaced(wakes: seq<int>) {
    forall i, j :: 0 <= i < j < |wakes| ==> wakes[i] + 100 <= wakes[j]
  }

  lemma {:induction false} WakesMeasured(irqs: seq<int>, wakes: seq<int>)
    requires InOrder(irqs) && OneWakePerBurst(irqs, wakes)
    ensures forall w :: w in wakes ==> QuietBefore(irqs, w) && irqs[0] + 100 <= w
    ensures forall u :: u in irqs && QuietAfter(irqs, u) ==> u + 100 in wakes
    ensures Spaced(wakes)
    decreases |irqs|
  {
    if |irqs| > 1 {
      hide QuietBefore, QuietAfter, Spaced;
      var first, rest := irqs[0], irqs[1..];
      assert irqs == [first] + rest;
      if irqs[1] - first <= QUIET_MS && OneWakePerBurst(rest, wakes) {
        WakesMeasured(rest, wakes);
        BurstMeasured(first, rest, wakes);
      } else {
        WakesMeasured(rest, wakes[1..]);
        assert wakes == [first + QUIET_MS] + wakes[1..];
        EndMeasured(first, rest, wakes[1..]);
        EndSpaced(first, rest[0], wakes[1..]);
      }
    }
  }

  lemma BurstMeasured(first: int, rest: seq<int>, wakes: seq<int>)
    requires rest != [] && InOrder([first] + rest) && rest[0] - first <= QUIET_MS
    requires forall w :: w in wakes ==> QuietBefore(rest, w) && rest[0] + 100 <= w
    requires forall u :: u in rest && QuietAfter(rest, u) ==> u + 100 in wakes
    ensures forall w :: w in wakes ==> QuietBefore([first] + rest, w) && first + 100 <= w
    ensures forall u :: u in [first] + rest && QuietAfter([first] + rest, u) ==> u + 100 in wakes
  {
    FirstIsLeast(first, rest);
    var all := [first] + rest;
    forall w | w in wakes ensures QuietBefore(all, w) && first + 100 <= w {
      assert QuietBefore(rest, w);
    }
    forall u | u in all && QuietAfter(all, u) ensures u + 100 in wakes {
      assert rest[0] in all;
      assert u == first ==> rest[0] == first;
      QuietInTail(first, rest, u);
    }
  }

  lemma QuietInTail(first: int, rest: seq<int>, u: int)
    requires QuietAfter([first] + rest, u)
    ensures QuietAfter(rest, u)
  {
    assert forall v :: v in rest ==> v in [first] + rest;
  }

  lemma EndMeasured(first: int, rest: seq<int>, wakes: seq<int>)
    requires rest != [] && InOrder([first] + rest) && rest[0] - first >= QUIET_MS
    requires forall w :: w in wakes ==> QuietBefore(rest, w) && rest[0] + 100 <= w
    requires forall u :: u in rest && QuietAfter(rest, u) ==> u + 100 in wakes
    ensures forall w :: w in [first + QUIET_MS] + wakes ==> QuietBefore([first] + rest, w) && first + 100 <= w
    ensures forall u :: u in [first] + rest && QuietAfter([first] + rest, u) ==> u + 100 in [first + QUIET_MS] + wakes
  {
    FirstIsLeast(first, rest);
    forall w | w in [first + QUIET_MS] + wakes ensures QuietBefore([first] + rest, w) && first + 100 <= w {
      assert w == first + QUIET_MS || QuietBefore(rest, w);
    }
    forall u | u in [first] + rest && QuietAfter([first] + rest, u) ensures u + 100 in [first + QUIET_MS] + wakes {
      QuietInTail(first, rest, u);
    }
  }

  lemma FirstIsLeast(first: int, rest: seq<int>)
    requires rest != [] && InOrder([first] + rest)
    ensures forall v :: v in rest ==> first <= rest[0] <= v
  {
    var all := [first] + rest;
    assert all[0] == first && all[1] == rest[0];
    forall i | 0 <= i < |rest| ensures rest[0] <= rest[i] {
      assert all[i + 1] == rest[i];
    }
  }

  lemma EndSpaced(first: int, least: int, wakes: seq<int>)
    requires least - first >= QUIET_MS && Spaced(wakes)
    requires forall w :: w in wakes ==> least + 100 <= w
    ensures Spaced([first + QUIET_MS] + wakes)
  {
    assert forall j :: 0 <= j < |wakes| ==>
      ([first + QUIET_MS] + wakes)[j + 1] == wakes[j] && wakes[j] in wakes;
  }

  /** Debouncing in milliseconds, in every run from an idle timer: every wake-up, the pending
      one included, is 100 ms after an interrupt with no other in these 100 ms; every
      interrupt that no other follows within 100 ms has its wake-up; and wake-ups are at
      least 100 ms apart. So two interrupts less than 100 ms apart have none between them. */
  lemma DebounceInMilliseconds(now: int, run: seq<Edge>)
    requires ValidRun(None, now, run)
    ensures var irqs, wakes := IrqTimes(run), WakeTimes(run) + Pending(None, run);
      && (forall w :: w in wakes ==> w - 100 in irqs && forall u :: u in irqs ==> !(w - 100 < u < w))
      && (forall u :: u in irqs && (forall v :: v in irqs ==> !(u < v <= u + 100)) ==> u + 100 in wakes)
      && (forall i, j :: 0 <= i < j < |wakes| ==> wakes[i] + 100 <= wakes[j])
      && (forall u, v, w :: u in irqs && v in irqs && w in wakes && u < v < u + 100 ==> !(u < w <= v))
  {
    DebouncedWakeUp(now, run);
    IrqsInOrder(None, now, run);
    var irqs, wakes := IrqTimes(run), WakeTimes(run) + Pending(None, run);
    WakesMeasured(irqs, wakes);
    assert forall w :: w in wakes ==> QuietBefore(irqs, w);
    assert forall u :: u in irqs && QuietAfter(irqs, u) ==> u + 100 in wakes;
  }

  /** The last interrupts of the bursts, 100 ms later. */
  function BurstEnds(irqs: seq<int>): seq<int> {
    if irqs == [] then []
    else (if |irqs| == 1 || irqs[1] - irqs[0] > QUIET_MS then [irqs[0] + QUIET_MS] else []) + BurstEnds(irqs[1..])
  }

  /** Without such coincidences the wake-ups are determined by the interrupts. */
  lemma {:induction false} WakesAreBurstEnds(irqs: seq<int>, wakes: seq<int>)
    requires OneWakePerBurst(irqs, wakes)
    requires forall i :: 0 < i < |irqs| ==> irqs[i] - irqs[i - 1] != QUIET_MS
    ensures wakes == BurstEnds(irqs)
    decreases |irqs|
  {
    if |irqs| == 1 {
      assert BurstEnds(irqs[1..]) == [];
    } else if |irqs| > 1 {
      var ended := irqs[1] - irqs[0] > QUIET_MS;
      assert forall i :: 0 < i < |irqs[1..]| ==> irqs[1..][i] == irqs[i + 1] && irqs[1..][i - 1] == irqs[i];
      WakesAreBurstEnds(irqs[1..], if ended then wakes[1..] else wakes);
      assert ended ==> wakes == [wakes[0]] + wakes[1..];
      assert [] + BurstEnds(irqs[1..]) == BurstEnds(irqs[1..]);
    }
  }
}
