/** The locks of the running phase: why they cannot deadlock, and what they keep apart.

    The theory is for any number of threads; each thread repeats, in any order, the
    locked sections of its program. A section is structured code: locks are nested. */
module LockOrder {
  import opened CTypes

  datatype Lock = SensorMutex | SendLock | FollowMutex | GpioLock(pin: nat) | IicLock | HlkLock | LogLock

  const TOP := 100

  function Rank(l: Lock): nat {
    match l
    case SensorMutex => 1
    case SendLock => 2
    case FollowMutex => 3
    case GpioLock(pin) => 4
    case IicLock => 5
    case HlkLock => 6
    case LogLock => 7
  }

  /** What the threads share: the published sensor values, sbuf, the mode with the command and
      its data, a GPIO pin, the I2C bus, motion with distance, and the log. */
  datatype Datum = SensorValues | SendBuffer | CommandRegister | Pin(pin: nat) | IicBus | PresencePair | LogFile

  function Guard(d: Datum): Lock {
    match d
    case SensorValues => SensorMutex
    case SendBuffer => SendLock
    case CommandRegister => FollowMutex
    case Pin(pin) => GpioLock(pin)
    case IicBus => IicLock
    case PresencePair => HlkLock
    case LogFile => LogLock
  }

  /** Structured locking code: hold a lock around a body, access shared data, wait on the
      condition variable of a mutex, or stop; then go on. */
  datatype Code =
    | Done
    | Under(lock: Lock, body: Code, next: Code)
    | Touch(datum: Datum, next: Code)
    | CondWait(mutex: Lock, next: Code)

  /** Locks are taken in increasing rank above floor, and a wait on a condition happens
      with its mutex as the only lock held. */
  predicate Ordered(floor: nat, only: Option<Lock>, code: Code)
    decreases code
  {
    match code
    case Done => true
    case Under(l, body, next) =>
      && floor < Rank(l)
      && Ordered(Rank(l), if floor == 0 then Some(l) else None, body)
      && Ordered(floor, only, next)
    case Touch(_, next) => Ordered(floor, only, next)
    case CondWait(m, next) => only == Some(m) && Ordered(floor, only, next)
  }

  /** Every access is made with the lock of its datum held. */
  predicate Guarded(held: set<Lock>, code: Code)
    decreases code
  {
    match code
    case Done => true
    case Under(l, body, next) => Guarded(held + {l}, body) && Guarded(held, next)
    case Touch(d, next) => Guard(d) in held && Guarded(held, next)
    case CondWait(_, next) => Guarded(held, next)
  }

  /** One atomic operation of a thread. */
  datatype Op = Acquire(lock: Lock) | Release(lock: Lock) | Access(datum: Datum) | Wait(mutex: Lock)

  function Flatten(code: Code): seq<Op> {
    match code
    case Done => []
    case Under(l, body, next) => [Acquire(l)] + Flatten(body) + [Release(l)] + Flatten(next)
    case Touch(d, next) => [Access(d)] + Flatten(next)
    case CondWait(m, next) => [Wait(m)] + Flatten(next)
  }

  // ---- Threads and steps ----

  /** The locks a thread holds, the operations left of its current section, and whether
      it sleeps on a condition variable. */
  datatype Thread = Thread(held: set<Lock>, todo: seq<Op>, asleep: bool)

  type System = seq<Thread>

  type Program = seq<Code>

  datatype Step = Begin(thread: nat, section: nat) | Do(thread: nat) | Wake(thread: nat)

  function Init(threads: nat): System {
    seq(threads, _ => Thread({}, [], false))
  }

  predicate Free(s: System, l: Lock) {
    forall u :: 0 <= u < |s| ==> l !in s[u].held
  }

  predicate CanDo(s: System, t: nat) {
    && t < |s| && s[t].todo != [] && !s[t].asleep
    && (s[t].todo[0].Acquire? ==> Free(s, s[t].todo[0].lock))
  }

  predicate Enabled(programs: seq<Program>, s: System, step: Step)
    requires |programs| == |s|
  {
    match step
    case Begin(t, i) => t < |s| && s[t].todo == [] && i < |programs[t]|
    case Do(t) => CanDo(s, t)
    case Wake(t) => t < |s| && s[t].asleep
  }

  /** pthread_cond_wait releases the mutex and sleeps; woken, possibly spuriously, it
      takes the mutex again before it returns. */
  function Perform(x: Thread): Thread
    requires x.todo != []
  {
    var rest := x.todo[1..];
    match x.todo[0]
    case Acquire(l) => Thread(x.held + {l}, rest, false)
    case Release(l) => Thread(x.held - {l}, rest, false)
    case Access(_) => Thread(x.held, rest, false)
    case Wait(m) => Thread(x.held - {m}, [Acquire(m)] + rest, true)
  }

  function Next(programs: seq<Program>, s: System, step: Step): (r: System)
    requires |programs| == |s| && Enabled(programs, s, step)
    ensures |r| == |s|
  {
    match step
    case Begin(t, i) => s[t := s[t].(todo := Flatten(programs[t][i]))]
    case Do(t) => s[t := Perform(s[t])]
    case Wake(t) => s[t := s[t].(asleep := false)]
  }

  predicate Valid(programs: seq<Program>, s: System, steps: seq<Step>)
    requires |programs| == |s|
    decreases |steps|
  {
    steps == [] || (Enabled(programs, s, steps[0]) && Valid(programs, Next(programs, s, steps[0]), steps[1..]))
  }

  function Final(programs: seq<Program>, s: System, steps: seq<Step>): (r: System)
    requires |programs| == |s| && Valid(programs, s, steps)
    ensures |r| == |s|
    decreases |steps|
  {
    if steps == [] then s else Final(programs, Next(programs, s, steps[0]), steps[1..])
  }

  // ---- The discipline, on operations ----

  ghost predicate Above(held: set<Lock>, l: Lock) {
    forall h :: h in held ==> Rank(h) < Rank(l)
  }

  /** The operation is allowed with these locks held. */
  ghost predicate Fits(held: set<Lock>, op: Op) {
    match op
    case Acquire(l) => Above(held, l)
    case Release(l) => l in held
    case Access(d) => Guard(d) in held
    case Wait(m) => held == {m}
  }

  /** The locks held once the operation has returned. */
  function HeldAfter(held: set<Lock>, op: Op): set<Lock> {
    match op
    case Acquire(l) => held + {l}
    case Release(l) => held - {l}
    case Access(_) | Wait(_) => held
  }

  /** What is left to do keeps the order and ends with no lock held. */
  ghost predicate Disciplined(held: set<Lock>, todo: seq<Op>)
    decreases |todo|
  {
    if todo == [] then held == {}
    else Fits(held, todo[0]) && Disciplined(HeldAfter(held, todo[0]), todo[1..])
  }

  lemma DisciplinedCons(held: set<Lock>, op: Op, rest: seq<Op>)
    ensures Disciplined(held, [op] + rest) <==> Fits(held, op) && Disciplined(HeldAfter(held, op), rest)
  {
    assert ([op] + rest)[1..] == rest;
  }

  lemma ReleaseIsDisciplined(held: set<Lock>, l: Lock, after: seq<Op>)
    requires Above(held, l) && Disciplined(held, after)
    ensures Disciplined(held + {l}, [Release(l)] + after)
  {
    assert held + {l} - {l} == held;
    DisciplinedCons(held + {l}, Release(l), after);
  }

  lemma AcquireIsDisciplined(held: set<Lock>, l: Lock, after: seq<Op>)
    requires Above(held, l) && Disciplined(held + {l}, after)
    ensures Disciplined(held, [Acquire(l)] + after)
  {
    DisciplinedCons(held, Acquire(l), after);
  }

  lemma TouchIsDisciplined(held: set<Lock>, d: Datum, after: seq<Op>)
    requires Guard(d) in held && Disciplined(held, after)
    ensures Disciplined(held, [Access(d)] + after)
  {
    DisciplinedCons(held, Access(d), after);
  }

  lemma WaitIsDisciplined(m: Lock, after: seq<Op>)
    requires Disciplined({m}, after)
    ensures Disciplined({m}, [Wait(m)] + after)
  {
    DisciplinedCons({m}, Wait(m), after);
  }

  /** Ordered nesting with guarded accesses makes disciplined operations. */
  lemma {:induction false} OrderedIsDisciplined(held: set<Lock>, floor: nat, only: Option<Lock>,
                                                code: Code, rest: seq<Op>)
    requires Ordered(floor, only, code) && Guarded(held, code)
    requires forall h :: h in held ==> Rank(h) <= floor
    requires floor == 0 ==> held == {} && only == None
    requires only.Some? ==> held == {only.value}
    requires Disciplined(held, rest)
    ensures Disciplined(held, Flatten(code) + rest)
    decreases code
  {
    hide Disciplined, Flatten, Rank, Guard;
    FlattenThen(code, rest);
    match code
    case Done =>
    case Under(l, body, next) =>
      var after := Flatten(next) + rest;
      OrderedIsDisciplined(held, floor, only, next, rest);
      assert Above(held, l);
      ReleaseIsDisciplined(held, l, after);
      OrderedIsDisciplined(held + {l}, Rank(l), if floor == 0 then Some(l) else None, body, [Release(l)] + after);
      AcquireIsDisciplined(held, l, Flatten(body) + ([Release(l)] + after));
    case Touch(d, next) =>
      OrderedIsDisciplined(held, floor, only, next, rest);
      TouchIsDisciplined(held, d, Flatten(next) + rest);
    case CondWait(m, next) =>
      OrderedIsDisciplined(held, floor, only, next, rest);
      WaitIsDisciplined(m, Flatten(next) + rest);
  }

  lemma FlattenThen(code: Code, rest: seq<Op>)
    ensures Flatten(code) + rest ==
      match code
      case Done => rest
      case Under(l, body, next) => [Acquire(l)] + (Flatten(body) + ([Release(l)] + (Flatten(next) + rest)))
      case Touch(d, next) => [Access(d)] + (Flatten(next) + rest)
      case CondWait(m, next) => [Wait(m)] + (Flatten(next) + rest)
  {
  }

  predicate AllOrdered(programs: seq<Program>) {
    forall t, i :: 0 <= t < |programs| && 0 <= i < |programs[t]| ==> Sectioned(programs[t][i])
  }

  /** A locked section a thread may begin with no lock held. */
  predicate Sectioned(code: Code) {
    Ordered(0, None, code) && Guarded({}, code)
  }

  // ---- What every step keeps ----

  ghost predicate Exclusive(s: System) {
    forall t, u, l :: 0 <= t < |s| && 0 <= u < |s| && l in s[t].held && l in s[u].held ==> t == u
  }

  ghost predicate ThreadOk(x: Thread) {
    && Disciplined(x.held, x.todo)
    && (x.asleep ==> x.held == {} && x.todo != [])
  }

  ghost predicate Inv(s: System) {
    && Exclusive(s)
    && forall t :: 0 <= t < |s| ==> ThreadOk(s[t])
  }

  lemma PerformKeepsOk(x: Thread)
    requires ThreadOk(x) && x.todo != [] && !x.asleep
    ensures ThreadOk(Perform(x))
  {
    if x.todo[0].Wait? {
      var m := x.todo[0].mutex;
      assert x.held - {m} + {m} == x.held;
      DisciplinedCons(x.held - {m}, Acquire(m), x.todo[1..]);
    }
  }

  lemma StepKeepsInv(programs: seq<Program>, s: System, step: Step)
    requires |programs| == |s| && AllOrdered(programs)
    requires Inv(s) && Enabled(programs, s, step)
    ensures Inv(Next(programs, s, step))
  {
    var r, t := Next(programs, s, step), step.thread;
    match step {
      case Begin(_, i) =>
        OrderedIsDisciplined({}, 0, None, programs[t][i], []);
        assert Flatten(programs[t][i]) + [] == Flatten(programs[t][i]);
      case Do(_) =>
        PerformKeepsOk(s[t]);
      case Wake(_) =>
    }
    assert forall u :: 0 <= u < |s| && u != t ==> r[u] == s[u];
    assert forall l :: l in r[t].held ==> l in s[t].held || Free(s, l);
  }

  lemma {:induction false} RunKeepsInv(programs: seq<Program>, s: System, steps: seq<Step>)
    requires |programs| == |s| && AllOrdered(programs)
    requires Inv(s) && Valid(programs, s, steps)
    ensures Inv(Final(programs, s, steps))
    decreases |steps|
  {
    if steps != [] {
      StepKeepsInv(programs, s, steps[0]);
      RunKeepsInv(programs, Next(programs, s, steps[0]), steps[1..]);
    }
  }

  // ---- Mutual exclusion ----

  /** The next thing t does is an access to d. */
  predicate AtAccess(s: System, t: nat, d: Datum) {
    t < |s| && s[t].todo != [] && s[t].todo[0] == Access(d)
  }

  /** In no reachable state two threads are at an access to the same datum. */
  lemma MutualExclusion(programs: seq<Program>, steps: seq<Step>, t: nat, u: nat, d: Datum)
    requires AllOrdered(programs) && Valid(programs, Init(|programs|), steps)
    requires AtAccess(Final(programs, Init(|programs|), steps), t, d)
    requires AtAccess(Final(programs, Init(|programs|), steps), u, d)
    ensures t == u
  {
    RunKeepsInv(programs, Init(|programs|), steps);
    var s := Final(programs, Init(|programs|), steps);
    assert Guard(d) in s[t].held && Guard(d) in s[u].held;
  }

  /** A wait gives its mutex up and sleeps until a wake-up, and then needs the mutex again. */
  lemma WaitGivesUp(programs: seq<Program>, steps: seq<Step>, t: nat, m: Lock)
    requires AllOrdered(programs) && Valid(programs, Init(|programs|), steps)
    requires var s := Final(programs, Init(|programs|), steps);
      CanDo(s, t) && s[t].todo[0] == Wait(m)
    ensures var r := Next(programs, Final(programs, Init(|programs|), steps), Do(t));
      && Free(r, m) && r[t].held == {} && !CanDo(r, t) && Enabled(programs, r, Wake(t))
      && Next(programs, r, Wake(t))[t].todo[0] == Acquire(m) && CanDo(Next(programs, r, Wake(t)), t)
  {
    RunKeepsInv(programs, Init(|programs|), steps);
    var s := Final(programs, Init(|programs|), steps);
    assert s[t].held == {m};
  }

  // ---- Deadlock freedom ----

  /** t is blocked on a lock that u holds. */
  ghost predicate WaitsFor(s: System, t: nat, u: nat) {
    && t < |s| && u < |s|
    && s[t].todo != [] && s[t].todo[0].Acquire?
    && s[t].todo[0].lock in s[u].held
  }

  ghost predicate Chain(s: System, chain: seq<nat>) {
    forall i :: 0 <= i < |chain| - 1 ==> WaitsFor(s, chain[i], chain[i + 1])
  }

  /** A lock holder that cannot step waits for a lock of higher rank than any it holds. */
  lemma BlockedHolder(s: System, t: nat) returns (u: nat)
    requires Inv(s) && t < |s| && s[t].held != {} && !CanDo(s, t)
    ensures WaitsFor(s, t, u) && Above(s[t].held, s[t].todo[0].lock)
  {
    var l := s[t].todo[0].lock;
    u :| 0 <= u < |s| && l in s[u].held;
  }

  /** From every lock holder a chain of waits leads to a lock holder that can step. */
  lemma ChainToRunner(s: System, t: nat, held: Lock) returns (chain: seq<nat>)
    requires Inv(s) && t < |s| && held in s[t].held
    ensures chain != [] && chain[0] == t && Chain(s, chain)
    ensures CanDo(s, chain[|chain| - 1]) && s[chain[|chain| - 1]].held != {}
    decreases TOP - Rank(held)
  {
    if CanDo(s, t) {
      chain := [t];
    } else {
      var u := BlockedHolder(s, t);
      var rest := ChainToRunner(s, u, s[t].todo[0].lock);
      chain := [t] + rest;
      forall i | 0 <= i < |chain| - 1 ensures WaitsFor(s, chain[i], chain[i + 1]) {
        if i > 0 {
          assert WaitsFor(s, rest[i - 1], rest[i]);
        }
      }
    }
  }

  lemma {:induction false} RanksGrow(s: System, chain: seq<nat>, i: nat)
    requires Inv(s) && Chain(s, chain) && i < |chain| - 1
    ensures WaitsFor(s, chain[0], chain[1]) && WaitsFor(s, chain[i], chain[i + 1])
    ensures Rank(s[chain[0]].todo[0].lock) + i <= Rank(s[chain[i]].todo[0].lock)
  {
    if i > 0 {
      RanksGrow(s, chain, i - 1);
      var t := chain[i];
      assert s[chain[i - 1]].todo[0].lock in s[t].held;
      assert WaitsFor(s, t, chain[i + 1]) && Above(s[t].held, s[t].todo[0].lock);
    }
  }

  /** The wait-for relation has no cycle, in any reachable state. */
  lemma NoWaitCycle(programs: seq<Program>, steps: seq<Step>, chain: seq<nat>)
    requires AllOrdered(programs) && Valid(programs, Init(|programs|), steps)
    requires |chain| >= 2 && Chain(Final(programs, Init(|programs|), steps), chain)
    ensures chain[0] != chain[|chain| - 1]
  {
    RunKeepsInv(programs, Init(|programs|), steps);
    var s := Final(programs, Init(|programs|), steps);
    if chain[0] == chain[|chain| - 1] {
      var around := chain + [chain[1]];
      forall i | 0 <= i < |around| - 1 ensures WaitsFor(s, around[i], around[i + 1]) {
        assert i < |chain| - 1 ==> WaitsFor(s, chain[i], chain[i + 1]);
        assert WaitsFor(s, chain[0], chain[1]);
      }
      RanksGrow(s, around, |chain| - 1);
      assert false;
    }
  }

  /** Deadlock freedom: in every reachable state, whoever waits for a lock waits, through
      a chain of holders, for a thread that can step. */
  lemma NoDeadlock(programs: seq<Program>, steps: seq<Step>, t: nat, u: nat) returns (chain: seq<nat>)
    requires AllOrdered(programs) && Valid(programs, Init(|programs|), steps)
    requires WaitsFor(Final(programs, Init(|programs|), steps), t, u)
    ensures var s := Final(programs, Init(|programs|), steps);
      && |chain| >= 2 && chain[0] == t && chain[1] == u && Chain(s, chain)
      && CanDo(s, chain[|chain| - 1])
  {
    RunKeepsInv(programs, Init(|programs|), steps);
    var s := Final(programs, Init(|programs|), steps);
    var rest := ChainToRunner(s, u, s[t].todo[0].lock);
    chain := [t] + rest;
    forall i | 0 <= i < |chain| - 1 ensures WaitsFor(s, chain[i], chain[i + 1]) {
      if i > 0 {
        assert WaitsFor(s, rest[i - 1], rest[i]);
      }
    }
  }

  // ---- Every lock can always be released ----

  /** Operations left before a thread holds nothing; a wait costs one more for the lock it retakes. */
  function Work(todo: seq<Op>): nat {
    if todo == [] then 0 else (if todo[0].Wait? then 2 else 1) + Work(todo[1..])
  }

  function TotalWork(s: System): nat {
    if s == [] then 0 else Work(s[0].todo) + TotalWork(s[1..])
  }

  lemma {:induction false} TotalWorkUpdate(s: System, t: nat, x: Thread)
    requires t < |s| && Work(x.todo) < Work(s[t].todo)
    ensures TotalWork(s[t := x]) < TotalWork(s)
  {
    if t == 0 {
      assert s[0 := x][1..] == s[1..];
    } else {
      assert s[t := x][1..] == s[1..][t - 1 := x];
      TotalWorkUpdate(s[1..], t - 1, x);
    }
  }

  lemma PerformWorks(x: Thread)
    requires x.todo != []
    ensures Work(Perform(x).todo) < Work(x.todo)
  {
    if x.todo[0].Wait? {
      assert ([Acquire(x.todo[0].mutex)] + x.todo[1..])[1..] == x.todo[1..];
    }
  }

  ghost predicate AllFree(s: System) {
    forall t :: 0 <= t < |s| ==> s[t].held == {}
  }

  lemma DrainFrom(programs: seq<Program>, s: System) returns (steps: seq<Step>)
    requires |programs| == |s| && AllOrdered(programs) && Inv(s)
    ensures Valid(programs, s, steps) && AllFree(Final(programs, s, steps))
    ensures forall i :: 0 <= i < |steps| ==> steps[i].Do?
    decreases TotalWork(s)
  {
    if AllFree(s) {
      steps := [];
    } else {
      var t :| 0 <= t < |s| && s[t].held != {};
      var l :| l in s[t].held;
      var chain := ChainToRunner(s, t, l);
      var step := Do(chain[|chain| - 1]);
      StepKeepsInv(programs, s, step);
      PerformWorks(s[step.thread]);
      TotalWorkUpdate(s, step.thread, Perform(s[step.thread]));
      var rest := DrainFrom(programs, Next(programs, s, step));
      steps := [step] + rest;
      assert steps[1..] == rest;
    }
  }

  /** From every reachable state the threads can run on, without starting anything new and
      without any wake-up, to a state where every lock is free. */
  lemma LocksCanAlwaysBeReleased(programs: seq<Program>, before: seq<Step>) returns (steps: seq<Step>)
    requires AllOrdered(programs) && Valid(programs, Init(|programs|), before)
    ensures Valid(programs, Final(programs, Init(|programs|), before), steps)
    ensures AllFree(Final(programs, Final(programs, Init(|programs|), before), steps))
    ensures forall i :: 0 <= i < |steps| ==> steps[i].Do?
  {
    RunKeepsInv(programs, Init(|programs|), before);
    steps := DrainFrom(programs, Final(programs, Init(|programs|), before));
  }

  /** Left alone, with no other thread holding a lock, a thread gets to the end of its section. */
  lemma RunsAlone(programs: seq<Program>, s: System, t: nat) returns (steps: seq<Step>)
    requires |programs| == |s| && AllOrdered(programs) && Inv(s) && t < |s|
    requires forall u :: 0 <= u < |s| && u != t ==> s[u].held == {}
    ensures Valid(programs, s, steps) && Final(programs, s, steps) == s[t := Thread({}, [], false)]
    ensures forall i :: 0 <= i < |steps| ==> steps[i].thread == t
    decreases Work(s[t].todo), s[t].asleep
  {
    if s[t].todo == [] {
      steps := [];
      assert s[t := Thread({}, [], false)] == s;
    } else {
      var step := if s[t].asleep then Wake(t) else Do(t);
      assert forall l :: l in s[t].held || Free(s, l);
      if !s[t].asleep {
        PerformWorks(s[t]);
      }
      StepKeepsInv(programs, s, step);
      var r := Next(programs, s, step);
      var rest := RunsAlone(programs, r, t);
      steps := [step] + rest;
      assert steps[1..] == rest;
      assert r[t := Thread({}, [], false)] == s[t := Thread({}, [], false)];
    }
  }

  /** Every section of every thread can be begun and run to its end. */
  lemma EverySectionRuns(programs: seq<Program>, t: nat, i: nat) returns (steps: seq<Step>)
    requires AllOrdered(programs) && t < |programs| && i < |programs[t]|
    ensures steps != [] && steps[0] == Begin(t, i)
    ensures Valid(programs, Init(|programs|), steps)
    ensures Final(programs, Init(|programs|), steps) == Init(|programs|)
    ensures forall k :: 0 <= k < |steps| ==> steps[k].thread == t
  {
    var s := Init(|programs|);
    StepKeepsInv(programs, s, Begin(t, i));
    var r := Next(programs, s, Begin(t, i));
    var rest := RunsAlone(programs, r, t);
    steps := [Begin(t, i)] + rest;
    assert steps[1..] == rest;
    assert r[t := Thread({}, [], false)] == s;
  }

  // ---- The program ----

  /** A lock held just around an access to its datum. */
  function Use(d: Datum, next: Code): Code {
    Under(Guard(d), Touch(d, Done), next)
  }

  function Log(next: Code): Code {
    Use(LogFile, next)
  }

  /** stlr_comm_send looks at sbuf under send_lock, and fills it or logs that it is full. */
  function SendCode(full: bool, next: Code): Code {
    Under(SendLock, Touch(SendBuffer, if full then Log(Done) else Touch(SendBuffer, Done)), next)
  }

  /** set_chassis_speed writes the four direction pins one after the other. */
  function SpeedCode(next: Code): Code {
    Use(Pin(73), Use(Pin(72), Use(Pin(70), Use(Pin(69), next))))
  }

  /** The sensors read in auto mode. */
  function SensorsCode(next: Code): Code {
    Use(IicBus, Use(IicBus, Use(PresencePair, Use(PresencePair, Use(IicBus, Use(IicBus, next))))))
  }

  /** A follow pass: it looks at the register first, with follow_mutex held. */
  function PassCode(then': Code): Code {
    Under(FollowMutex, Touch(CommandRegister, then'), Done)
  }

  /** sensor_loop: two I2C transfers of the AHT10, warnings, and the locked publication
      with a send that finds no client, a free slot or a full one. */
  function SensorProgram(): Program {
    [Use(IicBus, Done), Log(Done),
     Under(SensorMutex, Touch(SensorValues, Done), Done),
     Under(SensorMutex, Touch(SensorValues, SendCode(false, Done)), Done),
     Under(SensorMutex, Touch(SensorValues, SendCode(true, Done)), Done)]
  }

  /** comm_loop and comm_receive_callback: logging, the register, the reply, the flush. */
  function CommProgram(): Program {
    [Log(Done),
     Log(Use(CommandRegister, Log(Done))),
     Log(Use(CommandRegister, Log(SendCode(false, Done)))),
     Log(Use(CommandRegister, Log(SendCode(true, Done)))),
     Use(SendBuffer, Done)]
  }

  /** stlr_follow_loop: auto mode reading the sensors, with and without the closing log
      line, or not reading them; remote mode driving, steering or rejecting; no mode yet. */
  function FollowProgram(): Program {
    [PassCode(SensorsCode(Log(Done))),
     PassCode(SensorsCode(Done)),
     PassCode(Done),
     PassCode(Log(SpeedCode(Log(CondWait(FollowMutex, Done))))),
     PassCode(Log(Log(CondWait(FollowMutex, Done)))),
     PassCode(Log(Log(Log(CondWait(FollowMutex, Done))))),
     PassCode(Log(CondWait(FollowMutex, Done))),
     PassCode(CondWait(FollowMutex, Done))]
  }

  /** hlk2411_loop: a warning, or the publication of a frame. */
  function HlkProgram(): Program {
    [Log(Done), Use(PresencePair, Done)]
  }

  function StrollerPrograms(): seq<Program> {
    [SensorProgram(), CommProgram(), FollowProgram(), HlkProgram()]
  }

  /** The four threads of the stroller take their locks in rank order and make every access
      under its lock, so MutualExclusion, NoDeadlock, NoWaitCycle and LocksCanAlwaysBeReleased
      hold of them. */
  lemma StrollerIsOrdered()
    ensures AllOrdered(StrollerPrograms())
  {
    hide Sectioned;
    FollowIsOrdered();
    OthersAreOrdered();
  }

  lemma FollowIsOrdered()
    ensures forall i :: 0 <= i < |FollowProgram()| ==> Sectioned(FollowProgram()[i])
  {
  }

  lemma OthersAreOrdered()
    ensures forall i :: 0 <= i < |SensorProgram()| ==> Sectioned(SensorProgram()[i])
    ensures forall i :: 0 <= i < |CommProgram()| ==> Sectioned(CommProgram()[i])
    ensures forall i :: 0 <= i < |HlkProgram()| ==> Sectioned(HlkProgram()[i])
  {
  }

  predicate Touches(code: Code, d: Datum) {
    match code
    case Done => false
    case Under(_, body, next) => Touches(body, d) || Touches(next, d)
    case Touch(e, next) => e == d || Touches(next, d)
    case CondWait(_, next) => Touches(next, d)
  }

  predicate SomeTouches(program: Program, d: Datum) {
    exists i :: 0 <= i < |program| && Touches(program[i], d)
  }

  /** What the threads have in common, so that MutualExclusion keeps it apart: sbuf is accessed by
      sensor and comm thread, the register by comm thread and in every follow pass, the
      presence pair by follow and decoder thread, and all of them log. */
  lemma StrollerShares()
    ensures SomeTouches(SensorProgram(), SendBuffer) && SomeTouches(CommProgram(), SendBuffer)
    ensures SomeTouches(CommProgram(), CommandRegister)
    ensures forall i :: 0 <= i < |FollowProgram()| ==> Touches(FollowProgram()[i], CommandRegister)
    ensures SomeTouches(FollowProgram(), PresencePair) && SomeTouches(HlkProgram(), PresencePair)
    ensures SomeTouches(SensorProgram(), LogFile) && SomeTouches(CommProgram(), LogFile)
    ensures SomeTouches(FollowProgram(), LogFile) && SomeTouches(HlkProgram(), LogFile)
  {
    hide SomeTouches;
    CommShares();
    FollowShares();
    SensorShares();
    PassesTouch();
  }

  lemma SensorShares()
    ensures SomeTouches(SensorProgram(), SendBuffer) && SomeTouches(SensorProgram(), LogFile)
    ensures SomeTouches(HlkProgram(), PresencePair) && SomeTouches(HlkProgram(), LogFile)
  {
    assert Touches(SensorProgram()[3], SendBuffer) && Touches(SensorProgram()[1], LogFile);
    assert Touches(HlkProgram()[1], PresencePair) && Touches(HlkProgram()[0], LogFile);
  }

  lemma CommShares()
    ensures SomeTouches(CommProgram(), SendBuffer) && SomeTouches(CommProgram(), LogFile)
    ensures SomeTouches(CommProgram(), CommandRegister)
  {
    assert Touches(CommProgram()[4], SendBuffer) && Touches(CommProgram()[0], LogFile);
    assert Touches(CommProgram()[1], CommandRegister);
  }

  lemma FollowShares()
    ensures SomeTouches(FollowProgram(), PresencePair) && SomeTouches(FollowProgram(), LogFile)
  {
    assert Touches(SensorsCode(Log(Done)), PresencePair) && Touches(Log(Done), LogFile);
    assert Touches(FollowProgram()[0], PresencePair) && Touches(FollowProgram()[6], LogFile);
  }

  lemma PassesTouch()
    ensures forall i :: 0 <= i < |FollowProgram()| ==> Touches(FollowProgram()[i], CommandRegister)
  {
  }
}
