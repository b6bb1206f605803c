/** The pin waveform the PWM automaton produces, against its closed form. */
module Waveform {
  import opened CTypes
  import opened SoftPwm

  /** A started channel whose settings keep the 32-bit delay arithmetic exact. */
  predicate Cycling(p: Pwm) {
    && Inv(p)
    && p.expiry.Some? && p.status != Disable
    && p.duty <= p.period && 0 < p.period && p.period * 1000 < TWO_32
  }

  lemma WrapsIffOutside(x: int)
    ensures U32(x) == x <==> 0 <= x < TWO_32
  {
    var q := x / TWO_32;
    assert x == q * TWO_32 + U32(x);
  }

  /** Exactly when the 32-bit delay of the high phase is the duty: iff that many
      nanoseconds fit 32 bits. */
  lemma HighDelayExact(p: Pwm)
    requires p.expiry.Some? && (p.status == Start || p.status == Rising)
    ensures Fire(p).expiry == Some(p.expiry.value + p.duty * 1000) <==> p.duty * 1000 < TWO_32
  {
    hide U32;
    WrapsIffOutside(p.duty * 1000);
  }

  /** Exactly when the 32-bit delay of the low phase is the rest of the period: iff the
      duty is within the period; otherwise the unsigned subtraction wraps. */
  lemma LowDelayExact(p: Pwm)
    requires p.expiry.Some? && p.status == Falling && p.period * 1000 < TWO_32
    ensures Fire(p).expiry == Some(p.expiry.value + (p.period - p.duty) * 1000) <==> p.duty <= p.period
  {
    hide U32;
    WrapsIffOutside(p.period - p.duty);
    WrapsIffOutside((p.period - p.duty) * 1000);
  }

  /** Firing a cycling channel, without the 32-bit detours. */
  lemma FireExact(p: Pwm)
    requires Cycling(p)
    ensures Cycling(Fire(p)) && Fire(p).duty == p.duty && Fire(p).period == p.period
    ensures p.status != Falling ==>
      Fire(p).status == Falling && Fire(p).pin && Fire(p).expiry == Some(p.expiry.value + p.duty * 1000)
    ensures p.status == Falling ==>
      Fire(p).status == Rising && !Fire(p).pin && Fire(p).expiry == Some(p.expiry.value + (p.period - p.duty) * 1000)
  {
  }

  /** n whole periods, in nanoseconds. */
  function Periods(n: int, period: nat): int {
    n * (period * 1000)
  }

  lemma PeriodsNext(n: int, period: nat)
    ensures Periods(n + 1, period) == Periods(n, period) + period * 1000
    ensures Periods(0, period) == 0
  {
  }

  /** The timer runs k more times and no ioctl comes in between. */
  function Fires(p: Pwm, k: nat): (q: Pwm)
    requires Cycling(p)
    ensures Cycling(q) && q.duty == p.duty && q.period == p.period
  {
    if k == 0 then p else FireExact(Fires(p, k - 1)); Fire(Fires(p, k - 1))
  }

  /** The first instant from now on at which the pin goes high. */
  function NextRise(p: Pwm): int
    requires Cycling(p)
  {
    if p.status == Falling then p.expiry.value + (p.period - p.duty) * 1000 else p.expiry.value
  }

  /** After k firings the channel is the one seen at time t: every due expiry has been handled. */
  predicate SeenAt(p: Pwm, k: nat, t: int)
    requires Cycling(p)
  {
    && (k > 0 ==> Fires(p, k - 1).expiry.value <= t)
    && t < Fires(p, k).expiry.value
  }

  /** The pin of an ideal PWM, x nanoseconds after a rising edge. */
  predicate Ideal(x: nat, duty: nat, period: nat)
    requires period > 0
  {
    x % (period * 1000) < duty * 1000
  }

  // ---- Phases counted from a rising edge ----

  predicate JustRisen(p: Pwm, rise: int) {
    Cycling(p) && p.status == Falling && p.expiry == Some(rise + p.duty * 1000)
  }

  /** The k-th firing after a rising edge: k / 2 whole periods have gone by. */
  lemma {:induction false} Phases(p: Pwm, rise: int, k: nat)
    requires JustRisen(p, rise)
    ensures var q, n := Fires(p, k), k / 2;
      if k % 2 == 0 then q.status == Falling && q.pin && q.expiry == Some(rise + Periods(n, p.period) + p.duty * 1000)
      else q.status == Rising && !q.pin && q.expiry == Some(rise + Periods(n + 1, p.period))
  {
    hide Fire, Periods, U32;
    PeriodsNext(k / 2, p.period);
    if k > 0 {
      Phases(p, rise, k - 1);
      FireExact(Fires(p, k - 1));
      assert k % 2 == 0 ==> k / 2 == (k - 1) / 2 + 1;
    }
  }

  /** The segment of the waveform a firing starts: from, to, level. */
  lemma Segment(p: Pwm, rise: int, k: nat)
    requires JustRisen(p, rise)
    ensures var n, from := k / 2, if k == 0 then rise else Fires(p, k - 1).expiry.value;
      if k % 2 == 0 then
        && Fires(p, k).pin
        && from == rise + Periods(n, p.period)
        && Fires(p, k).expiry.value == from + p.duty * 1000
      else
        && !Fires(p, k).pin
        && from == rise + Periods(n, p.period) + p.duty * 1000
        && Fires(p, k).expiry.value == rise + Periods(n, p.period) + p.period * 1000
  {
    assert Fires(p, 0) == p;
    hide Fires, Periods;
    Phases(p, rise, k);
    PeriodsNext(k / 2, p.period);
    if k > 0 {
      Phases(p, rise, k - 1);
      assert k % 2 == 0 ==> k / 2 == (k - 1) / 2 + 1;
    }
  }

  lemma IdealInPeriod(n: nat, x: nat, duty: nat, period: nat)
    requires 0 < period && x < period * 1000
    ensures Periods(n, period) + x >= 0
    ensures Ideal(Periods(n, period) + x, duty, period) <==> x < duty * 1000
    ensures (Periods(n, period) + x) / (period * 1000) == n
    ensures (Periods(n, period) + x) % (period * 1000) == x
  {
    QuotientUnique(Periods(n, period) + x, n, x, period * 1000);
  }

  lemma IdealFromRise(p: Pwm, rise: int, k: nat, t: int)
    requires JustRisen(p, rise) && rise <= t && SeenAt(p, k, t)
    ensures Fires(p, k).pin <==> Ideal(t - rise, p.duty, p.period)
    ensures k / 2 == (t - rise) / (p.period * 1000)
    ensures (t - rise) % (p.period * 1000) == t - rise - Periods(k / 2, p.period)
  {
    hide Fires, Periods, Ideal;
    Segment(p, rise, k);
    IdealInPeriod(k / 2, t - rise - Periods(k / 2, p.period), p.duty, p.period);
  }

  // ---- The refinement theorem, from any started state ----

  function ToRise(p: Pwm): nat {
    if p.status == Falling then 2 else 1
  }

  lemma ReachesRise(p: Pwm)
    requires Cycling(p)
    ensures JustRisen(Fires(p, ToRise(p)), NextRise(p))
    ensures Fires(p, ToRise(p) - 1).expiry == Some(NextRise(p))
    ensures p.expiry.value <= NextRise(p)
  {
    hide Fire;
    FireExact(p);
    FireExact(Fire(p));
    assert Fires(p, 1) == Fire(Fires(p, 0));
    assert ToRise(p) == 2 ==> Fires(p, 2) == Fire(Fires(p, 1));
  }

  lemma {:induction false} FiresAdd(p: Pwm, j: nat, k: nat)
    requires Cycling(p)
    ensures Fires(p, j + k) == Fires(Fires(p, j), k)
  {
    if k > 0 {
      FiresAdd(p, j, k - 1);
    }
  }

  lemma FiresNone(p: Pwm)
    requires Cycling(p)
    ensures Fires(p, 0) == p
  {
  }

  lemma SeenAfterRise(p: Pwm, k: nat, t: int)
    requires Cycling(p) && NextRise(p) <= t && SeenAt(p, k, t)
    ensures k >= ToRise(p)
    ensures SeenAt(Fires(p, ToRise(p)), k - ToRise(p), t)
  {
    hide NextRise, Fires, Fire, Cycling;
    ReachesRise(p);
    FiresNone(p);
    var j := ToRise(p);
    assert k != j - 1 && k != 0;
    FiresAdd(p, j, k - j);
    if k > j {
      FiresAdd(p, j, k - j - 1);
    }
  }

  /** Refinement: however the channel was started and whenever the duty was last set,
      from the next rising edge on the pin is, at every instant, high exactly when an
      ideal PWM of the same duty and period is. */
  lemma RefinesIdeal(p: Pwm, k: nat, t: int)
    requires Cycling(p) && NextRise(p) <= t && SeenAt(p, k, t)
    ensures Fires(p, k).pin <==> Ideal(t - NextRise(p), p.duty, p.period)
  {
    ReachesRise(p);
    SeenAfterRise(p, k, t);
    FiresAdd(p, ToRise(p), k - ToRise(p));
    IdealFromRise(Fires(p, ToRise(p)), NextRise(p), k - ToRise(p), t);
  }

  /** The firings as a timed run of the automaton. */
  function ExpiryRun(p: Pwm, k: nat): seq<Timed>
    requires Cycling(p)
    decreases k
  {
    if k == 0 then []
    else
      FireExact(p);
      [Timed(p.expiry.value, Expire)] + ExpiryRun(Fire(p), k - 1)
  }

  lemma {:induction false} FiresAreRun(p: Pwm, now: int, k: nat)
    requires Cycling(p) && now <= p.expiry.value
    ensures Valid(p, now, ExpiryRun(p, k))
    ensures Final(p, now, ExpiryRun(p, k)) == Fires(p, k)
    decreases k
  {
    if k > 0 {
      FireExact(p);
      var e := Timed(p.expiry.value, Expire);
      var rest := ExpiryRun(Fire(p), k - 1);
      FiresAreRun(Fire(p), e.at, k - 1);
      assert ([e] + rest)[1..] == rest;
      assert Fires(p, 1) == Fire(Fires(p, 0));
      FiresAdd(p, 1, k - 1);
    }
  }

  lemma SplitPeriods(x: nat, period: nat) returns (n: nat, rest: nat)
    requires period > 0
    ensures x == Periods(n, period) + rest && rest < period * 1000
  {
    n, rest := x / (period * 1000), x % (period * 1000);
  }

  lemma SeenFromRise(p: Pwm, rise: int, t: int) returns (k: nat)
    requires JustRisen(p, rise) && rise <= t
    ensures SeenAt(p, k, t)
  {
    hide Fires, Periods;
    var n, x := SplitPeriods(t - rise, p.period);
    if x < p.duty * 1000 {
      k := 2 * n;
      assert k / 2 == n && k % 2 == 0;
    } else {
      k := 2 * n + 1;
      assert k / 2 == n && k % 2 == 1;
    }
    Segment(p, rise, k);
  }

  /** Every instant is seen after some number of firings: time gets past any bound. */
  lemma EveryInstantSeen(p: Pwm, t: int) returns (k: nat)
    requires Cycling(p) && NextRise(p) <= t
    ensures SeenAt(p, k, t)
  {
    hide Fires, NextRise;
    ReachesRise(p);
    var j := ToRise(p);
    var i := SeenFromRise(Fires(p, j), NextRise(p), t);
    k := j + i;
    FiresAdd(p, j, i);
    if i > 0 {
      FiresAdd(p, j, i - 1);
    }
  }

  // ---- High time ----

  /** The time the pin has spent high from the rising edge until the k-th firing. */
  function HighUntilFiring(p: Pwm, rise: int, k: nat): int
    requires JustRisen(p, rise)
  {
    if k == 0 then 0
    else
      var from := if k == 1 then rise else Fires(p, k - 2).expiry.value;
      HighUntilFiring(p, rise, k - 1) + (if Fires(p, k - 1).pin then Fires(p, k - 1).expiry.value - from else 0)
  }

  /** The time the pin has spent high from the rising edge until t, seen after k firings. */
  function HighUntil(p: Pwm, rise: int, k: nat, t: int): int
    requires JustRisen(p, rise)
  {
    var from := if k == 0 then rise else Fires(p, k - 1).expiry.value;
    HighUntilFiring(p, rise, k) + (if Fires(p, k).pin then t - from else 0)
  }

  lemma {:induction false} HighAtFiring(p: Pwm, rise: int, k: nat)
    requires JustRisen(p, rise)
    ensures HighUntilFiring(p, rise, k) == Periods((k + 1) / 2, p.duty)
  {
    hide Periods, Fires;
    PeriodsNext(k / 2, p.duty);
    if k > 0 {
      HighAtFiring(p, rise, k - 1);
      Segment(p, rise, k - 1);
      if k % 2 == 1 {
        assert (k + 1) / 2 == k / 2 + 1;
      } else {
        assert (k + 1) / 2 == k / 2;
      }
    }
  }

  /** The high time of an ideal PWM in the first x nanoseconds after a rising edge: a full
      duty for each whole period, and in the last, begun one the elapsed time up to the duty. */
  function HighOfIdeal(x: nat, duty: nat, period: nat): int
    requires period > 0
  {
    var n, rest := x / (period * 1000), x % (period * 1000);
    n * (duty * 1000) + if rest < duty * 1000 then rest else duty * 1000
  }

  /** It grows from 0 by exactly the nanoseconds in which the ideal PWM is high. */
  lemma HighOfIdealCounts(x: nat, duty: nat, period: nat)
    requires 0 < period && duty <= period
    ensures HighOfIdeal(0, duty, period) == 0
    ensures HighOfIdeal(x + 1, duty, period) == HighOfIdeal(x, duty, period) + if Ideal(x, duty, period) then 1 else 0
  {
    var n, rest := SplitPeriods(x, period);
    hide HighOfIdeal;
    HighOfIdealAt(0, 0, duty, period);
    HighOfIdealAt(n, rest, duty, period);
    IdealInPeriod(n, rest, duty, period);
    PeriodsNext(n, duty);
    PeriodsNext(n, period);
    if rest + 1 < period * 1000 {
      HighOfIdealAt(n, rest + 1, duty, period);
    } else {
      HighOfIdealAt(n + 1, 0, duty, period);
    }
  }

  lemma HighOfIdealAt(n: nat, rest: nat, duty: nat, period: nat)
    requires 0 < period && rest < period * 1000
    ensures Periods(n, period) + rest >= 0
    ensures HighOfIdeal(Periods(n, period) + rest, duty, period)
         == Periods(n, duty) + if rest < duty * 1000 then rest else duty * 1000
  {
    IdealInPeriod(n, rest, duty, period);
  }

  /** Any n whole periods hold exactly n duties. */
  lemma HighOfIdealPeriods(x: nat, n: nat, duty: nat, period: nat)
    requires 0 < period
    ensures x + Periods(n, period) >= 0
    ensures HighOfIdeal(x + Periods(n, period), duty, period) == HighOfIdeal(x, duty, period) + n * (duty * 1000)
  {
    var i, rest := SplitPeriods(x, period);
    HighOfIdealAt(i, rest, duty, period);
    HighOfIdealAt(i + n, rest, duty, period);
    PeriodsAdd(i, n, period);
    PeriodsAdd(i, n, duty);
  }

  /** A duty of the whole period is always high, a duty of 0 never. */
  lemma HighOfExtremes(x: nat, period: nat)
    requires 0 < period
    ensures HighOfIdeal(x, period, period) == x && HighOfIdeal(x, 0, period) == 0
  {
    var n, rest := SplitPeriods(x, period);
    HighOfIdealAt(n, rest, period, period);
    HighOfIdealAt(n, rest, 0, period);
    assert Periods(n, 0) == 0;
  }

  lemma PeriodsAdd(i: nat, n: nat, period: nat)
    ensures Periods(i + n, period) == Periods(i, period) + Periods(n, period)
  {
  }

  /** High time of any prefix of the waveform. */
  lemma HighTime(p: Pwm, rise: int, k: nat, t: int)
    requires JustRisen(p, rise) && rise <= t && SeenAt(p, k, t)
    ensures HighUntil(p, rise, k, t) == HighOfIdeal(t - rise, p.duty, p.period)
  {
    IdealFromRise(p, rise, k, t);
    Segment(p, rise, k);
    HighAtFiring(p, rise, k);
    assert Periods(k / 2, p.duty) == (k / 2) * (p.duty * 1000);
    PeriodsNext(k / 2, p.duty);
    hide Periods, Fires;
    if k % 2 == 0 {
      assert (k + 1) / 2 == k / 2;
    } else {
      assert (k + 1) / 2 == k / 2 + 1;
    }
  }

  /** n whole periods hold exactly n duties of high time. */
  lemma HighTimeOfWholePeriods(p: Pwm, rise: int, n: nat, k: nat)
    requires JustRisen(p, rise) && SeenAt(p, k, rise + Periods(n, p.period))
    ensures HighUntil(p, rise, k, rise + Periods(n, p.period)) == n * (p.duty * 1000)
  {
    IdealInPeriod(n, 0, p.duty, p.period);
    HighTime(p, rise, k, rise + Periods(n, p.period));
  }

  /** A START during a pulse, which every accepted turn command sends, stretches it: the
      pin stays high to the new expiry 1000 us later and one more duty beyond, so that
      pulse is at least 1000 us longer than the duty. */
  lemma RestartStretchesPulse(p: Pwm, rise: int, now: int)
    requires JustRisen(p, rise) && rise <= now <= p.expiry.value
    ensures var q := Ioctl(p, now, StartPwm);
      && q.pin && q.expiry == Some(now + 1_000_000)
      && Fire(q).pin && Fire(q).status == Falling && !Fire(Fire(q)).pin
      && Fire(q).expiry.value - rise == (now - rise) + 1_000_000 + p.duty * 1000
  {
    FireExact(Ioctl(p, now, StartPwm));
  }

  // ---- Duty changes at arbitrary instants ----

  predicate OnlySafeDuties(run: seq<Timed>, period: nat) {
    forall i :: 0 <= i < |run| && run[i].event.Call? ==>
      match run[i].event.request
      case SetDuty(duty) => duty <= period
      case StartPwm | StopPwm => false
      case GetDuty | Unknown => true
  }

  /** The duties found in the register at the rising edges of a run. */
  function RiseDuties(p: Pwm, now: int, run: seq<Timed>): seq<nat>
    requires Valid(p, now, run)
    decreases |run|
  {
    if run == [] then []
    else (if run[0].event.Expire? && p.status != Falling then [p.duty] else [])
         + RiseDuties(After(p, run[0]), run[0].at, run[1..])
  }

  /** The duties found in the register at the falling edges of a run. */
  function FallDuties(p: Pwm, now: int, run: seq<Timed>): seq<nat>
    requires Valid(p, now, run)
    decreases |run|
  {
    if run == [] then []
    else (if run[0].event.Expire? && p.status == Falling then [p.duty] else [])
         + FallDuties(After(p, run[0]), run[0].at, run[1..])
  }

  function Sum(s: seq<nat>): nat {
    if s == [] then 0 else s[0] + Sum(s[1..])
  }

  lemma SumCons(x: nat, s: seq<nat>)
    ensures Sum([x] + s) == x + Sum(s)
  {
    assert ([x] + s)[1..] == s;
  }

  /** With duties within the period no delay computation wraps: in every run of
      expiries and duty changes the pending expiry is the sum of the duties at the
      rising edges and the complements of the duties at the falling edges. */
  lemma {:induction false} ExpiryLedger(p: Pwm, now: int, run: seq<Timed>)
    requires Cycling(p) && Valid(p, now, run) && OnlySafeDuties(run, p.period)
    ensures var q := Final(p, now, run);
      && Cycling(q) && q.period == p.period
      && q.expiry.value == p.expiry.value
         + 1000 * (Sum(RiseDuties(p, now, run)) + |FallDuties(p, now, run)| * p.period - Sum(FallDuties(p, now, run)))
      && |RiseDuties(p, now, run)| + (if p.status == Falling then 1 else 0)
         == |FallDuties(p, now, run)| + (if q.status == Falling then 1 else 0)
    decreases |run|
  {
    if run != [] {
      var p', at, rest := After(p, run[0]), run[0].at, run[1..];
      assert OnlySafeDuties(rest, p.period) && OnlySafeDuties([run[0]], p.period);
      AfterExact(p, now, run[0]);
      var rises, falls := RiseDuties(p', at, rest), FallDuties(p', at, rest);
      ExpiryLedger(p', at, rest);
      hide After, Cycling, Sum;
      SumCons(p.duty, rises);
      SumCons(p.duty, falls);
      assert (|falls| + 1) * p.period == |falls| * p.period + p.period;
      assert [] + rises == rises && [] + falls == falls;
    }
  }

  lemma AfterExact(p: Pwm, now: int, e: Timed)
    requires Cycling(p) && Allowed(p, now, e) && OnlySafeDuties([e], p.period)
    ensures var q := After(p, e);
      && Cycling(q) && q.period == p.period
      && (e.event.Call? ==> q.status == p.status && q.expiry == p.expiry)
      && (e.event.Expire? ==>
            && q == Fire(p) && q.duty == p.duty
            && (q.status == Falling <==> p.status != Falling)
            && q.expiry.value == p.expiry.value + 1000 * (if p.status == Falling then p.period - p.duty else p.duty))
  {
    assert [e][0] == e;
    FireExact(p);
  }

  /** A run whose last event is a firing that raised the pin: the last rising edge is
      its end, at the duty now in the register. */
  predicate EndsWithRise(p: Pwm, now: int, run: seq<Timed>) {
    && run != [] && run[|run| - 1].event.Expire?
    && Valid(p, now, run) && Final(p, now, run).status == Falling
  }

  lemma {:induction false} LastRise(p: Pwm, now: int, run: seq<Timed>)
    requires Cycling(p) && EndsWithRise(p, now, run) && OnlySafeDuties(run, p.period)
    ensures var q := Final(p, now, run);
      && JustRisen(q, run[|run| - 1].at)
      && RiseDuties(p, now, run) != []
      && RiseDuties(p, now, run)[|RiseDuties(p, now, run)| - 1] == q.duty
    decreases |run|
  {
    var p', at, rest := After(p, run[0]), run[0].at, run[1..];
    assert OnlySafeDuties([run[0]], p.period);
    AfterExact(p, now, run[0]);
    if rest == [] {
      assert Final(p', at, rest) == p';
    } else {
      assert OnlySafeDuties(rest, p.period);
      LastRise(p', at, rest);
    }
  }

  lemma {:induction false} SumSnoc(s: seq<nat>, x: nat)
    ensures Sum(s + [x]) == Sum(s) + x
  {
    if s == [] {
      assert s + [x] == [x] + [];
      SumCons(x, []);
    } else {
      assert (s + [x])[1..] == s[1..] + [x];
      SumSnoc(s[1..], x);
    }
  }

  /** Refinement over runs: a channel is started at any instant in any state, then its duty
      is set any number of times at any instants; after the last of these calls, the pin
      is the ideal PWM's from the next rising edge on, at the duty last set. */
  lemma RefinesIdealAfterStart(p: Pwm, start: int, run: seq<Timed>, k: nat, t: int)
    requires SoftPwm.Inv(p) && p.duty <= p.period && 0 < p.period && p.period * 1000 < TWO_32
    requires Valid(Ioctl(p, start, StartPwm), start, run) && OnlySafeDuties(run, p.period)
    ensures var q := Final(Ioctl(p, start, StartPwm), start, run);
      && Cycling(q)
      && (NextRise(q) <= t && SeenAt(q, k, t) ==> (Fires(q, k).pin <==> Ideal(t - NextRise(q), q.duty, p.period)))
  {
    ExpiryLedger(Ioctl(p, start, StartPwm), start, run);
    var q := Final(Ioctl(p, start, StartPwm), start, run);
    if NextRise(q) <= t && SeenAt(q, k, t) {
      RefinesIdeal(q, k, t);
    }
  }

  /** Total length of the cycles of a run that starts just after one rising edge and
      ends with another: one period per cycle, plus the duty at the rise and minus the
      duty at the fall of each. */
  lemma CyclesLength(p: Pwm, rise: int, run: seq<Timed>)
    requires JustRisen(p, rise) && OnlySafeDuties(run, p.period) && EndsWithRise(p, rise, run)
    ensures var falls, rises := FallDuties(p, rise, run), [p.duty] + RiseDuties(p, rise, run);
      && |rises| == |falls| + 1
      && run[|run| - 1].at - rise == 1000 * (|falls| * p.period + Sum(rises[..|falls|]) - Sum(falls))
  {
    ExpiryLedger(p, rise, run);
    LastRise(p, rise, run);
    var falls, rises := FallDuties(p, rise, run), [p.duty] + RiseDuties(p, rise, run);
    hide Sum, RiseDuties, FallDuties, Final, Valid;
    SumCons(p.duty, RiseDuties(p, rise, run));
    assert rises == rises[..|falls|] + [rises[|falls|]];
    SumSnoc(rises[..|falls|], rises[|falls|]);
  }

  lemma {:induction false} FallDutiesBounded(p: Pwm, now: int, run: seq<Timed>)
    requires Cycling(p) && Valid(p, now, run) && OnlySafeDuties(run, p.period)
    ensures forall i :: 0 <= i < |FallDuties(p, now, run)| ==> FallDuties(p, now, run)[i] <= p.period
    decreases |run|
  {
    if run != [] {
      assert OnlySafeDuties(run[1..], p.period);
      FallDutiesBounded(After(p, run[0]), run[0].at, run[1..]);
    }
  }

  /** One cycle, whatever duties are set during it, lasts between 0 and two periods:
      the duty at its rise and the duty at its fall are all that counts. */
  lemma OneCycleLength(p: Pwm, rise: int, run: seq<Timed>)
    requires JustRisen(p, rise) && OnlySafeDuties(run, p.period) && EndsWithRise(p, rise, run)
    requires |FallDuties(p, rise, run)| == 1
    ensures run[|run| - 1].at - rise == 1000 * (p.period + p.duty - FallDuties(p, rise, run)[0])
    ensures 0 <= run[|run| - 1].at - rise <= 2 * (p.period * 1000)
  {
    CyclesLength(p, rise, run);
    FallDutiesBounded(p, rise, run);
    var falls, rises := FallDuties(p, rise, run), [p.duty] + RiseDuties(p, rise, run);
    assert falls == [falls[0]] + [] && rises[..1] == [p.duty] + [];
    SumCons(falls[0], []);
    SumCons(p.duty, []);
  }
}
