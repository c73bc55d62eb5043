/** The soft-stop button's debouncer: what tick() publishes, stated over the whole history of ticks. */
module SoftStop {
  import opened Options

  const TRIP_FILTER: real := 0.03
  const RELEASE_HOLD: real := 0.5

  /** What reading the pin gives; any failure counts as high. */
  datatype Reading = NoButton | ReadError | Pressed(pressed: bool)

  predicate PinHigh(r: Reading, internalPullUp: bool) {
    match r
    case NoButton => true
    case ReadError => true
    case Pressed(pressed) => if internalPullUp then !pressed else pressed
  }

  /** What the button reports at an electrical level: with the internal pull-up a low pin is pressed, and
      without it a high one. */
  function Reported(level: bool, internalPullUp: bool): Reading {
    Pressed(if internalPullUp then !level else level)
  }

  /** Either way the tick is taken at the electrical level, and a pin that cannot be read counts as high. */
  lemma LevelIsRead(level: bool, internalPullUp: bool)
    ensures PinHigh(Reported(level, internalPullUp), internalPullUp) == level
    ensures PinHigh(NoButton, internalPullUp) && PinHigh(ReadError, internalPullUp)
  {}

  datatype Tick = Tick(high: bool, now: real)

  datatype State = State(stopped: bool, highSince: Option<real>, lowSince: Option<real>)

  const START: State := State(true, None, None)

  function Step(s: State, t: Tick): State {
    if t.high then
      var since := if s.highSince.None? then t.now else s.highSince.value;
      State(s.stopped || t.now - since >= TRIP_FILTER, Some(since), None)
    else
      var since := if s.lowSince.None? then t.now else s.lowSince.value;
      State(s.stopped && t.now - since < RELEASE_HOLD, None, Some(since))
  }

  function After(ticks: seq<Tick>, n: nat): State
    requires n <= |ticks|
  {
    if n == 0 then START else Step(After(ticks, n - 1), ticks[n - 1])
  }

  // ---------------------------------------------------------------- runs of one level

  predicate TimeRuns(ticks: seq<Tick>) {
    forall i, j | 0 <= i <= j < |ticks| :: ticks[i].now <= ticks[j].now
  }

  predicate Level(ticks: seq<Tick>, s: nat, e: nat, high: bool)
    requires s <= e < |ticks|
  {
    forall k | s <= k <= e :: ticks[k].high == high
  }

  /** An unbroken run of one level ends at tick e and spans at least `span`. */
  ghost predicate RunEnds(ticks: seq<Tick>, e: nat, high: bool, span: real)
    requires e < |ticks|
  {
    exists s: nat :: s <= e && Level(ticks, s, e, high) && ticks[e].now - ticks[s].now >= span
  }

  /** Some tick ended an all-low run of at least half a second, and no all-high run has since spanned 30 ms. */
  ghost predicate Released(ticks: seq<Tick>, n: nat)
    requires n <= |ticks|
  {
    exists e: nat :: e < n && RunEnds(ticks, e, false, 0.5) && NoTripSince(ticks, e, n)
  }

  ghost predicate NoTripSince(ticks: seq<Tick>, e: nat, n: nat)
    requires n <= |ticks|
  {
    forall k: nat | e < k < n :: !RunEnds(ticks, k, true, 0.03)
  }

  /** The first tick of the unbroken run that ends at tick k. */
  function RunStart(ticks: seq<Tick>, k: nat): (s: nat)
    requires k < |ticks|
    ensures s <= k
  {
    if k == 0 || ticks[k - 1].high != ticks[k].high then k else RunStart(ticks, k - 1)
  }

  lemma {:induction false} RunStartIsFirst(ticks: seq<Tick>, k: nat, s: nat)
    requires k < |ticks|
    ensures Level(ticks, RunStart(ticks, k), k, ticks[k].high)
    ensures s <= k && Level(ticks, s, k, ticks[k].high) ==> RunStart(ticks, k) <= s
  {
    if k > 0 && ticks[k - 1].high == ticks[k].high {
      RunStartIsFirst(ticks, k - 1, s);
    }
  }

  /** The timers hold the time of the first tick of the current run. */
  lemma {:induction false} TimersAreRunStarts(ticks: seq<Tick>, k: nat)
    requires k < |ticks|
    ensures var s, since := After(ticks, k + 1), Some(ticks[RunStart(ticks, k)].now);
      if ticks[k].high then s.highSince == since && s.lowSince == None else s.lowSince == since && s.highSince == None
  {
    if k > 0 {
      TimersAreRunStarts(ticks, k - 1);
    }
  }

  lemma RunEndsIff(ticks: seq<Tick>, k: nat, high: bool, span: real)
    requires TimeRuns(ticks) && k < |ticks|
    ensures RunEnds(ticks, k, high, span)
            <==> ticks[k].high == high && ticks[k].now - ticks[RunStart(ticks, k)].now >= span
  {
    RunStartIsFirst(ticks, k, k);
    forall s: nat | s <= k && Level(ticks, s, k, high) ensures ticks[RunStart(ticks, k)].now <= ticks[s].now {
      RunStartIsFirst(ticks, k, s);
    }
  }

  // ---------------------------------------------------------------- what is published

  lemma StartsStopped(ticks: seq<Tick>)
    ensures After(ticks, 0).stopped && !Released(ticks, 0)
  {}

  lemma StillReleased(ticks: seq<Tick>, n: nat)
    requires n < |ticks| && Released(ticks, n) && !RunEnds(ticks, n, true, TRIP_FILTER)
    ensures Released(ticks, n + 1)
  {
    hide RunEnds;
    var e: nat :| e < n && RunEnds(ticks, e, false, RELEASE_HOLD) && NoTripSince(ticks, e, n);
    assert NoTripSince(ticks, e, n + 1);
  }

  lemma NewlyReleased(ticks: seq<Tick>, n: nat)
    requires n < |ticks| && RunEnds(ticks, n, false, RELEASE_HOLD)
    ensures Released(ticks, n + 1)
  {
    hide RunEnds;
    assert NoTripSince(ticks, n, n + 1);
  }

  lemma ReleasedBecause(ticks: seq<Tick>, n: nat)
    requires n < |ticks| && Released(ticks, n + 1)
    ensures RunEnds(ticks, n, false, RELEASE_HOLD) || (Released(ticks, n) && !RunEnds(ticks, n, true, TRIP_FILTER))
  {
    hide RunEnds;
    var e: nat :| e < n + 1 && RunEnds(ticks, e, false, RELEASE_HOLD) && NoTripSince(ticks, e, n + 1);
    assert e < n ==> NoTripSince(ticks, e, n);
  }

  lemma OneLevel(ticks: seq<Tick>, n: nat, high: bool, span: real)
    requires n < |ticks| && ticks[n].high != high
    ensures !RunEnds(ticks, n, high, span)
  {}

  lemma ReleasedStep(ticks: seq<Tick>, n: nat)
    requires n < |ticks|
    ensures ticks[n].high ==> (Released(ticks, n + 1) <==> Released(ticks, n) && !RunEnds(ticks, n, true, TRIP_FILTER))
    ensures !ticks[n].high ==> (Released(ticks, n + 1) <==> Released(ticks, n) || RunEnds(ticks, n, false, RELEASE_HOLD))
  {
    hide Released, RunEnds;
    if ticks[n].high {
      OneLevel(ticks, n, false, RELEASE_HOLD);
    } else {
      OneLevel(ticks, n, true, TRIP_FILTER);
    }
    if Released(ticks, n) && !RunEnds(ticks, n, true, TRIP_FILTER) {
      StillReleased(ticks, n);
    }
    if RunEnds(ticks, n, false, RELEASE_HOLD) {
      NewlyReleased(ticks, n);
    }
    if Released(ticks, n + 1) {
      ReleasedBecause(ticks, n);
    }
  }

  /** Over any ticks with nondecreasing times, the soft stop is released after the n-th tick exactly when
      some tick so far ended an all-low run of at least half a second and no all-high run since then has
      spanned 30 ms. It starts stopped. */
  lemma {:induction false} ReleasedIff(ticks: seq<Tick>, n: nat)
    requires TimeRuns(ticks) && n <= |ticks|
    ensures !After(ticks, n).stopped <==> Released(ticks, n)
  {
    hide Released, RunEnds, After, Step, RunStart, Level, TimeRuns;
    if n == 0 {
      StartsStopped(ticks);
    } else {
      ReleasedIff(ticks, n - 1);
      ReleasedStep(ticks, n - 1);
      RunEndsIff(ticks, n - 1, true, TRIP_FILTER);
      RunEndsIff(ticks, n - 1, false, RELEASE_HOLD);
      TimerOf(ticks, n - 1);
    }
  }

  /** What one step does to `stopped`, in terms of the run it ends. */
  lemma TimerOf(ticks: seq<Tick>, k: nat)
    requires k < |ticks|
    ensures var span := ticks[k].now - ticks[RunStart(ticks, k)].now;
      After(ticks, k + 1).stopped
      == if ticks[k].high then After(ticks, k).stopped || span >= TRIP_FILTER
         else After(ticks, k).stopped && span < RELEASE_HOLD
  {
    if k > 0 {
      TimersAreRunStarts(ticks, k - 1);
    }
  }

  /** A pin that can never be read keeps the wave maker stopped. */
  lemma UnreadableStaysStopped(ticks: seq<Tick>, n: nat)
    requires TimeRuns(ticks) && n <= |ticks| && forall k | 0 <= k < n :: ticks[k].high
    ensures After(ticks, n).stopped
  {
    ReleasedIff(ticks, n);
    forall e: nat | e < n ensures !RunEnds(ticks, e, false, RELEASE_HOLD) {
      RunEndsIff(ticks, e, false, RELEASE_HOLD);
    }
  }

  // ---------------------------------------------------------------- the object

  lemma AfterPrefix(ticks: seq<Tick>, more: seq<Tick>, n: nat)
    requires n <= |ticks|
    ensures After(ticks + more, n) == After(ticks, n)
  {}

  lemma AfterAppend(ticks: seq<Tick>, t: Tick)
    ensures After(ticks + [t], |ticks + [t]|) == Step(After(ticks, |ticks|), t)
  {
    AfterPrefix(ticks, [t], |ticks|);
  }

  class SoftStop {
    const internalPullUp: bool
    var stopped: bool
    var highSince: Option<real>
    var lowSince: Option<real>
    ghost var ticks: seq<Tick>

    ghost predicate Valid()
      reads this
    {
      TimeRuns(ticks) && State(stopped, highSince, lowSince) == After(ticks, |ticks|)
    }

    constructor (pullUp: bool)
      ensures Valid() && stopped && ticks == [] && internalPullUp == pullUp
    {
      internalPullUp := pullUp;
      stopped, highSince, lowSince, ticks := true, None, None, [];
    }

    /** The published value is released exactly when the history says so. */
    method OnTick(reading: Reading, now: real) returns (published: bool)
      requires Valid() && forall k | 0 <= k < |ticks| :: ticks[k].now <= now
      modifies this
      ensures Valid() && published == stopped
      ensures |ticks| == |old(ticks)| + 1 && old(ticks) < ticks && ticks[|ticks| - 1].now == now
      ensures forall level: bool :: reading == Reported(level, internalPullUp) ==> ticks[|ticks| - 1].high == level
      ensures reading.NoButton? || reading.ReadError? ==> ticks[|ticks| - 1].high
      ensures !published <==> Released(ticks, |ticks|)
    {
      hide After, Released;
      LevelIsRead(true, internalPullUp);
      LevelIsRead(false, internalPullUp);
      ghost var before := State(stopped, highSince, lowSince);
      var high := PinHigh(reading, internalPullUp);
      if high {
        lowSince := None;
        if highSince.None? {
          highSince := Some(now);
        }
        if !stopped && now - highSince.value >= TRIP_FILTER {
          stopped := true;
        }
      } else {
        highSince := None;
        if lowSince.None? {
          lowSince := Some(now);
        }
        if stopped && now - lowSince.value >= RELEASE_HOLD {
          stopped := false;
        }
      }
      assert State(stopped, highSince, lowSince) == Step(before, Tick(high, now));
      AfterAppend(ticks, Tick(high, now));
      ticks := ticks + [Tick(high, now)];
      ReleasedIff(ticks, |ticks|);
      published := stopped;
    }
  }
}
