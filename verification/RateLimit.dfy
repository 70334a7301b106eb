/** The shared rate limit: one sampling interval per epoch, placed at random so that it
    is expected to fit, and an exponential moving average of its length. */
module RateLimit {

  /** Times and durations in nanoseconds. */
  type Time = int

  datatype Timer = Idle | Due(at: Time)

  datatype Config = Config(epoch: int, alpha: real, witnessesPerEpoch: int)

  /** `starts` and `admitted` count interval starts and admitted HTTP requests so far. */
  datatype Limiter = Limiter(
    now: Time,
    nextEpoch: Time,
    timer: Timer,
    intervalStart: Time,
    active: bool,
    count: int,
    estimate: int,
    firstEstimate: bool,
    starts: nat,
    admitted: nat)

  ghost predicate ValidConfig(c: Config) {
    c.epoch > 0 && 0.0 <= c.alpha <= 1.0 && c.witnessesPerEpoch >= 1
  }

  /** The new estimate: the average, converted to whole nanoseconds by truncation. */
  function Average(alpha: real, estimate: int, length: int): int {
    ((1.0 - alpha) * (estimate as real) + alpha * (length as real)).Floor
  }

  // ---- The operations ----

  function StartInterval(s: Limiter, at: Time): Limiter {
    s.(intervalStart := at, count := 0, active := true, starts := s.starts + 1)
  }

  function EndInterval(c: Config, s: Limiter, at: Time): Limiter {
    var length := at - s.intervalStart;
    s.(active := false, count := 0, firstEstimate := false,
       estimate := if s.firstEstimate then length else Average(c.alpha, s.estimate, length))
  }

  /** `offset` is what the random generator returned, 0 when it is not asked. */
  function StartNewEpoch(s: Limiter, at: Time, offset: int): Limiter {
    s.(timer := Due(at + offset))
  }

  function AllowHttpRequest(c: Config, s: Limiter): Limiter {
    if !s.active then s
    else
      var t := s.(count := s.count + 1, admitted := s.admitted + 1);
      if t.count >= c.witnessesPerEpoch then EndInterval(c, t, s.now) else t
  }

  // ---- Runs, with an idealised clock ----

  /** Timers fire exactly when due, and before any request at that instant; an epoch
      tick comes before an interval start due at the same instant. */
  datatype Step =
    | Advance(to: Time)
    | Tick(offset: int)
    | Fire
    | Request

  function Init(c: Config): Limiter {
    Limiter(0, c.epoch, Due(0), 0, false, 0, 0, true, 0, 0)
  }

  /** The random offset is drawn from [0, epoch - estimate), which must not be empty. */
  ghost predicate Enabled(c: Config, s: Limiter, step: Step) {
    match step
    case Advance(to) => s.now <= to <= s.nextEpoch && (s.timer.Due? ==> to <= s.timer.at)
    case Tick(offset) =>
      && s.now == s.nextEpoch
      && (s.timer.Due? ==> s.now < s.timer.at)
      && (if s.firstEstimate then offset == 0 else 0 <= offset < c.epoch - s.estimate)
    case Fire => s.timer == Due(s.now) && s.now < s.nextEpoch
    case Request => s.now < s.nextEpoch && s.timer != Due(s.now)
  }

  function Next(c: Config, s: Limiter, step: Step): Limiter {
    match step
    case Advance(to) => s.(now := to)
    case Tick(offset) => StartNewEpoch(s, s.now, offset).(nextEpoch := s.nextEpoch + c.epoch)
    case Fire => StartInterval(s, s.now).(timer := Idle)
    case Request => AllowHttpRequest(c, s)
  }

  function Exec(c: Config, s: Limiter, steps: seq<Step>): Limiter
    decreases |steps|
  {
    if steps == [] then s else Exec(c, Next(c, s, steps[0]), steps[1..])
  }

  /** The steps can be taken one after the other. Every state of a run is the last one of a shorter run. */
  ghost predicate Legal(c: Config, s: Limiter, steps: seq<Step>)
    decreases |steps|
  {
    steps == [] || (Enabled(c, s, steps[0]) && Legal(c, Next(c, s, steps[0]), steps[1..]))
  }

  // ---- The estimate stays below the epoch ----

  /** What keeps the average below the epoch. With alpha at most 1/2 it holds for every epoch. */
  ghost predicate Damped(c: Config) {
    2.0 * c.alpha * ((c.epoch - 1) as real) < c.epoch as real
  }

  lemma HalfIsDamped(c: Config)
    requires ValidConfig(c) && c.alpha <= 0.5
    ensures Damped(c)
  {
    var e := (c.epoch - 1) as real;
    assert 2.0 * c.alpha * e <= e;
  }

  /** What every run keeps, damped or not. */
  ghost predicate Orderly(c: Config, s: Limiter) {
    && 0 <= s.estimate
    && s.nextEpoch - c.epoch <= s.now <= s.nextEpoch
    // A pending timer is due before the epoch ends.
    && (s.timer.Due? ==> s.now <= s.timer.at < s.nextEpoch)
    && (s.timer.Due? && s.firstEstimate ==> s.timer.at == s.nextEpoch - c.epoch)
    && (s.active ==>
          && 0 <= s.count < c.witnessesPerEpoch
          && s.intervalStart <= s.now
          // An interval may run on into the next epoch, until the start planned there replaces it.
          && (s.timer.Due? ==>
                && s.nextEpoch - 2 * c.epoch <= s.intervalStart
                && (s.firstEstimate || s.timer.at < s.nextEpoch - s.estimate))
          && (s.timer.Idle? ==> s.nextEpoch - c.epoch <= s.intervalStart))
    && (s.firstEstimate ==> s.estimate == 0)
    && (s.firstEstimate && s.timer.Idle? ==> s.active && s.intervalStart == s.nextEpoch - c.epoch)
  }

  lemma NonNegative(x: real, y: real)
    requires x >= 0.0 && y >= 0.0
    ensures x * y >= 0.0
  {
  }

  /** The average of an estimate below the epoch and a length short of 2 epochs - estimate is below the epoch. */
  lemma AverageBound(c: Config, estimate: int, length: int)
    requires ValidConfig(c) && Damped(c)
    requires 0 <= estimate < c.epoch && 0 <= length <= 2 * c.epoch - estimate - 2
    ensures 0 <= Average(c.alpha, estimate, length) < c.epoch
  {
    var a, e, m, l := c.alpha, c.epoch as real, estimate as real, length as real;
    var top := 2.0 * e - m - 2.0;
    NonNegative(1.0 - a, m);
    NonNegative(a, l);
    NonNegative(a, top - l);
    var x := (1.0 - a) * m + a * l;
    assert a * (top - l) == a * top - a * l;
    assert (1.0 - a) * m + a * top == m * (1.0 - 2.0 * a) + 2.0 * a * (e - 1.0);
    assert x <= m * (1.0 - 2.0 * a) + 2.0 * a * (e - 1.0);
    assert (c.epoch - 1) as real == e - 1.0;
    if a <= 0.5 {
      NonNegative(1.0 - 2.0 * a, e - 1.0 - m);
      assert (1.0 - 2.0 * a) * (e - 1.0 - m) == (1.0 - 2.0 * a) * (e - 1.0) - m * (1.0 - 2.0 * a);
      assert x <= e - 1.0;
    } else {
      NonNegative(2.0 * a - 1.0, m);
      assert (2.0 * a - 1.0) * m == 0.0 - m * (1.0 - 2.0 * a);
    }
  }

  lemma AverageNonNegative(c: Config, estimate: int, length: int)
    requires ValidConfig(c) && 0 <= estimate && 0 <= length
    ensures 0 <= Average(c.alpha, estimate, length)
  {
    NonNegative(1.0 - c.alpha, estimate as real);
    NonNegative(c.alpha, length as real);
  }

  lemma StepKeepsOrderly(c: Config, s: Limiter, step: Step)
    requires ValidConfig(c) && Orderly(c, s) && Enabled(c, s, step)
    ensures Orderly(c, Next(c, s, step))
    ensures Damped(c) && s.estimate < c.epoch ==> Next(c, s, step).estimate < c.epoch
  {
    if step.Request? && s.active && s.count + 1 >= c.witnessesPerEpoch && !s.firstEstimate {
      AverageNonNegative(c, s.estimate, s.now - s.intervalStart);
      if Damped(c) && s.estimate < c.epoch {
        AverageBound(c, s.estimate, s.now - s.intervalStart);
      }
    }
  }

  lemma {:induction false} RunKeepsOrderly(c: Config, s: Limiter, steps: seq<Step>)
    requires ValidConfig(c) && Orderly(c, s) && Legal(c, s, steps)
    ensures Orderly(c, Exec(c, s, steps))
    ensures Damped(c) && s.estimate < c.epoch ==> Exec(c, s, steps).estimate < c.epoch
    decreases |steps|
  {
    if steps == [] {
    } else {
      StepKeepsOrderly(c, s, steps[0]);
      RunKeepsOrderly(c, Next(c, s, steps[0]), steps[1..]);
    }
  }

  // ---- The converse: an undamped estimate escapes ----

  function Requests(k: nat): seq<Step> {
    if k == 0 then [] else [Request] + Requests(k - 1)
  }

  lemma {:induction false} Compose(c: Config, s: Limiter, first: seq<Step>, second: seq<Step>)
    ensures Legal(c, s, first + second) <==> Legal(c, s, first) && Legal(c, Exec(c, s, first), second)
    ensures Exec(c, s, first + second) == Exec(c, Exec(c, s, first), second)
    decreases |first|
  {
    if first == [] {
      assert first + second == second;
    } else {
      assert (first + second)[1..] == first[1..] + second;
      Compose(c, Next(c, s, first[0]), first[1..], second);
    }
  }

  /** As many requests as the interval still has room for end it. */
  lemma {:induction false} FillInterval(c: Config, s: Limiter, k: nat)
    requires ValidConfig(c) && s.active && k >= 1 && s.count + k == c.witnessesPerEpoch
    requires s.now < s.nextEpoch && s.timer != Due(s.now)
    ensures Legal(c, s, Requests(k))
    ensures var t := Exec(c, s, Requests(k));
      t == EndInterval(c, s.(admitted := s.admitted + k), s.now)
    decreases k
  {
    assert Requests(k)[1..] == Requests(k - 1);
    if k > 1 {
      FillInterval(c, Next(c, s, Request), k - 1);
    } else {
      assert Requests(0) == [];
    }
  }

  /** Ends the first interval at once, so that the estimate is 0, starts the next one at the very start
      of an epoch, and fills it just before the last possible start in the epoch after. */
  function Escape(c: Config): seq<Step>
    requires c.witnessesPerEpoch >= 1
  {
    [Fire] + (Requests(c.witnessesPerEpoch) +
      ([Advance(c.epoch), Tick(0), Fire, Advance(2 * c.epoch), Tick(c.epoch - 1), Advance(3 * c.epoch - 2)]
        + Requests(c.witnessesPerEpoch)))
  }

  lemma Unroll(c: Config, s: Limiter, step: Step, rest: seq<Step>)
    ensures Exec(c, s, [step] + rest) == Exec(c, Next(c, s, step), rest)
    ensures Legal(c, s, [step] + rest) <==> Enabled(c, s, step) && Legal(c, Next(c, s, step), rest)
  {
    assert ([step] + rest)[1..] == rest;
  }

  lemma Middle(c: Config, s: Limiter)
    requires ValidConfig(c) && c.epoch >= 2
    requires s.estimate == 0 && s.now == 0 && !s.firstEstimate && s.timer == Idle && s.nextEpoch == c.epoch
    ensures var e := c.epoch;
      var middle := [Advance(e), Tick(0), Fire, Advance(2 * e), Tick(e - 1), Advance(3 * e - 2)];
      var t := Exec(c, s, middle);
      && Legal(c, s, middle)
      && t.active && t.count == 0 && t.intervalStart == e && t.estimate == 0 && !t.firstEstimate
      && t.now == 3 * e - 2 && t.timer == Due(3 * e - 1) && t.nextEpoch == 3 * e
  {
    var e := c.epoch;
    var s1 := Next(c, s, Advance(e));
    var s2 := Next(c, s1, Tick(0));
    var s3 := Next(c, s2, Fire);
    var s4 := Next(c, s3, Advance(2 * e));
    var s5 := Next(c, s4, Tick(e - 1));
    var middle := [Advance(e), Tick(0), Fire, Advance(2 * e), Tick(e - 1), Advance(3 * e - 2)];
    assert middle[1..] == [Tick(0), Fire, Advance(2 * e), Tick(e - 1), Advance(3 * e - 2)];
    assert middle[1..][1..] == [Fire, Advance(2 * e), Tick(e - 1), Advance(3 * e - 2)];
    assert middle[1..][1..][1..] == [Advance(2 * e), Tick(e - 1), Advance(3 * e - 2)];
    assert middle[1..][1..][1..][1..] == [Tick(e - 1), Advance(3 * e - 2)];
    assert middle[1..][1..][1..][1..][1..] == [Advance(3 * e - 2)];
    Unroll(c, s5, Advance(3 * e - 2), []);
    Unroll(c, s4, Tick(e - 1), [Advance(3 * e - 2)]);
    Unroll(c, s3, Advance(2 * e), [Tick(e - 1), Advance(3 * e - 2)]);
    Unroll(c, s2, Fire, [Advance(2 * e), Tick(e - 1), Advance(3 * e - 2)]);
    Unroll(c, s1, Tick(0), [Fire, Advance(2 * e), Tick(e - 1), Advance(3 * e - 2)]);
    Unroll(c, s, Advance(e), [Tick(0), Fire, Advance(2 * e), Tick(e - 1), Advance(3 * e - 2)]);
  }

  lemma LongIntervalAverage(c: Config)
    requires ValidConfig(c) && !Damped(c)
    ensures Average(c.alpha, 0, 2 * c.epoch - 2) >= c.epoch
  {
    var e := (c.epoch - 1) as real;
    assert (2 * c.epoch - 2) as real == 2.0 * e;
    assert c.alpha * (2.0 * e) == 2.0 * c.alpha * e;
  }

  lemma UndampedEscapes(c: Config)
    requires ValidConfig(c) && !Damped(c)
    ensures Legal(c, Init(c), Escape(c))
    ensures Exec(c, Init(c), Escape(c)).estimate >= c.epoch
  {
    var w, e := c.witnessesPerEpoch, c.epoch;
    assert e >= 2;
    var s := Init(c);
    var fill := Requests(w);
    var middle := [Advance(e), Tick(0), Fire, Advance(2 * e), Tick(e - 1), Advance(3 * e - 2)];
    var s1 := Next(c, s, Fire);
    FillInterval(c, s1, w);
    var s2 := Exec(c, s1, fill);
    assert s2.estimate == 0 && s2.now == 0 && !s2.firstEstimate && s2.timer == Idle && s2.nextEpoch == e;
    Middle(c, s2);
    var s3 := Exec(c, s2, middle);
    FillInterval(c, s3, w);
    assert Exec(c, s3, fill).estimate == Average(c.alpha, 0, 2 * e - 2);
    LongIntervalAverage(c);
    Compose(c, s2, middle, fill);
    Compose(c, s1, fill, middle + fill);
    assert Escape(c)[1..] == fill + (middle + fill);
  }

  /** The estimate stays in [0, epoch) over every run, so that the random generator is
      always asked for a number from a non-empty range, exactly if the weight of the
      moving average is damped: at most 1/2 is enough, whatever the epoch. */
  lemma EstimateBoundedExactlyWhen(c: Config)
    requires ValidConfig(c)
    ensures Damped(c) <==>
      forall steps :: Legal(c, Init(c), steps) ==> 0 <= Exec(c, Init(c), steps).estimate < c.epoch
  {
    if Damped(c) {
      forall steps | Legal(c, Init(c), steps) ensures 0 <= Exec(c, Init(c), steps).estimate < c.epoch {
        RunKeepsOrderly(c, Init(c), steps);
      }
    } else {
      UndampedEscapes(c);
    }
  }

  /** A single interval may span an epoch boundary, but ends before 2 epochs minus the estimate. */
  lemma IntervalLength(c: Config, steps: seq<Step>)
    requires ValidConfig(c) && Legal(c, Init(c), steps)
    ensures var s := Exec(c, Init(c), steps);
      s.active && Enabled(c, s, Request) && s.estimate < c.epoch ==>
        0 <= s.now - s.intervalStart < 2 * c.epoch - s.estimate
  {
    RunKeepsOrderly(c, Init(c), steps);
  }

  // ---- Admission ----

  /** How many more requests the interval under way admits. */
  function Room(c: Config, s: Limiter): int {
    if s.active then c.witnessesPerEpoch - s.count else 0
  }

  function Pending(s: Limiter): nat {
    if s.timer.Due? then 1 else 0
  }

  function Ticks(steps: seq<Step>): nat {
    if steps == [] then 0 else (if steps[0].Tick? then 1 else 0) + Ticks(steps[1..])
  }

  lemma StepAdmits(c: Config, s: Limiter, step: Step)
    requires ValidConfig(c) && Orderly(c, s) && Enabled(c, s, step)
    ensures var t := Next(c, s, step);
      && t.starts == s.starts + (if step.Fire? then 1 else 0)
      && t.starts + Pending(t) == s.starts + Pending(s) + (if step.Tick? then 1 else 0)
      && 0 <= Room(c, t) && 0 <= Room(c, s)
      && t.admitted + Room(c, t) <= s.admitted + Room(c, s) + (t.starts - s.starts) * c.witnessesPerEpoch
  {
  }

  lemma Distribute(a: int, b: int, w: int)
    ensures (a + b) * w == a * w + b * w
  {
  }

  /** Over any stretch of a run, the requests admitted are bounded by the intervals started in it and
      what the interval under way at its start had room for, and there is at most one
      start for every epoch begun in it, besides one already pending. */
  lemma {:induction false} StretchAdmits(c: Config, s: Limiter, steps: seq<Step>)
    requires ValidConfig(c) && Orderly(c, s) && Legal(c, s, steps)
    ensures var t := Exec(c, s, steps);
      && s.starts <= t.starts && 0 <= Room(c, t)
      && t.admitted + Room(c, t) <= s.admitted + Room(c, s) + (t.starts - s.starts) * c.witnessesPerEpoch
      && t.starts + Pending(t) == s.starts + Pending(s) + Ticks(steps)
    decreases |steps|
  {
    if steps == [] {
    } else {
      var m := Next(c, s, steps[0]);
      StepKeepsOrderly(c, s, steps[0]);
      StepAdmits(c, s, steps[0]);
      StretchAdmits(c, m, steps[1..]);
      Distribute(Exec(c, m, steps[1..]).starts - m.starts, m.starts - s.starts, c.witnessesPerEpoch);
      hide Next;
      hide Orderly;
    }
  }

  /** While an interval is active, its count stays below the number of witnesses per epoch,
      and n interval starts admit at most n times that number. */
  lemma StartsBoundAdmission(c: Config, steps: seq<Step>)
    requires ValidConfig(c) && Legal(c, Init(c), steps)
    ensures var s := Exec(c, Init(c), steps);
      && (s.active ==> 0 <= s.count < c.witnessesPerEpoch)
      && s.admitted <= s.starts * c.witnessesPerEpoch
  {
    RunKeepsOrderly(c, Init(c), steps);
    StretchAdmits(c, Init(c), steps);
  }

  lemma Scale(x: int, y: int, w: int)
    requires x <= y && w >= 0
    ensures x * w <= y * w
    ensures y * w + w == (y + 1) * w
  {
  }

  /** Any k consecutive epochs admit at most k + 1 times the witnesses per epoch: from a state just
      before an epoch tick on, with k ticks. */
  lemma EpochsBoundAdmission(c: Config, before: seq<Step>, during: seq<Step>)
    requires ValidConfig(c) && Legal(c, Init(c), before + during)
    requires var s := Exec(c, Init(c), before); s.now == s.nextEpoch
    ensures var (s, t) := (Exec(c, Init(c), before), Exec(c, Init(c), before + during));
      t.admitted - s.admitted <= (Ticks(during) + 1) * c.witnessesPerEpoch
  {
    Compose(c, Init(c), before, during);
    RunKeepsOrderly(c, Init(c), before);
    var s := Exec(c, Init(c), before);
    StretchAdmits(c, s, during);
    var t := Exec(c, s, during);
    Scale(t.starts - s.starts, Ticks(during), c.witnessesPerEpoch);
  }
}
