/** The rate limit told from the history of its steps: when an interval is active, what it admits, how long it
    lasts, and what the estimate makes of the lengths. */
module RateHistory {
  import opened RateLimit

  function Last(steps: seq<Step>): Step
    requires steps != []
  {
    steps[|steps| - 1]
  }

  function Before(steps: seq<Step>): seq<Step>
    requires steps != []
  {
    steps[..|steps| - 1]
  }

  /** The time to which the clock was last advanced. */
  function Now(steps: seq<Step>): Time
    decreases |steps|
  {
    if steps == [] then 0 else if Last(steps).Advance? then Last(steps).to else Now(Before(steps))
  }

  function Fires(steps: seq<Step>): nat
    decreases |steps|
  {
    if steps == [] then 0 else Fires(Before(steps)) + if Last(steps).Fire? then 1 else 0
  }

  /** When the last interval began. */
  function Began(steps: seq<Step>): Time
    decreases |steps|
  {
    if steps == [] then 0 else if Last(steps).Fire? then Now(Before(steps)) else Began(Before(steps))
  }

  /** The requests since the last interval began. */
  function Since(steps: seq<Step>): nat
    decreases |steps|
  {
    if steps == [] || Last(steps).Fire? then 0 else Since(Before(steps)) + if Last(steps).Request? then 1 else 0
  }

  /** An interval is active from its beginning to the request that makes its number of witnesses full. */
  predicate Active(c: Config, steps: seq<Step>) {
    Fires(steps) > 0 && Since(steps) < c.witnessesPerEpoch
  }

  function Admitted(c: Config, steps: seq<Step>): nat
    decreases |steps|
  {
    if steps == [] then 0
    else Admitted(c, Before(steps)) + if Last(steps).Request? && Active(c, Before(steps)) then 1 else 0
  }

  /** The lengths of the intervals that became full, from their beginnings to the requests that filled them. */
  function Lengths(c: Config, steps: seq<Step>): seq<int>
    decreases |steps|
  {
    if steps == [] then []
    else
      var before := Before(steps);
      Lengths(c, before) +
      if Last(steps).Request? && Active(c, before) && Since(before) + 1 == c.witnessesPerEpoch
      then [Now(before) - Began(before)] else []
  }

  /** The weighted average of two lengths, cut to a whole number. */
  function Blend(alpha: real, x: int, y: int): int {
    ((1.0 - alpha) * (x as real) + alpha * (y as real)).Floor
  }

  /** The first length, and then the moving average of those that follow, each time cut to a whole number. */
  function Smoothed(alpha: real, lengths: seq<int>): int
    decreases |lengths|
  {
    if lengths == [] then 0
    else if |lengths| == 1 then lengths[0]
    else
      var n := |lengths| - 1;
      Blend(alpha, Smoothed(alpha, lengths[..n]), lengths[n])
  }

  /** The start planned for the epoch: at its beginning plus the offset drawn, until it comes. */
  function Planned(steps: seq<Step>): Timer
    decreases |steps|
  {
    if steps == [] then Due(0)
    else
      match Last(steps)
      case Tick(offset) => Due(Now(Before(steps)) + offset)
      case Fire => Idle
      case _ => Planned(Before(steps))
  }

  function Begun(steps: seq<Step>): nat
    decreases |steps|
  {
    if steps == [] then 0 else Begun(Before(steps)) + if Last(steps).Tick? then 1 else 0
  }

  lemma {:induction false} Multiple(k: nat, e: int)
    ensures (k + 1) * e == k * e + e
  {
  }

  lemma ExecPush(c: Config, s: Limiter, steps: seq<Step>, step: Step)
    ensures Exec(c, s, steps + [step]) == Next(c, Exec(c, s, steps), step)
    ensures Legal(c, s, steps + [step]) <==> Legal(c, s, steps) && Enabled(c, Exec(c, s, steps), step)
  {
    Compose(c, s, steps, [step]);
    assert [step][1..] == [];
    var t := Exec(c, s, steps);
    assert Exec(c, t, [step]) == Exec(c, Next(c, t, step), []);
    assert Legal(c, t, [step]) <==> Enabled(c, t, step) && Legal(c, Next(c, t, step), []);
  }

  /** The limiter's fields say what the history does. */
  ghost predicate AsTold(c: Config, s: Limiter, steps: seq<Step>) {
    && s.now == Now(steps) && s.nextEpoch == (Begun(steps) + 1) * c.epoch && s.timer == Planned(steps)
    && s.active == Active(c, steps)
    && (s.active ==> s.count == Since(steps) && s.intervalStart == Began(steps))
    && s.firstEstimate == (Lengths(c, steps) == [])
    && s.estimate == Smoothed(c.alpha, Lengths(c, steps))
    && s.starts == Fires(steps) && s.admitted == Admitted(c, steps)
  }

  lemma SmoothedPush(alpha: real, lengths: seq<int>, length: int)
    ensures Smoothed(alpha, lengths + [length]) ==
            if lengths == [] then length else Average(alpha, Smoothed(alpha, lengths), length)
  {
    assert (lengths + [length])[..|lengths|] == lengths;
  }

  lemma StepAsTold(c: Config, s: Limiter, steps: seq<Step>, step: Step)
    requires ValidConfig(c) && AsTold(c, s, steps)
    ensures AsTold(c, Next(c, s, step), steps + [step])
  {
    var more := steps + [step];
    assert Before(more) == steps && Last(more) == step;
    Multiple(Begun(steps) + 1, c.epoch);
    var lengths := Lengths(c, steps);
    assert lengths + [] == lengths;
    hide Smoothed, Average;
    if step.Request? && s.active && s.count + 1 >= c.witnessesPerEpoch {
      var length := s.now - s.intervalStart;
      assert Lengths(c, more) == lengths + [length];
      SmoothedPush(c.alpha, lengths, length);
    }
  }

  /** In every run the limiter is what its history makes of it: an interval is active from its start, planned at
      the beginning of an epoch plus the drawn offset, to the request that fills it; every request meanwhile is
      admitted and no other; epoch k begins at k times the epoch; and the estimate is the first length of a full
      interval, smoothed with those that follow. */
  lemma {:induction false} LimiterAsTold(c: Config, steps: seq<Step>)
    requires ValidConfig(c) && Legal(c, Init(c), steps)
    ensures AsTold(c, Exec(c, Init(c), steps), steps)
    decreases |steps|
  {
    if steps == [] {
      assert 1 * c.epoch == c.epoch;
    } else {
      hide AsTold, Exec, Legal;
      assert steps == Before(steps) + [Last(steps)];
      ExecPush(c, Init(c), Before(steps), Last(steps));
      LimiterAsTold(c, Before(steps));
      StepAsTold(c, Exec(c, Init(c), Before(steps)), Before(steps), Last(steps));
    }
  }

  /** A weighted average of two whole numbers, cut to a whole number, lies between them. */
  lemma AverageBetween(alpha: real, x: int, y: int)
    requires 0.0 <= alpha <= 1.0
    ensures x <= Blend(alpha, x, y) || y <= Blend(alpha, x, y)
    ensures Blend(alpha, x, y) <= x || Blend(alpha, x, y) <= y
  {
    var a := (1.0 - alpha) * (x as real) + alpha * (y as real);
    assert a == (x as real) + alpha * ((y - x) as real);
    assert a == (y as real) + (1.0 - alpha) * ((x - y) as real);
    if x <= y {
      NonNegative(alpha, (y - x) as real);
      NonNegative(1.0 - alpha, (y - x) as real);
      assert (1.0 - alpha) * ((x - y) as real) == 0.0 - (1.0 - alpha) * ((y - x) as real);
    } else {
      NonNegative(alpha, (x - y) as real);
      NonNegative(1.0 - alpha, (x - y) as real);
      assert alpha * ((y - x) as real) == 0.0 - alpha * ((x - y) as real);
    }
  }

  /** The smoothed length is never shorter than all lengths, nor longer than all. */
  lemma {:induction false} SmoothedBetween(alpha: real, lengths: seq<int>)
    requires 0.0 <= alpha <= 1.0 && lengths != []
    ensures exists i :: 0 <= i < |lengths| && lengths[i] <= Smoothed(alpha, lengths)
    ensures exists i :: 0 <= i < |lengths| && Smoothed(alpha, lengths) <= lengths[i]
    decreases |lengths|
  {
    hide Blend;
    var n := |lengths| - 1;
    if n == 0 {
      assert lengths[0] <= Smoothed(alpha, lengths) <= lengths[0];
    } else {
      SmoothedBetween(alpha, lengths[..n]);
      var i :| 0 <= i < n && lengths[..n][i] <= Smoothed(alpha, lengths[..n]);
      var j :| 0 <= j < n && Smoothed(alpha, lengths[..n]) <= lengths[..n][j];
      AverageBetween(alpha, Smoothed(alpha, lengths[..n]), lengths[n]);
      var s := Smoothed(alpha, lengths);
      assert lengths[if lengths[n] <= s then n else i] <= s;
      assert s <= lengths[if s <= lengths[n] then n else j];
    }
  }

  /** So, once an interval became full, the estimate lies between the shortest and the longest of their lengths. */
  lemma EstimateBetweenLengths(c: Config, steps: seq<Step>)
    requires ValidConfig(c) && Legal(c, Init(c), steps) && Lengths(c, steps) != []
    ensures var lengths, estimate := Lengths(c, steps), Exec(c, Init(c), steps).estimate;
      && (exists i :: 0 <= i < |lengths| && lengths[i] <= estimate)
      && (exists i :: 0 <= i < |lengths| && estimate <= lengths[i])
  {
    LimiterAsTold(c, steps);
    SmoothedBetween(c.alpha, Lengths(c, steps));
  }
}
