/** The rate limiter, its collectors and the request filters, updated in place. */
module RateLimitImpl {
  import RL = RateLimit
  import opened CollectorStack
  import opened Options

  /** A number drawn from [0, n); there is none to draw unless n is positive. */
  method Int63n(n: int) returns (r: int)
    requires n > 0
    ensures 0 <= r < n
  {
    r :| 0 <= r < n;
  }

  function Minutes(duration: int): real {
    (duration as real) / 60_000_000_000.0
  }

  class SharedRateLimit {
    const config: RL.Config
    const maxDuration: int

    var sampleIntervalStart: RL.Time
    var sampleIntervalActive: bool
    var sampleIntervalCount: int
    var intervalTimer: RL.Timer
    var estimatedSampleInterval: int
    var firstEstimate: bool
    var children: seq<RateLimitCollector>

    ghost var starts: nat
    ghost var admitted: nat

    /** The limiter at a given time and with a given next epoch, both kept by the clock. */
    ghost function View(now: RL.Time, nextEpoch: RL.Time): RL.Limiter
      reads this
    {
      RL.Limiter(now, nextEpoch, intervalTimer, sampleIntervalStart, sampleIntervalActive, sampleIntervalCount,
                 estimatedSampleInterval, firstEstimate, starts, admitted)
    }

    /** The limit is `witnessesPerMinute` times the epoch in minutes, rounded down, but at least 1. */
    constructor (witnessesPerMinute: real, epoch: int, alpha: real, maxDuration: int)
      requires epoch > 0 && 0.0 <= alpha <= 1.0
      ensures RL.ValidConfig(config) && config.epoch == epoch && config.alpha == alpha
      ensures this.maxDuration == maxDuration && children == []
      ensures View(0, epoch) == RL.Init(config)
      ensures var witnesses := witnessesPerMinute * Minutes(epoch);
        config.witnessesPerEpoch == if witnesses >= 1.0 then witnesses.Floor else 1
    {
      var witnessLimit := witnessesPerMinute * Minutes(epoch);
      if witnessLimit < 1.0 {
        witnessLimit := 1.0;
      }
      config := RL.Config(epoch, alpha, witnessLimit.Floor);
      this.maxDuration := maxDuration;
      sampleIntervalStart, sampleIntervalActive, sampleIntervalCount := 0, false, 0;
      // The timer set by run() is due at once.
      intervalTimer := RL.Due(0);
      estimatedSampleInterval, firstEstimate := 0, true;
      children := [];
      starts, admitted := 0, 0;
    }

    method StartInterval(start: RL.Time)
      modifies this
      ensures forall now, next :: View(now, next) == RL.StartInterval(old(View(now, next)), start)
      ensures children == old(children)
    {
      sampleIntervalStart := start;
      sampleIntervalCount := 0;
      sampleIntervalActive := true;
      starts := starts + 1;
    }

    method EndInterval(end: RL.Time)
      modifies this
      ensures forall now, next :: View(now, next) == RL.EndInterval(config, old(View(now, next)), end)
      ensures children == old(children)
    {
      var intervalLength := end - sampleIntervalStart;
      sampleIntervalActive := false;
      sampleIntervalCount := 0;
      if firstEstimate {
        estimatedSampleInterval := intervalLength;
        firstEstimate := false;
      } else {
        var exponentialMovingAverage :=
          (1.0 - config.alpha) * (estimatedSampleInterval as real) + config.alpha * (intervalLength as real);
        estimatedSampleInterval := exponentialMovingAverage.Floor;
      }
    }

    /** Plans the interval of the new epoch and tells every collector that takes it. The requirement is what
        the bound on the estimate guarantees in every run. */
    method StartNewEpoch(epochStart: RL.Time) returns (ghost offset: int)
      requires firstEstimate || estimatedSampleInterval < config.epoch
      modifies this, children
      ensures forall now, next :: View(now, next) == RL.StartNewEpoch(old(View(now, next)), epochStart, offset)
      ensures if old(firstEstimate) then offset == 0 else 0 <= offset < config.epoch - old(estimatedSampleInterval)
      ensures children == old(children)
      ensures forall c :: c in children ==>
                && c.epochCh == (if old(c.epochCh).None? then Some(epochStart - maxDuration) else old(c.epochCh))
                && c.requestArrivalTimes == old(c.requestArrivalTimes) && c.forwarded == old(c.forwarded)
    {
      if firstEstimate {
        offset := 0;
        intervalTimer := RL.Due(epochStart);
      } else {
        var upperBound := config.epoch - estimatedSampleInterval;
        var randomOffset := Int63n(upperBound);
        offset := randomOffset;
        intervalTimer := RL.Due(epochStart + randomOffset);
      }
      var threshold := epochStart - maxDuration;
      ghost var planned := intervalTimer;
      for i := 0 to |children|
        invariant unchanged(`sampleIntervalStart) && unchanged(`sampleIntervalActive) && unchanged(`sampleIntervalCount)
        invariant unchanged(`estimatedSampleInterval) && unchanged(`firstEstimate) && unchanged(`children)
        invariant unchanged(`starts) && unchanged(`admitted) && intervalTimer == planned
        invariant forall c :: c in children ==>
                    && (c.epochCh == old(c.epochCh)
                        || (old(c.epochCh).None? && c.epochCh == Some(threshold)))
                    && c.requestArrivalTimes == old(c.requestArrivalTimes) && c.forwarded == old(c.forwarded)
        invariant forall j :: 0 <= j < i ==> children[j].epochCh.Some?
      {
        if children[i].epochCh.None? {
          children[i].epochCh := Some(threshold);
        }
      }
    }

    method AllowHTTPRequest(now: RL.Time, ghost next: RL.Time) returns (allowed: bool)
      modifies this
      ensures allowed == old(sampleIntervalActive)
      ensures View(now, next) == RL.AllowHttpRequest(config, old(View(now, next)))
      ensures children == old(children)
    {
      if !sampleIntervalActive {
        return false;
      }
      sampleIntervalCount := sampleIntervalCount + 1;
      admitted := admitted + 1;
      if sampleIntervalCount >= config.witnessesPerEpoch {
        EndInterval(now);
      }
      return true;
    }

    method AllowOther() returns (allowed: bool)
      ensures allowed == sampleIntervalActive
    {
      return sampleIntervalActive;
    }

    /** Removes a closed collector, which appears once; the others keep their order. */
    method OnCollectorClose(closed: RateLimitCollector)
      modifies this
      ensures closed !in old(children) ==> children == old(children)
      ensures closed in old(children) ==>
                exists i :: 0 <= i < |old(children)| && old(children)[i] == closed
                            && closed !in old(children)[..i]
                            && children == old(children)[..i] + old(children)[i + 1..]
      ensures forall now, next :: View(now, next) == old(View(now, next))
    {
      for i := 0 to |children|
        invariant closed !in children[..i]
        invariant unchanged(this)
      {
        if children[i] == closed {
          children := children[..i] + children[i + 1..];
          return;
        }
      }
    }
  }

  class RateLimitCollector {
    const rateLimit: SharedRateLimit
    var requestArrivalTimes: map<Key, RL.Time>
    var epochCh: Option<RL.Time>

    // What the next collector in the stack has been given.
    var forwarded: seq<Packet>

    constructor (rateLimit: SharedRateLimit)
      ensures this.rateLimit == rateLimit && requestArrivalTimes == map[] && epochCh == None && forwarded == []
    {
      this.rateLimit := rateLimit;
      requestArrivalTimes, epochCh, forwarded := map[], None, [];
    }

    /** Expires the requests that came in before the threshold. */
    method ExpireRequests(threshold: RL.Time)
      modifies this`requestArrivalTimes
      ensures requestArrivalTimes == Expire(old(requestArrivalTimes), threshold)
    {
      var todo := requestArrivalTimes.Keys;
      while todo != {}
        invariant requestArrivalTimes ==
                  map k | k in old(requestArrivalTimes) && (k in todo || old(requestArrivalTimes)[k] >= threshold)
                        :: old(requestArrivalTimes)[k]
        invariant todo <= old(requestArrivalTimes).Keys
        decreases todo
      {
        var k :| k in todo;
        todo := todo - {k};
        if requestArrivalTimes[k] < threshold {
          requestArrivalTimes := requestArrivalTimes - {k};
        }
      }
    }

    method Process(p: Packet, now: RL.Time, ghost next: RL.Time)
      modifies this, rateLimit
      ensures var (arrivals, passed) := Limit(old(requestArrivalTimes), p, old(rateLimit.sampleIntervalActive));
        && requestArrivalTimes == (if old(epochCh).Some? then Expire(arrivals, old(epochCh).value) else arrivals)
        && forwarded == if passed then old(forwarded) + [p] else old(forwarded)
      ensures epochCh == None
      ensures rateLimit.View(now, next) ==
              if p.content.HttpRequest? then RL.AllowHttpRequest(rateLimit.config, old(rateLimit.View(now, next)))
              else old(rateLimit.View(now, next))
    {
      match p.content {
        case HttpRequest(key, _) =>
          var allowed := rateLimit.AllowHTTPRequest(now, next);
          if allowed {
            forwarded := forwarded + [p];
            requestArrivalTimes := requestArrivalTimes[key := p.observed];
          }
        case HttpResponse(key) =>
          if key in requestArrivalTimes {
            requestArrivalTimes := requestArrivalTimes - {key};
            forwarded := forwarded + [p];
          }
        case OtherTraffic(_) =>
          var allowed := rateLimit.AllowOther();
          if allowed {
            forwarded := forwarded + [p];
          }
      }
      if epochCh.Some? {
        var threshold := epochCh.value;
        epochCh := None;
        ExpireRequests(threshold);
      }
    }
  }

  /** A filter on HTTP requests, which also keeps back the responses of those it rejects. */
  class GenericRequestFilter {
    const filterFunc: RequestInfo -> bool
    const toWitnessID: Key -> WitnessId
    var filteredIDs: set<WitnessId>

    constructor (filterFunc: RequestInfo -> bool, toWitnessID: Key -> WitnessId)
      ensures this.filterFunc == filterFunc && this.toWitnessID == toWitnessID && filteredIDs == {}
    {
      this.filterFunc := filterFunc;
      this.toWitnessID := toWitnessID;
      filteredIDs := {};
    }

    method Process(p: Packet) returns (passed: bool)
      modifies this
      ensures (filteredIDs, passed) == Filter(filterFunc, toWitnessID, old(filteredIDs), p)
    {
      passed := true;
      match p.content {
        case HttpRequest(key, info) =>
          if !filterFunc(info) {
            passed := false;
            filteredIDs := filteredIDs + {toWitnessID(key)};
          }
        case HttpResponse(key) =>
          if toWitnessID(key) in filteredIDs {
            passed := false;
          }
        case OtherTraffic(_) =>
      }
    }
  }

  /** The loop of the exclusion filters, on a path or host; a request without URL has no path. */
  method NotExcluded<S>(matchers: seq<S -> bool>, subject: Option<S>) returns (accept: bool)
    ensures accept <==> (subject.Some? ==> forall m :: m in matchers ==> !m(subject.value))
  {
    if subject.Some? {
      for i := 0 to |matchers|
        invariant forall j :: 0 <= j < i ==> !matchers[j](subject.value)
      {
        if matchers[i](subject.value) {
          return false;
        }
      }
    }
    return true;
  }

  /** The loop of the allowlist filters. */
  method Allowed<S>(matchers: seq<S -> bool>, subject: Option<S>) returns (accept: bool)
    ensures accept <==> subject.Some? && exists m :: m in matchers && m(subject.value)
  {
    if subject.Some? {
      for i := 0 to |matchers|
        invariant forall j :: 0 <= j < i ==> !matchers[j](subject.value)
      {
        if matchers[i](subject.value) {
          return true;
        }
      }
    }
    return false;
  }
}
