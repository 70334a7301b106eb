/** The collectors between the network and the sink: host and path filters, then the
    rate limiter, then the sampler. Several such stacks share one rate limit. */
module CollectorStack {
  import opened Counting
  import opened Options
  import RL = RateLimit

  type StreamId(==, !new)
  type RequestInfo(==, !new)
  type OtherContent(==, !new)
  type WitnessId(==, !new)

  datatype Key = Key(stream: StreamId, number: int)

  datatype Content =
    | HttpRequest(key: Key, info: RequestInfo)
    | HttpResponse(key: Key)
    | OtherTraffic(what: OtherContent)

  datatype Packet = Packet(content: Content, observed: RL.Time)

  /** What a stack is built with: the filter functions, outermost first, the witness ID
      derived from stream and sequence number, and the sampler's choice, which
      hashes the same key for a request and its response. */
  datatype Chain = Chain(
    filters: seq<RequestInfo -> bool>,
    witnessId: Key -> WitnessId,
    sampled: Key -> bool,
    sampledOther: OtherContent -> bool)

  datatype Stack = Stack(
    filtered: seq<set<WitnessId>>,
    arrivals: map<Key, RL.Time>,
    epochCh: Option<RL.Time>,
    sink: seq<Packet>)

  // ---- One packet through one stack ----

  /** genericRequestFilter.Process: the IDs recorded and whether the packet passes. */
  function Filter(accepts: RequestInfo -> bool, witnessId: Key -> WitnessId, ids: set<WitnessId>, p: Packet)
    : (set<WitnessId>, bool)
  {
    match p.content
    case HttpRequest(key, info) => if accepts(info) then (ids, true) else (ids + {witnessId(key)}, false)
    case HttpResponse(key) => (ids, witnessId(key) !in ids)
    case OtherTraffic(_) => (ids, true)
  }

  function PassFilters(chain: Chain, filtered: seq<set<WitnessId>>, p: Packet, i: nat): (seq<set<WitnessId>>, bool)
    requires |filtered| == |chain.filters| && i <= |filtered|
    decreases |filtered| - i
  {
    if i == |filtered| then (filtered, true)
    else
      var (ids, included) := Filter(chain.filters[i], chain.witnessId, filtered[i], p);
      var next := filtered[i := ids];
      if included then PassFilters(chain, next, p, i + 1) else (next, false)
  }

  /** rateLimitCollector.Process up to the epoch check: the arrival times and whether the packet is forwarded. */
  function Limit(arrivals: map<Key, RL.Time>, p: Packet, allowed: bool): (map<Key, RL.Time>, bool) {
    match p.content
    case HttpRequest(key, _) => if allowed then (arrivals[key := p.observed], true) else (arrivals, false)
    case HttpResponse(key) => if key in arrivals then (arrivals - {key}, true) else (arrivals, false)
    case OtherTraffic(_) => (arrivals, allowed)
  }

  function Expire(arrivals: map<Key, RL.Time>, threshold: RL.Time): map<Key, RL.Time> {
    map k | k in arrivals && arrivals[k] >= threshold :: arrivals[k]
  }

  predicate Sampled(chain: Chain, p: Packet) {
    match p.content
    case HttpRequest(key, _) => chain.sampled(key)
    case HttpResponse(key) => chain.sampled(key)
    case OtherTraffic(what) => chain.sampledOther(what)
  }

  predicate Fits(chain: Chain, s: Stack) {
    |s.filtered| == |chain.filters|
  }

  /** A packet goes through the whole stack; `allowed` is the shared rate limit's answer at that moment. */
  function Arrive(chain: Chain, s: Stack, p: Packet, allowed: bool): Stack
    requires Fits(chain, s)
  {
    var (filtered, included) := PassFilters(chain, s.filtered, p, 0);
    if !included then s.(filtered := filtered)
    else
      var (arrivals, forwarded) := Limit(s.arrivals, p, allowed);
      Stack(filtered,
            if s.epochCh.Some? then Expire(arrivals, s.epochCh.value) else arrivals,
            None,
            if forwarded && Sampled(chain, p) then s.sink + [p] else s.sink)
  }

  /** The rate limiter tells a collector that a new epoch began; the message is lost if one is waiting. */
  function Notify(s: Stack, threshold: RL.Time): Stack {
    if s.epochCh.None? then s.(epochCh := Some(threshold)) else s
  }

  // ---- Coherence of requests and responses in one stack ----

  ghost function RequestFor(key: Key): Packet -> bool {
    (p: Packet) => p.content.HttpRequest? && p.content.key == key
  }

  ghost function ResponseFor(key: Key): Packet -> bool {
    (p: Packet) => p.content.HttpResponse? && p.content.key == key
  }

  /** A response comes only after its request, and each request admits at most one response. */
  ghost predicate Coherent(sink: seq<Packet>) {
    forall n, key :: 0 <= n <= |sink| ==> Count(ResponseFor(key), sink[..n]) <= Count(RequestFor(key), sink[..n])
  }

  /** Every request waiting for its response in the limiter has been passed on to the sink, if its
      key is sampled, and is one more than the responses passed on. */
  ghost predicate Waiting(chain: Chain, s: Stack) {
    forall key :: Count(ResponseFor(key), s.sink) + (if key in s.arrivals && chain.sampled(key) then 1 else 0)
               <= Count(RequestFor(key), s.sink)
  }

  lemma {:induction false} FiltersKeepShape(chain: Chain, filtered: seq<set<WitnessId>>, p: Packet, i: nat)
    requires |filtered| == |chain.filters| && i <= |filtered|
    ensures |PassFilters(chain, filtered, p, i).0| == |filtered|
    decreases |filtered| - i
  {
    if i == |filtered| {
    } else {
      var (ids, included) := Filter(chain.filters[i], chain.witnessId, filtered[i], p);
      FiltersKeepShape(chain, filtered[i := ids], p, i + 1);
    }
  }

  lemma ArriveKeepsWaiting(chain: Chain, s: Stack, p: Packet, allowed: bool, key: Key)
    requires Fits(chain, s) && Waiting(chain, s)
    ensures var t := Arrive(chain, s, p, allowed);
      Count(ResponseFor(key), t.sink) + (if key in t.arrivals && chain.sampled(key) then 1 else 0)
      <= Count(RequestFor(key), t.sink)
  {
    assert Count(ResponseFor(key), s.sink) + (if key in s.arrivals && chain.sampled(key) then 1 else 0)
        <= Count(RequestFor(key), s.sink);
    CountPush(ResponseFor(key), s.sink, p);
    CountPush(RequestFor(key), s.sink, p);
  }

  lemma ArriveKeepsCoherent(chain: Chain, s: Stack, p: Packet, allowed: bool)
    requires Fits(chain, s) && Waiting(chain, s) && Coherent(s.sink)
    ensures var t := Arrive(chain, s, p, allowed);
      Fits(chain, t) && Waiting(chain, t) && Coherent(t.sink)
  {
    FiltersKeepShape(chain, s.filtered, p, 0);
    var t := Arrive(chain, s, p, allowed);
    assert Fits(chain, t) && (t.sink == s.sink || t.sink == s.sink + [p]);
    hide Arrive, Count;
    forall key
      ensures Count(ResponseFor(key), t.sink) + (if key in t.arrivals && chain.sampled(key) then 1 else 0)
           <= Count(RequestFor(key), t.sink)
    {
      ArriveKeepsWaiting(chain, s, p, allowed, key);
    }
    forall n, key | 0 <= n <= |t.sink|
      ensures Count(ResponseFor(key), t.sink[..n]) <= Count(RequestFor(key), t.sink[..n])
    {
      if n <= |s.sink| {
        assert t.sink[..n] == s.sink[..n];
      } else {
        assert t.sink[..n] == t.sink;
        ArriveKeepsWaiting(chain, s, p, allowed, key);
      }
    }
  }

  // ---- The whole system ----

  /** Several stacks sharing one rate limit. */
  datatype System = System(limiter: RL.Limiter, stacks: seq<Stack>)

  datatype Config = Config(limit: RL.Config, maxDuration: int, chains: seq<Chain>)

  datatype Step = Clock(step: RL.Step) | Traffic(stack: nat, packet: Packet)

  function InitStack(chain: Chain): Stack {
    Stack(seq(|chain.filters|, i => {}), map[], None, [])
  }

  function Init(c: Config): System {
    System(RL.Init(c.limit), seq(|c.chains|, i requires 0 <= i < |c.chains| => InitStack(c.chains[i])))
  }

  /** Does the packet reach the shared rate limit as a request? */
  predicate Asks(chain: Chain, s: Stack, p: Packet)
    requires Fits(chain, s)
  {
    p.content.HttpRequest? && PassFilters(chain, s.filtered, p, 0).1
  }

  predicate Shaped(c: Config, s: System) {
    |s.stacks| == |c.chains| && forall i :: 0 <= i < |s.stacks| ==> Fits(c.chains[i], s.stacks[i])
  }

  /** Requests to the rate limit come from traffic only. */
  ghost predicate Enabled(c: Config, s: System, step: Step) {
    match step
    case Clock(clock) => !clock.Request? && RL.Enabled(c.limit, s.limiter, clock)
    case Traffic(i, _) => i < |s.stacks| && RL.Enabled(c.limit, s.limiter, RL.Request)
  }

  function NotifyAll(stacks: seq<Stack>, threshold: RL.Time): seq<Stack> {
    seq(|stacks|, i requires 0 <= i < |stacks| => Notify(stacks[i], threshold))
  }

  function Next(c: Config, s: System, step: Step): System
    requires Shaped(c, s) && (step.Traffic? ==> step.stack < |s.stacks|)
  {
    match step
    case Clock(clock) =>
      System(RL.Next(c.limit, s.limiter, clock),
             if clock.Tick? then NotifyAll(s.stacks, s.limiter.now - c.maxDuration) else s.stacks)
    case Traffic(i, p) =>
      System(if Asks(c.chains[i], s.stacks[i], p) then RL.AllowHttpRequest(c.limit, s.limiter) else s.limiter,
             s.stacks[i := Arrive(c.chains[i], s.stacks[i], p, s.limiter.active)])
  }

  ghost predicate IsRun(c: Config, run: seq<System>, steps: seq<Step>) {
    && |run| == |steps| + 1
    && run[0] == Init(c)
    && forall i :: 0 <= i < |steps| ==>
         Shaped(c, run[i]) && Enabled(c, run[i], steps[i]) && run[i + 1] == Next(c, run[i], steps[i])
  }

  ghost predicate AllCoherent(c: Config, s: System)
    requires Shaped(c, s)
  {
    forall i :: 0 <= i < |s.stacks| ==> Waiting(c.chains[i], s.stacks[i]) && Coherent(s.stacks[i].sink)
  }

  lemma StepKeepsCoherent(c: Config, s: System, step: Step)
    requires Shaped(c, s) && AllCoherent(c, s) && Enabled(c, s, step)
    ensures Shaped(c, Next(c, s, step)) && AllCoherent(c, Next(c, s, step))
  {
    match step
    case Clock(clock) =>
      forall i | 0 <= i < |s.stacks|
        ensures Waiting(c.chains[i], Next(c, s, step).stacks[i]) && Coherent(Next(c, s, step).stacks[i].sink)
      {
        assert Waiting(c.chains[i], s.stacks[i]);
        var t := Next(c, s, step).stacks[i];
        forall key
          ensures Count(ResponseFor(key), t.sink) + (if key in t.arrivals && c.chains[i].sampled(key) then 1 else 0)
               <= Count(RequestFor(key), t.sink)
        {
          assert t.sink == s.stacks[i].sink && t.arrivals == s.stacks[i].arrivals;
        }
      }
    case Traffic(i, p) =>
      ArriveKeepsCoherent(c.chains[i], s.stacks[i], p, s.limiter.active);
  }

  lemma InitCoherent(c: Config)
    ensures Shaped(c, Init(c)) && AllCoherent(c, Init(c))
  {
  }

  /** Through every composed stack, for any interleaving of streams, expirations and epochs, a
      response reaches the sink only if a request with its key reached it earlier,
      and each forwarded request admits at most one response. */
  lemma {:induction false} SinksCoherent(c: Config, run: seq<System>, steps: seq<Step>, n: nat)
    requires IsRun(c, run, steps) && n < |run|
    ensures Shaped(c, run[n]) && AllCoherent(c, run[n])
  {
    if n == 0 {
      InitCoherent(c);
    } else {
      SinksCoherent(c, run, steps, n - 1);
      StepKeepsCoherent(c, run[n - 1], steps[n - 1]);
    }
  }

  // ---- Which responses get through ----

  lemma {:induction false} ResponsePasses(chain: Chain, filtered: seq<set<WitnessId>>, p: Packet, i: nat)
    requires |filtered| == |chain.filters| && i <= |filtered| && p.content.HttpResponse?
    ensures PassFilters(chain, filtered, p, i) ==
            (filtered, forall j :: i <= j < |filtered| ==> chain.witnessId(p.content.key) !in filtered[j])
    decreases |filtered| - i
  {
    if i == |filtered| {
    } else {
      assert filtered[i := filtered[i]] == filtered;
      ResponsePasses(chain, filtered, p, i + 1);
    }
  }

  /** A response reaches the sink exactly if no filter rejected a request with its witness ID, the
      limiter still waits for it, and its key is sampled: then and only then was its request
      passed on, so a pair is never split by the sampler. */
  lemma ResponseForwardedExactlyWhen(chain: Chain, s: Stack, p: Packet, allowed: bool)
    requires Fits(chain, s) && p.content.HttpResponse?
    ensures Arrive(chain, s, p, allowed).sink == s.sink + [p] <==>
      && (forall j :: 0 <= j < |s.filtered| ==> chain.witnessId(p.content.key) !in s.filtered[j])
      && p.content.key in s.arrivals
      && chain.sampled(p.content.key)
    ensures Arrive(chain, s, p, allowed).sink != s.sink + [p] ==> Arrive(chain, s, p, allowed).sink == s.sink
  {
    ResponsePasses(chain, s.filtered, p, 0);
    assert |s.sink + [p]| == |s.sink| + 1;
  }

  // ---- The rate limit holds across the stacks ----

  ghost predicate IsRequest(p: Packet) {
    p.content.HttpRequest?
  }

  ghost function Forwarded(stacks: seq<Stack>): nat {
    if stacks == [] then 0 else Count(IsRequest, stacks[0].sink) + Forwarded(stacks[1..])
  }

  lemma {:induction false} ForwardedUpdate(stacks: seq<Stack>, i: nat, s: Stack)
    requires i < |stacks|
    ensures Forwarded(stacks[i := s]) == Forwarded(stacks) - Count(IsRequest, stacks[i].sink) + Count(IsRequest, s.sink)
  {
    if i > 0 {
      assert stacks[i := s][1..] == stacks[1..][i - 1 := s];
      ForwardedUpdate(stacks[1..], i - 1, s);
    } else {
      assert stacks[i := s][1..] == stacks[1..];
    }
  }

  lemma {:induction false} ForwardedSame(stacks: seq<Stack>, others: seq<Stack>)
    requires |stacks| == |others| && forall i :: 0 <= i < |stacks| ==> stacks[i].sink == others[i].sink
    ensures Forwarded(stacks) == Forwarded(others)
  {
    if stacks == [] {
    } else {
      assert forall i :: 0 <= i < |stacks[1..]| ==> stacks[1..][i] == stacks[i + 1] && others[1..][i] == others[i + 1];
      ForwardedSame(stacks[1..], others[1..]);
    }
  }

  /** Requests are passed on only as they are admitted. */
  lemma StepForwards(c: Config, s: System, step: Step)
    requires Shaped(c, s) && Enabled(c, s, step)
    ensures var t := Next(c, s, step);
      Forwarded(t.stacks) - Forwarded(s.stacks) <= t.limiter.admitted - s.limiter.admitted
  {
    match step
    case Clock(_) => ForwardedSame(s.stacks, Next(c, s, step).stacks);
    case Traffic(i, p) =>
      ForwardedUpdate(s.stacks, i, Arrive(c.chains[i], s.stacks[i], p, s.limiter.active));
      CountPush(IsRequest, s.stacks[i].sink, p);
  }

  /** A step of the system is a step of the shared rate limit, or none. */
  lemma StepLimits(c: Config, s: System, step: Step)
    requires RL.ValidConfig(c.limit) && RL.Orderly(c.limit, s.limiter)
    requires Shaped(c, s) && Enabled(c, s, step)
    ensures var t := Next(c, s, step);
      && RL.Orderly(c.limit, t.limiter)
      && t.limiter.admitted + RL.Room(c.limit, t.limiter)
         <= s.limiter.admitted + RL.Room(c.limit, s.limiter)
            + (t.limiter.starts - s.limiter.starts) * c.limit.witnessesPerEpoch
      && 0 <= RL.Room(c.limit, t.limiter) && s.limiter.starts <= t.limiter.starts
      && t.limiter.starts + RL.Pending(t.limiter) ==
         s.limiter.starts + RL.Pending(s.limiter) + if step.Clock? && step.step.Tick? then 1 else 0
  {
    hide RL.Orderly, RL.Room, Arrive, NotifyAll;
    var clock := if step.Clock? then step.step else RL.Request;
    RL.StepKeepsOrderly(c.limit, s.limiter, clock);
    RL.StepAdmits(c.limit, s.limiter, clock);
  }

  /** The epochs begun from step i to step j. */
  function EpochsBegun(steps: seq<Step>, i: nat, j: nat): nat
    requires i <= j <= |steps|
    decreases j
  {
    if i == j then 0
    else
      var last := steps[j - 1];
      EpochsBegun(steps, i, j - 1) + if last.Clock? && last.step.Tick? then 1 else 0
  }

  lemma {:induction false} LimiterOrderly(c: Config, run: seq<System>, steps: seq<Step>, i: nat)
    requires RL.ValidConfig(c.limit) && IsRun(c, run, steps) && i < |run|
    ensures RL.Orderly(c.limit, run[i].limiter) && 0 <= RL.Room(c.limit, run[i].limiter)
  {
    if i == 0 {
    } else {
      LimiterOrderly(c, run, steps, i - 1);
      StepLimits(c, run[i - 1], steps[i - 1]);
    }
  }

  lemma {:induction false} StretchForwards(c: Config, run: seq<System>, steps: seq<Step>, i: nat, j: nat)
    requires RL.ValidConfig(c.limit) && IsRun(c, run, steps) && i <= j < |run|
    ensures run[i].limiter.starts <= run[j].limiter.starts
    ensures run[j].limiter.starts + RL.Pending(run[j].limiter) ==
            run[i].limiter.starts + RL.Pending(run[i].limiter) + EpochsBegun(steps, i, j)
    ensures Forwarded(run[j].stacks) - Forwarded(run[i].stacks) <= run[j].limiter.admitted - run[i].limiter.admitted
    ensures run[j].limiter.admitted + RL.Room(c.limit, run[j].limiter) <=
            run[i].limiter.admitted + RL.Room(c.limit, run[i].limiter)
            + (run[j].limiter.starts - run[i].limiter.starts) * c.limit.witnessesPerEpoch
    decreases j
  {
    hide RL.Orderly, RL.Room, Next, Forwarded, Enabled;
    if i == j {
    } else {
      StretchForwards(c, run, steps, i, j - 1);
      LimiterOrderly(c, run, steps, j - 1);
      StepForwards(c, run[j - 1], steps[j - 1]);
      StepLimits(c, run[j - 1], steps[j - 1]);
      RL.Distribute(run[j].limiter.starts - run[j - 1].limiter.starts,
                    run[j - 1].limiter.starts - run[i].limiter.starts, c.limit.witnessesPerEpoch);
    }
  }

  lemma {:induction false} ForwardedEmpty(stacks: seq<Stack>)
    requires forall i :: 0 <= i < |stacks| ==> stacks[i].sink == []
    ensures Forwarded(stacks) == 0
  {
    if stacks == [] {
    } else {
      ForwardedEmpty(stacks[1..]);
    }
  }

  /** All sinks together receive at most one HTTP request per admission, hence at most n times
      the witnesses per epoch when n intervals were started. */
  lemma SinksWithinLimit(c: Config, run: seq<System>, steps: seq<Step>, n: nat)
    requires RL.ValidConfig(c.limit) && IsRun(c, run, steps) && n < |run|
    ensures RL.Orderly(c.limit, run[n].limiter)
    ensures Forwarded(run[n].stacks) <= run[n].limiter.admitted
    ensures run[n].limiter.admitted + RL.Room(c.limit, run[n].limiter)
         <= run[n].limiter.starts * c.limit.witnessesPerEpoch
    ensures 0 <= RL.Room(c.limit, run[n].limiter)
  {
    ForwardedEmpty(run[0].stacks);
    hide Next, Forwarded, Enabled;
    LimiterOrderly(c, run, steps, n);
    StretchForwards(c, run, steps, 0, n);
  }

  /** All sinks together receive at most k + 1 times the witnesses per epoch in any k consecutive epochs: from
      a state just before an epoch begins on, with k beginnings. */
  lemma SinksWithinEpochs(c: Config, run: seq<System>, steps: seq<Step>, i: nat, j: nat)
    requires RL.ValidConfig(c.limit) && IsRun(c, run, steps) && i <= j < |run|
    requires run[i].limiter.now == run[i].limiter.nextEpoch
    ensures Forwarded(run[j].stacks) - Forwarded(run[i].stacks) <=
            (EpochsBegun(steps, i, j) + 1) * c.limit.witnessesPerEpoch
  {
    hide Next, Forwarded, Enabled;
    LimiterOrderly(c, run, steps, i);
    LimiterOrderly(c, run, steps, j);
    StretchForwards(c, run, steps, i, j);
    RL.Scale(run[j].limiter.starts - run[i].limiter.starts, EpochsBegun(steps, i, j), c.limit.witnessesPerEpoch);
  }
}
