/** Which packets reach the end of a collector stack, told from the history of the run alone: what arrived, when an
    interval was active, and when epochs began. */
module CollectorHistory {
  import opened Options
  import RL = RateLimit
  import opened CollectorStack

  // ---- The history ----

  ghost predicate AcceptedBy(chain: Chain, info: RequestInfo) {
    forall j :: 0 <= j < |chain.filters| ==> chain.filters[j](info)
  }

  /** Step m brings stack i a packet. */
  ghost predicate Brings(c: Config, steps: seq<Step>, m: nat, i: nat) {
    m < |steps| && steps[m].Traffic? && steps[m].stack == i && i < |c.chains|
  }

  /** Step m brings stack i a request that some filter refuses. */
  ghost predicate Refuses(c: Config, steps: seq<Step>, m: nat, i: nat, id: WitnessId) {
    && Brings(c, steps, m, i)
    && steps[m].packet.content.HttpRequest?
    && c.chains[i].witnessId(steps[m].packet.content.key) == id
    && !AcceptedBy(c.chains[i], steps[m].packet.content.info)
  }

  ghost predicate RefusedBefore(c: Config, steps: seq<Step>, n: nat, i: nat, id: WitnessId) {
    exists m: nat :: m < n && Refuses(c, steps, m, i, id)
  }

  /** Step n brings stack i a packet that passes its filters: a request that all of them accept, or a response
      with whose witness ID no request was refused before. */
  ghost predicate Passes(c: Config, steps: seq<Step>, n: nat, i: nat) {
    && Brings(c, steps, n, i)
    && match steps[n].packet.content
       case HttpRequest(_, info) => AcceptedBy(c.chains[i], info)
       case HttpResponse(key) => !RefusedBefore(c, steps, n, i, c.chains[i].witnessId(key))
       case OtherTraffic(_) => true
  }

  /** Step n brings stack i a request that passes the filters while an interval is active. */
  ghost predicate Admits(c: Config, run: seq<System>, steps: seq<Step>, n: nat, i: nat, key: Key) {
    n < |run| && Passes(c, steps, n, i) && RequestFor(key)(steps[n].packet) && run[n].limiter.active
  }

  ghost predicate Answers(c: Config, steps: seq<Step>, n: nat, i: nat, key: Key) {
    Passes(c, steps, n, i) && ResponseFor(key)(steps[n].packet)
  }

  ghost predicate BeginsEpoch(steps: seq<Step>, t: nat) {
    t < |steps| && steps[t].Clock? && steps[t].step.Tick?
  }

  ghost predicate PassesBetween(c: Config, steps: seq<Step>, t: nat, n: nat, i: nat) {
    exists q: nat :: t < q < n && Passes(c, steps, q, i)
  }

  /** Of the epochs begun since a packet last passed the filters of stack i, the one begun at t is the first. */
  ghost predicate FirstEpoch(c: Config, steps: seq<Step>, t: nat, n: nat, i: nat) {
    && t < n && BeginsEpoch(steps, t) && !PassesBetween(c, steps, t, n, i)
    && forall u: nat :: u < t && BeginsEpoch(steps, u) ==> PassesBetween(c, steps, u, t, i)
  }

  ghost function Threshold(c: Config, run: seq<System>, t: nat): RL.Time
    requires t < |run|
  {
    run[t].limiter.now - c.maxDuration
  }

  /** Packet n, having passed the filters, lets stack i expire requests, and one as old as `observed` survives.
      Only the first of the epochs begun since the last packet counts. */
  ghost predicate Survives(c: Config, run: seq<System>, steps: seq<Step>, n: nat, i: nat, observed: RL.Time) {
    Passes(c, steps, n, i) ==>
      forall t: nat :: t < |run| && FirstEpoch(c, steps, t, n, i) ==> observed >= Threshold(c, run, t)
  }

  /** Before step n, stack i waits for the response to the request that step m brought: it was the last request
      of its key to be admitted, no response of the key passed the filters since, and it survived every expiry
      since. */
  ghost predicate AwaitedSince(c: Config, run: seq<System>, steps: seq<Step>, m: nat, n: nat, i: nat, key: Key) {
    && m < n && Admits(c, run, steps, m, i, key)
    && (forall q: nat :: m < q < n ==> !Admits(c, run, steps, q, i, key) && !Answers(c, steps, q, i, key))
    && (forall q: nat :: m <= q < n ==> Survives(c, run, steps, q, i, steps[m].packet.observed))
  }

  ghost predicate Awaited(c: Config, run: seq<System>, steps: seq<Step>, n: nat, i: nat, key: Key) {
    exists m: nat :: AwaitedSince(c, run, steps, m, n, i, key)
  }

  // ---- The filters remember just the refused requests ----

  ghost predicate Holds(filtered: seq<set<WitnessId>>, id: WitnessId) {
    exists j :: 0 <= j < |filtered| && id in filtered[j]
  }

  lemma {:induction false} RequestThroughFilters(chain: Chain, filtered: seq<set<WitnessId>>, p: Packet, i: nat)
    requires |filtered| == |chain.filters| && i <= |filtered| && p.content.HttpRequest?
    ensures var (after, passed) := PassFilters(chain, filtered, p, i);
      && |after| == |filtered|
      && (passed <==> forall j :: i <= j < |filtered| ==> chain.filters[j](p.content.info))
      && forall id :: Holds(after, id) <==> Holds(filtered, id) || (!passed && id == chain.witnessId(p.content.key))
    decreases |filtered| - i
  {
    if i == |filtered| {
    } else {
      var (ids, included) := Filter(chain.filters[i], chain.witnessId, filtered[i], p);
      var next := filtered[i := ids];
      forall id
        ensures Holds(next, id) <==> Holds(filtered, id) || (!included && id == chain.witnessId(p.content.key))
      {
        if j :| 0 <= j < |filtered| && id in filtered[j] {
          assert id in next[j];
        }
        assert ids == next[i];
        if j :| 0 <= j < |next| && id in next[j] {
          assert j != i ==> id in filtered[j];
        }
      }
      RequestThroughFilters(chain, next, p, i + 1);
    }
  }

  ghost predicate FiltersFollow(c: Config, run: seq<System>, steps: seq<Step>, n: nat, i: nat)
    requires n < |run| && i < |run[n].stacks|
  {
    forall id :: Holds(run[n].stacks[i].filtered, id) <==> RefusedBefore(c, steps, n, i, id)
  }

  lemma {:induction false} OtherPasses(chain: Chain, filtered: seq<set<WitnessId>>, p: Packet, i: nat)
    requires |filtered| == |chain.filters| && i <= |filtered| && p.content.OtherTraffic?
    ensures PassFilters(chain, filtered, p, i) == (filtered, true)
    decreases |filtered| - i
  {
    if i == |filtered| {
    } else {
      assert filtered[i := filtered[i]] == filtered;
      OtherPasses(chain, filtered, p, i + 1);
    }
  }

  /** With that, whether a packet passes is told from the history. */
  lemma PassesAsTold(c: Config, run: seq<System>, steps: seq<Step>, n: nat, i: nat)
    requires n < |steps| && n < |run| && Shaped(c, run[n]) && i < |run[n].stacks|
    requires FiltersFollow(c, run, steps, n, i) && Brings(c, steps, n, i)
    ensures PassFilters(c.chains[i], run[n].stacks[i].filtered, steps[n].packet, 0).1 == Passes(c, steps, n, i)
  {
    var p := steps[n].packet;
    var filtered := run[n].stacks[i].filtered;
    match p.content
    case HttpRequest(_, _) => RequestThroughFilters(c.chains[i], filtered, p, 0);
    case HttpResponse(key) =>
      ResponsePasses(c.chains[i], filtered, p, 0);
      assert Holds(filtered, c.chains[i].witnessId(key)) <==> RefusedBefore(c, steps, n, i, c.chains[i].witnessId(key));
    case OtherTraffic(_) => OtherPasses(c.chains[i], filtered, p, 0);
  }

  lemma RefusedNext(c: Config, steps: seq<Step>, n: nat, i: nat, id: WitnessId)
    ensures RefusedBefore(c, steps, n + 1, i, id) <==> RefusedBefore(c, steps, n, i, id) || Refuses(c, steps, n, i, id)
  {
  }

  lemma StepFilters(c: Config, run: seq<System>, steps: seq<Step>, n: nat, i: nat)
    requires IsRun(c, run, steps) && n < |steps| && Shaped(c, run[n + 1]) && i < |run[n].stacks|
    requires FiltersFollow(c, run, steps, n, i)
    ensures FiltersFollow(c, run, steps, n + 1, i)
  {
    var s, t := run[n].stacks[i], run[n + 1].stacks[i];
    forall id ensures Holds(t.filtered, id) <==> RefusedBefore(c, steps, n + 1, i, id) {
      RefusedNext(c, steps, n, i, id);
      if Brings(c, steps, n, i) {
        var p := steps[n].packet;
        match p.content
        case HttpRequest(_, _) => RequestThroughFilters(c.chains[i], s.filtered, p, 0);
        case HttpResponse(_) => ResponsePasses(c.chains[i], s.filtered, p, 0);
        case OtherTraffic(_) => OtherPasses(c.chains[i], s.filtered, p, 0);
      }
    }
  }

  lemma {:induction false} FiltersAsTold(c: Config, run: seq<System>, steps: seq<Step>, n: nat, i: nat)
    requires IsRun(c, run, steps) && n < |run| && i < |c.chains|
    ensures Shaped(c, run[n]) && FiltersFollow(c, run, steps, n, i)
  {
    SinksCoherent(c, run, steps, n);
    if n == 0 {
    } else {
      FiltersAsTold(c, run, steps, n - 1, i);
      StepFilters(c, run, steps, n - 1, i);
    }
  }

  // ---- The message waiting in the channel is about the first epoch since the last packet ----

  lemma LaterNotFirst(c: Config, steps: seq<Step>, t: nat, u: nat, n: nat, i: nat)
    requires t < u && BeginsEpoch(steps, t) && !PassesBetween(c, steps, t, u, i)
    ensures !FirstEpoch(c, steps, u, n, i)
  {
  }

  lemma FirstEpochUnique(c: Config, steps: seq<Step>, t: nat, u: nat, n: nat, i: nat)
    requires FirstEpoch(c, steps, t, n, i) && FirstEpoch(c, steps, u, n, i)
    ensures t == u
  {
    if t < u {
      LaterNotFirst(c, steps, t, u, n, i);
    } else if u < t {
      LaterNotFirst(c, steps, u, t, n, i);
    }
  }

  /** If an epoch began since the last packet, there is a first one. */
  lemma {:induction false} SomeFirstEpoch(c: Config, steps: seq<Step>, u: nat, n: nat, i: nat) returns (t: nat)
    requires u < n && BeginsEpoch(steps, u) && !PassesBetween(c, steps, u, n, i)
    ensures FirstEpoch(c, steps, t, n, i)
    decreases u
  {
    if v: nat :| v < u && BeginsEpoch(steps, v) && !PassesBetween(c, steps, v, u, i) {
      if PassesBetween(c, steps, v, n, i) {
        var q: nat :| v < q < n && Passes(c, steps, q, i);
        assert false;
      }
      t := SomeFirstEpoch(c, steps, v, n, i);
    } else {
      t := u;
    }
  }

  ghost predicate ChannelFollows(c: Config, run: seq<System>, steps: seq<Step>, n: nat, i: nat)
    requires n < |run| && i < |run[n].stacks|
  {
    match run[n].stacks[i].epochCh
    case None => forall t: nat :: !FirstEpoch(c, steps, t, n, i)
    case Some(threshold) => exists t: nat :: t < n && FirstEpoch(c, steps, t, n, i) && threshold == Threshold(c, run, t)
  }

  lemma FirstEpochNext(c: Config, steps: seq<Step>, t: nat, n: nat, i: nat)
    requires t < n
    ensures FirstEpoch(c, steps, t, n + 1, i) <==> FirstEpoch(c, steps, t, n, i) && !Passes(c, steps, n, i)
  {
    if PassesBetween(c, steps, t, n, i) {
      var q: nat :| t < q < n && Passes(c, steps, q, i);
      assert t < q < n + 1 && Passes(c, steps, q, i);
    }
    if Passes(c, steps, n, i) {
      assert t < n < n + 1 && Passes(c, steps, n, i);
    }
  }

  /** What a step does to the channel of a stack. */
  lemma ChannelStep(c: Config, run: seq<System>, steps: seq<Step>, n: nat, i: nat)
    requires IsRun(c, run, steps) && n < |steps| && i < |c.chains|
    requires FiltersFollow(c, run, steps, n, i)
    ensures i < |run[n].stacks| && i < |run[n + 1].stacks|
    ensures run[n + 1].stacks[i].epochCh ==
            if Passes(c, steps, n, i) then None
            else if BeginsEpoch(steps, n) && run[n].stacks[i].epochCh.None? then Some(Threshold(c, run, n))
            else run[n].stacks[i].epochCh
  {
    if Brings(c, steps, n, i) {
      PassesAsTold(c, run, steps, n, i);
    }
  }

  /** An epoch that begins at step n is the first exactly if none is waiting already. */
  lemma EpochAtHand(c: Config, steps: seq<Step>, n: nat, i: nat)
    ensures FirstEpoch(c, steps, n, n + 1, i) <==>
            BeginsEpoch(steps, n) && forall t: nat :: t < n ==> !FirstEpoch(c, steps, t, n, i)
    ensures BeginsEpoch(steps, n) ==> !Passes(c, steps, n, i)
  {
    if BeginsEpoch(steps, n) && forall t: nat :: t < n ==> !FirstEpoch(c, steps, t, n, i) {
      forall u: nat | u < n && BeginsEpoch(steps, u) ensures PassesBetween(c, steps, u, n, i) {
        if !PassesBetween(c, steps, u, n, i) {
          var t := SomeFirstEpoch(c, steps, u, n, i);
          assert false;
        }
      }
    }
    if t: nat :| t < n && FirstEpoch(c, steps, t, n, i) {
      LaterNotFirst(c, steps, t, n, n + 1, i);
    }
  }

  lemma EpochNext(c: Config, steps: seq<Step>, t: nat, n: nat, i: nat)
    ensures t < n ==> (FirstEpoch(c, steps, t, n + 1, i) <==> FirstEpoch(c, steps, t, n, i) && !Passes(c, steps, n, i))
    ensures t > n ==> !FirstEpoch(c, steps, t, n + 1, i)
  {
    if t < n {
      FirstEpochNext(c, steps, t, n, i);
    }
  }

  lemma StepChannel(c: Config, run: seq<System>, steps: seq<Step>, n: nat, i: nat)
    requires IsRun(c, run, steps) && n < |steps| && i < |c.chains|
    requires i < |run[n].stacks| && i < |run[n + 1].stacks|
    requires FiltersFollow(c, run, steps, n, i) && ChannelFollows(c, run, steps, n, i)
    ensures ChannelFollows(c, run, steps, n + 1, i)
  {
    ChannelStep(c, run, steps, n, i);
    hide IsRun, Passes, FiltersFollow, FirstEpoch;
    EpochAtHand(c, steps, n, i);
    var next, after := n + 1, run[n + 1].stacks[i].epochCh;
    if after.None? {
      forall t: nat ensures !FirstEpoch(c, steps, t, next, i) {
        EpochNext(c, steps, t, n, i);
      }
    } else if run[n].stacks[i].epochCh.Some? {
      var t: nat :| t < n && FirstEpoch(c, steps, t, n, i) && after.value == Threshold(c, run, t);
      EpochNext(c, steps, t, n, i);
      assert t < next && FirstEpoch(c, steps, t, next, i);
    } else {
      assert n < next && FirstEpoch(c, steps, n, next, i);
    }
  }

  lemma {:induction false} ChannelAsTold(c: Config, run: seq<System>, steps: seq<Step>, n: nat, i: nat)
    requires IsRun(c, run, steps) && n < |run| && i < |c.chains|
    ensures Shaped(c, run[n]) && ChannelFollows(c, run, steps, n, i)
  {
    FiltersAsTold(c, run, steps, n, i);
    if n == 0 {
    } else {
      ChannelAsTold(c, run, steps, n - 1, i);
      FiltersAsTold(c, run, steps, n - 1, i);
      StepChannel(c, run, steps, n - 1, i);
    }
  }

  /** So a packet that passes lets expire by the threshold waiting in the channel. */
  lemma SurvivesAsTold(c: Config, run: seq<System>, steps: seq<Step>, n: nat, i: nat, observed: RL.Time)
    requires n < |run| && i < |run[n].stacks| && Passes(c, steps, n, i) && ChannelFollows(c, run, steps, n, i)
    ensures Survives(c, run, steps, n, i, observed) <==>
            (run[n].stacks[i].epochCh.Some? ==> observed >= run[n].stacks[i].epochCh.value)
  {
    hide Passes, FirstEpoch;
    if run[n].stacks[i].epochCh.Some? {
      var t: nat :| t < n && FirstEpoch(c, steps, t, n, i) && run[n].stacks[i].epochCh.value == Threshold(c, run, t);
      forall u: nat | u < |run| && FirstEpoch(c, steps, u, n, i) ensures u == t {
        FirstEpochUnique(c, steps, t, u, n, i);
      }
    }
  }

  // ---- The limiter waits for just the awaited responses ----

  ghost predicate ArrivalsFollow(c: Config, run: seq<System>, steps: seq<Step>, n: nat, i: nat)
    requires n < |run| && i < |run[n].stacks|
  {
    var arrivals := run[n].stacks[i].arrivals;
    && (forall key :: key in arrivals ==> Awaited(c, run, steps, n, i, key))
    && (forall key, m: nat :: AwaitedSince(c, run, steps, m, n, i, key) ==>
          key in arrivals && arrivals[key] == steps[m].packet.observed)
  }

  lemma AwaitedNext(c: Config, run: seq<System>, steps: seq<Step>, m: nat, n: nat, i: nat, key: Key)
    requires m < n
    ensures AwaitedSince(c, run, steps, m, n + 1, i, key) <==>
            && AwaitedSince(c, run, steps, m, n, i, key)
            && !Admits(c, run, steps, n, i, key) && !Answers(c, steps, n, i, key)
            && Survives(c, run, steps, n, i, steps[m].packet.observed)
  {
    hide Admits, Answers, Survives;
  }

  lemma AwaitedAtOnce(c: Config, run: seq<System>, steps: seq<Step>, n: nat, i: nat, key: Key)
    ensures AwaitedSince(c, run, steps, n, n + 1, i, key) <==>
            Admits(c, run, steps, n, i, key) && Survives(c, run, steps, n, i, steps[n].packet.observed)
  {
    hide Survives;
  }

  /** A step that brings no passing packet leaves the arrivals alone. */
  lemma OtherStep(c: Config, run: seq<System>, steps: seq<Step>, n: nat, i: nat)
    requires IsRun(c, run, steps) && n < |steps| && i < |c.chains|
    requires i < |run[n].stacks| && i < |run[n + 1].stacks|
    requires FiltersFollow(c, run, steps, n, i) && !Passes(c, steps, n, i)
    ensures run[n + 1].stacks[i].arrivals == run[n].stacks[i].arrivals
  {
    if Brings(c, steps, n, i) {
      PassesAsTold(c, run, steps, n, i);
    }
  }

  /** A passing packet goes to the limiter. */
  lemma PassingStep(c: Config, run: seq<System>, steps: seq<Step>, n: nat, i: nat)
    requires IsRun(c, run, steps) && n < |steps| && i < |c.chains|
    requires i < |run[n].stacks| && i < |run[n + 1].stacks|
    requires FiltersFollow(c, run, steps, n, i) && Passes(c, steps, n, i)
    ensures var s := run[n].stacks[i];
      var arrivals := Limit(s.arrivals, steps[n].packet, run[n].limiter.active).0;
      run[n + 1].stacks[i].arrivals == if s.epochCh.Some? then Expire(arrivals, s.epochCh.value) else arrivals
  {
    PassesAsTold(c, run, steps, n, i);
    hide Limit, Expire, PassFilters, Passes, FiltersFollow;
  }

  /** What a step does to the arrival time of one key. */
  lemma ArrivalStep(c: Config, run: seq<System>, steps: seq<Step>, n: nat, i: nat, key: Key)
    requires IsRun(c, run, steps) && n < |steps| && i < |c.chains|
    requires i < |run[n].stacks| && i < |run[n + 1].stacks|
    requires FiltersFollow(c, run, steps, n, i) && ChannelFollows(c, run, steps, n, i)
    ensures var before, after := run[n].stacks[i].arrivals, run[n + 1].stacks[i].arrivals;
      if Admits(c, run, steps, n, i, key) then
        && (key in after <==> Survives(c, run, steps, n, i, steps[n].packet.observed))
        && (key in after ==> after[key] == steps[n].packet.observed)
      else
        && (key in after <==> key in before && !Answers(c, steps, n, i, key)
                              && Survives(c, run, steps, n, i, before[key]))
        && (key in after ==> after[key] == before[key])
  {
    if Passes(c, steps, n, i) {
      PassingStep(c, run, steps, n, i);
      SurvivesAsTold(c, run, steps, n, i, steps[n].packet.observed);
      if key in run[n].stacks[i].arrivals {
        SurvivesAsTold(c, run, steps, n, i, run[n].stacks[i].arrivals[key]);
      }
    } else {
      OtherStep(c, run, steps, n, i);
      hide IsRun, ChannelFollows;
    }
  }

  lemma AwaitedBefore(c: Config, run: seq<System>, steps: seq<Step>, m: nat, n: nat, i: nat, key: Key)
    requires AwaitedSince(c, run, steps, m, n, i, key)
    ensures m < n && m < |steps| && steps[m].Traffic?
  {
  }

  lemma StepArrivals(c: Config, run: seq<System>, steps: seq<Step>, n: nat, i: nat)
    requires IsRun(c, run, steps) && n < |steps| && i < |c.chains|
    requires i < |run[n].stacks| && i < |run[n + 1].stacks|
    requires FiltersFollow(c, run, steps, n, i) && ChannelFollows(c, run, steps, n, i)
    requires ArrivalsFollow(c, run, steps, n, i)
    ensures ArrivalsFollow(c, run, steps, n + 1, i)
  {
    var before, after := run[n].stacks[i].arrivals, run[n + 1].stacks[i].arrivals;
    forall key | key in after ensures Awaited(c, run, steps, n + 1, i, key) {
      ArrivalStep(c, run, steps, n, i, key);
      hide IsRun, FiltersFollow, ChannelFollows, AwaitedSince, Admits, Answers, Survives;
      if Admits(c, run, steps, n, i, key) {
        AwaitedAtOnce(c, run, steps, n, i, key);
      } else {
        var m: nat :| AwaitedSince(c, run, steps, m, n, i, key);
        AwaitedBefore(c, run, steps, m, n, i, key);
        AwaitedNext(c, run, steps, m, n, i, key);
      }
    }
    forall key, m: nat | AwaitedSince(c, run, steps, m, n + 1, i, key)
      ensures key in after && after[key] == steps[m].packet.observed
    {
      ArrivalStep(c, run, steps, n, i, key);
      AwaitedBefore(c, run, steps, m, n + 1, i, key);
      hide IsRun, FiltersFollow, ChannelFollows, AwaitedSince, Admits, Answers, Survives;
      if m == n {
        AwaitedAtOnce(c, run, steps, n, i, key);
      } else {
        AwaitedNext(c, run, steps, m, n, i, key);
      }
    }
  }

  lemma {:induction false} ArrivalsAsTold(c: Config, run: seq<System>, steps: seq<Step>, n: nat, i: nat)
    requires IsRun(c, run, steps) && n < |run| && i < |c.chains|
    ensures Shaped(c, run[n]) && ArrivalsFollow(c, run, steps, n, i)
  {
    FiltersAsTold(c, run, steps, n, i);
    if n == 0 {
    } else {
      ArrivalsAsTold(c, run, steps, n - 1, i);
      FiltersAsTold(c, run, steps, n - 1, i);
      ChannelAsTold(c, run, steps, n - 1, i);
      StepArrivals(c, run, steps, n - 1, i);
    }
  }

  // ---- What reaches the sink ----

  /** The sink grows by the packet, or not at all. */
  ghost predicate Reaches(run: seq<System>, steps: seq<Step>, n: nat, i: nat)
    requires n < |steps| && n + 1 < |run| && i < |run[n].stacks| && i < |run[n + 1].stacks| && steps[n].Traffic?
  {
    run[n + 1].stacks[i].sink == run[n].stacks[i].sink + [steps[n].packet]
  }

  lemma AwaitedIffRemembered(c: Config, run: seq<System>, steps: seq<Step>, n: nat, i: nat, key: Key)
    requires n < |run| && i < |run[n].stacks| && ArrivalsFollow(c, run, steps, n, i)
    ensures Awaited(c, run, steps, n, i, key) <==> key in run[n].stacks[i].arrivals
  {
    hide AwaitedSince;
  }

  /** In every run, a response reaches the sink of its stack if and only if no request with its witness ID was
      refused before, its key is sampled, and it is awaited: the last request of its key that passed the filters
      while an interval was active has had no response since, and survived every expiry. */
  lemma ResponseReachesSinkExactlyWhen(c: Config, run: seq<System>, steps: seq<Step>, n: nat, i: nat)
    requires IsRun(c, run, steps) && Brings(c, steps, n, i) && steps[n].packet.content.HttpResponse?
    ensures i < |run[n].stacks| && i < |run[n + 1].stacks|
    ensures var key := steps[n].packet.content.key;
      Reaches(run, steps, n, i) <==>
        && !RefusedBefore(c, steps, n, i, c.chains[i].witnessId(key))
        && Awaited(c, run, steps, n, i, key)
        && c.chains[i].sampled(key)
    ensures !Reaches(run, steps, n, i) ==> run[n + 1].stacks[i].sink == run[n].stacks[i].sink
  {
    FiltersAsTold(c, run, steps, n, i);
    ArrivalsAsTold(c, run, steps, n, i);
    PassesAsTold(c, run, steps, n, i);
    AwaitedIffRemembered(c, run, steps, n, i, steps[n].packet.content.key);
    hide Awaited, AwaitedSince, ArrivalsFollow, FiltersFollow, RefusedBefore, Expire;
    assert |run[n].stacks[i].sink + [steps[n].packet]| > |run[n].stacks[i].sink|;
  }

  /** A request reaches the sink if and only if every filter accepts it, an interval is active, and its key is
      sampled. */
  lemma RequestReachesSinkExactlyWhen(c: Config, run: seq<System>, steps: seq<Step>, n: nat, i: nat)
    requires IsRun(c, run, steps) && Brings(c, steps, n, i) && steps[n].packet.content.HttpRequest?
    ensures i < |run[n].stacks| && i < |run[n + 1].stacks|
    ensures Reaches(run, steps, n, i) <==>
            && AcceptedBy(c.chains[i], steps[n].packet.content.info)
            && run[n].limiter.active && c.chains[i].sampled(steps[n].packet.content.key)
    ensures !Reaches(run, steps, n, i) ==> run[n + 1].stacks[i].sink == run[n].stacks[i].sink
  {
    FiltersAsTold(c, run, steps, n, i);
    PassesAsTold(c, run, steps, n, i);
    hide FiltersFollow, Expire;
    assert |run[n].stacks[i].sink + [steps[n].packet]| > |run[n].stacks[i].sink|;
  }

  /** Other traffic reaches the sink if and only if an interval is active and it is sampled. */
  lemma OtherReachesSinkExactlyWhen(c: Config, run: seq<System>, steps: seq<Step>, n: nat, i: nat)
    requires IsRun(c, run, steps) && Brings(c, steps, n, i) && steps[n].packet.content.OtherTraffic?
    ensures i < |run[n].stacks| && i < |run[n + 1].stacks|
    ensures Reaches(run, steps, n, i) <==>
            run[n].limiter.active && c.chains[i].sampledOther(steps[n].packet.content.what)
    ensures !Reaches(run, steps, n, i) ==> run[n + 1].stacks[i].sink == run[n].stacks[i].sink
  {
    FiltersAsTold(c, run, steps, n, i);
    PassesAsTold(c, run, steps, n, i);
    hide FiltersFollow, Expire;
    assert |run[n].stacks[i].sink + [steps[n].packet]| > |run[n].stacks[i].sink|;
  }

  /** The shared rate limit is asked just for the requests that every filter of their stack accepts. */
  lemma LimiterAskedExactlyWhen(c: Config, run: seq<System>, steps: seq<Step>, n: nat, i: nat)
    requires IsRun(c, run, steps) && Brings(c, steps, n, i)
    ensures run[n + 1].limiter ==
            if steps[n].packet.content.HttpRequest? && AcceptedBy(c.chains[i], steps[n].packet.content.info)
            then RL.Next(c.limit, run[n].limiter, RL.Request) else run[n].limiter
  {
    FiltersAsTold(c, run, steps, n, i);
    PassesAsTold(c, run, steps, n, i);
    hide FiltersFollow, Expire;
  }
}
