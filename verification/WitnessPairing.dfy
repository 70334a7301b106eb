/** Pairing of HTTP requests with their responses into witnesses, in either order of arrival. */
module WitnessPairing {
  import opened Counting
  import opened Options

  type PairKey(==, !new)
  type Data(==, !new)
  type IpAddress(==, !new)
  type Interface(==, !new)

  /** Nanoseconds; ZeroTime is the zero value of a timestamp, meaning that none was recorded. */
  type Time = int

  const ZeroTime: Time := 0

  /** HTTP method metadata; `latency` is the processing latency in milliseconds. */
  datatype HttpMeta = HttpMeta(httpMethod: string, path: string, host: string, latency: real)

  const UnknownMeta := HttpMeta("", "", "", 0.0)

  datatype Method = Method(args: Option<Data>, responses: Option<Data>, meta: Option<HttpMeta>)

  /** An HTTP message that parsed. For a response the request line is empty. */
  datatype Message = Message(
    key: PairKey,
    isRequest: bool,
    netInterface: Interface,
    srcIP: IpAddress, srcPort: int,
    dstIP: IpAddress, dstPort: int,
    observed: Time, final: Time,
    data: Data,
    line: HttpMeta)

  /** A witness, paired or not; `sources` numbers the messages it was made from. */
  datatype Info = Info(
    netInterface: Interface,
    srcIP: IpAddress, srcPort: int,
    dstIP: IpAddress, dstPort: int,
    observationTime: Time,
    id: PairKey,
    requestEnd: Time,
    responseStart: Time,
    proto: Option<Method>,
    sources: seq<nat>)

  /** Conversion of a port to an unsigned 16-bit number keeps the low 16 bits. */
  function Port16(port: int): int {
    port % 0x1_0000
  }

  /** Integer division that truncates toward zero. */
  function Quotient(n: int, d: int): int
    requires d > 0
  {
    if n >= 0 then n / d else -((-n) / d)
  }

  function Milliseconds(duration: int): real {
    (Quotient(duration, 1000) as real) / 1000.0
  }

  /** ParseHTTP: the witness of one message. */
  function Partial(m: Message): Method {
    if m.isRequest then Method(Some(m.data), None, Some(m.line.(latency := 0.0)))
    else Method(None, Some(m.data), Some(UnknownMeta))
  }

  /** MergeWitness. Only a destination without a method can take a source without one. */
  function Merge(dst: Option<Method>, src: Option<Method>): Option<Method>
    requires dst.None? || src.Some?
  {
    if dst.None? then src
    else
      var d, s := dst.value, src.value;
      var bodies := if d.args.None? then d.(args := s.args) else d.(responses := s.responses);
      var meta := if d.meta.None? then s.meta else d.meta;
      Some(bodies.(meta := if meta.Some? && meta.value.httpMethod == "" then s.meta else meta))
  }

  function WithLatency(w: Option<Method>, requestEnd: Time, responseStart: Time): Option<Method> {
    if requestEnd == ZeroTime || responseStart == ZeroTime || w.None? || w.value.meta.None? then w
    else Some(w.value.(meta := Some(w.value.meta.value.(latency := Milliseconds(responseStart - requestEnd)))))
  }

  /** The entry made for a message that arrives first. */
  function Alone(m: Message, n: nat): Info {
    Info(m.netInterface, m.srcIP, Port16(m.srcPort), m.dstIP, Port16(m.dstPort), m.observed, m.key,
         if m.isRequest then m.final else ZeroTime,
         if m.isRequest then ZeroTime else m.observed,
         Some(Partial(m)), [n])
  }

  /** The witness after a message joins the entry waiting for it. */
  function Join(pair: Info, m: Message, n: nat): Info {
    var w := WithLatency(Merge(pair.proto, Some(Partial(m))),
                         if m.isRequest then m.final else pair.requestEnd,
                         if m.isRequest then pair.responseStart else m.observed);
    var q := pair.(proto := w, sources := pair.sources + [n]);
    if m.isRequest then q.(srcIP := pair.dstIP, dstIP := pair.srcIP, srcPort := pair.dstPort, dstPort := pair.srcPort)
    else q
  }

  // ---- The order of arrival does not matter ----

  /** A request and its response, travelling in opposite directions. */
  ghost predicate Exchange(req: Message, resp: Message) {
    && req.isRequest && !resp.isRequest && req.key == resp.key
    && resp.srcIP == req.dstIP && resp.dstIP == req.srcIP
    && resp.srcPort == req.dstPort && resp.dstPort == req.srcPort
  }

  /** The low 16 bits of a port; a port that fits is itself. */
  ghost predicate IsPort16(low: int, port: int) {
    0 <= low < 0x1_0000 && (port - low) % 0x1_0000 == 0
  }

  ghost predicate CutTowardZero(nanoseconds: int, micros: int) {
    if nanoseconds >= 0 then 0 <= nanoseconds - 1000 * micros < 1000 else -1000 < nanoseconds - 1000 * micros <= 0
  }

  /** A duration in milliseconds, to whole microseconds and cut toward zero. */
  ghost predicate IsLatency(latency: real, nanoseconds: int) {
    exists micros: int :: latency * 1000.0 == micros as real && CutTowardZero(nanoseconds, micros)
  }

  lemma MillisecondsMeans(duration: int)
    ensures IsLatency(Milliseconds(duration), duration)
  {
    var micros := Quotient(duration, 1000);
    assert Milliseconds(duration) * 1000.0 == micros as real;
    assert CutTowardZero(duration, micros);
  }

  /** What the paired witness says, apart from the request line. */
  ghost predicate Describes(w: Info, req: Message, resp: Message) {
    && w.id == req.key
    && w.srcIP == req.srcIP && IsPort16(w.srcPort, req.srcPort)
    && w.dstIP == req.dstIP && IsPort16(w.dstPort, req.dstPort)
    && w.proto.Some?
    && w.proto.value.args == Some(req.data)
    && w.proto.value.responses == Some(resp.data)
    && w.proto.value.meta.Some?
    && w.proto.value.meta.value.httpMethod == req.line.httpMethod
    && var latency := w.proto.value.meta.value.latency;
       if req.final == ZeroTime || resp.observed == ZeroTime then latency == 0.0
       else IsLatency(latency, resp.observed - req.final)
  }

  /** Either order gives the same bodies, endpoints from client to server, HTTP method, and
      processing latency from the end of the request to the start of the response. Only
      the observation time and the interface come from whichever arrived first. */
  lemma PairingDescribes(req: Message, resp: Message, i: nat, j: nat)
    requires Exchange(req, resp)
    ensures Describes(Join(Alone(req, i), resp, j), req, resp)
    ensures Describes(Join(Alone(resp, j), req, i), req, resp)
    ensures Join(Alone(req, i), resp, j).observationTime == req.observed
    ensures Join(Alone(resp, j), req, i).observationTime == resp.observed
    ensures Join(Alone(req, i), resp, j).netInterface == req.netInterface
    ensures Join(Alone(resp, j), req, i).netInterface == resp.netInterface
  {
    hide IsLatency;
    MillisecondsMeans(resp.observed - req.final);
  }

  /** The request line, but for the latency, is the request's if the response comes first, or if the request has
      a method; else it is empty. */
  lemma PairingKeepsLine(req: Message, resp: Message, i: nat, j: nat)
    requires Exchange(req, resp)
    ensures var first, second := Join(Alone(req, i), resp, j).proto.value, Join(Alone(resp, j), req, i).proto.value;
      && first.meta.value.(latency := 0.0) ==
         (if req.line.httpMethod != "" then req.line.(latency := 0.0) else UnknownMeta)
      && second.meta.value.(latency := 0.0) == req.line.(latency := 0.0)
  {
  }

  /** The whole of the witness is independent of the order of arrival exactly if the request has
      a method, or has neither path nor host: a request that comes first with an empty
      method loses its path and host to the response's empty metadata. */
  lemma OrderIndependentExactlyWhen(req: Message, resp: Message, i: nat, j: nat)
    requires Exchange(req, resp)
    ensures Join(Alone(req, i), resp, j).proto == Join(Alone(resp, j), req, i).proto
      <==> req.line.httpMethod != "" || (req.line.path == "" && req.line.host == "")
  {
    PairingDescribes(req, resp, i, j);
  }

  /** A witness that was flushed alone has the sender of its only message as source. That is the client, as
      documented, for a request; for a response it is the server, unless they are the same. */
  lemma LoneSourceIsSender(req: Message, resp: Message, n: nat)
    requires Exchange(req, resp)
    ensures Alone(req, n).srcIP == req.srcIP && IsPort16(Alone(req, n).srcPort, req.srcPort)
    ensures Alone(resp, n).srcIP == req.srcIP <==> req.srcIP == req.dstIP
    ensures IsPort16(Alone(resp, n).srcPort, req.srcPort) <==> (req.srcPort - req.dstPort) % 0x1_0000 == 0
  {
  }

  /** A witness of one message says of it all there is to say, and leaves the rest open. */
  lemma LoneDescribes(m: Message, n: nat)
    ensures var w := Alone(m, n);
      && w.netInterface == m.netInterface && w.observationTime == m.observed && w.id == m.key
      && w.srcIP == m.srcIP && IsPort16(w.srcPort, m.srcPort)
      && w.dstIP == m.dstIP && IsPort16(w.dstPort, m.dstPort)
      && w.proto == Some(if m.isRequest then Method(Some(m.data), None, Some(m.line.(latency := 0.0)))
                         else Method(None, Some(m.data), Some(HttpMeta("", "", "", 0.0))))
  {
  }

  // ---- The cache ----

  /** `log` numbers the messages processed so far; `queued` are the witnesses handed on for upload. */
  datatype Cache = Cache(waiting: map<PairKey, Info>, queued: seq<Info>, log: seq<Message>)

  const Empty := Cache(map[], [], [])

  function Process(s: Cache, m: Message): Cache {
    var n := |s.log|;
    if m.key in s.waiting then
      Cache(s.waiting - {m.key}, s.queued + [Join(s.waiting[m.key], m, n)], s.log + [m])
    else
      s.(waiting := s.waiting[m.key := Alone(m, n)], log := s.log + [m])
  }

  /** The flush of one entry: queued, then deleted, if it was observed before the cutoff. */
  function FlushEntry(s: Cache, key: PairKey, cutoff: Time): Cache {
    if key in s.waiting && s.waiting[key].observationTime < cutoff then
      s.(waiting := s.waiting - {key}, queued := s.queued + [s.waiting[key]])
    else
      s
  }

  datatype Step = Arrive(message: Message) | Flush(key: PairKey, cutoff: Time)

  function Next(s: Cache, step: Step): Cache {
    match step
    case Arrive(m) => Process(s, m)
    case Flush(key, cutoff) => FlushEntry(s, key, cutoff)
  }

  function Run(steps: seq<Step>): Cache
    decreases |steps|
  {
    if steps == [] then Empty else Next(Run(steps[..|steps| - 1]), steps[|steps| - 1])
  }

  ghost function Holding(n: nat): Info -> bool {
    (w: Info) => n in w.sources
  }

  ghost predicate Waits(s: Cache, n: nat)
    requires n < |s.log|
  {
    s.log[n].key in s.waiting && n in s.waiting[s.log[n].key].sources
  }

  /** In how many witnesses, queued or waiting, message n ended up. */
  ghost function Places(s: Cache, n: nat): nat
    requires n < |s.log|
  {
    Count(Holding(n), s.queued) + if Waits(s, n) then 1 else 0
  }

  /** A witness is what its messages make it: one alone, or two of the same key. */
  ghost predicate Made(log: seq<Message>, w: Info) {
    || (|w.sources| == 1 && w.sources[0] < |log| && w == Alone(log[w.sources[0]], w.sources[0]))
    || (|w.sources| == 2 && w.sources[0] < w.sources[1] < |log|
        && log[w.sources[0]].key == log[w.sources[1]].key
        && w == Join(Alone(log[w.sources[0]], w.sources[0]), log[w.sources[1]], w.sources[1]))
  }

  /** An entry of the cache is made of one message, and filed under its key. */
  ghost predicate Filed(log: seq<Message>, k: PairKey, w: Info) {
    |w.sources| == 1 && Made(log, w) && log[w.sources[0]].key == k
  }

  ghost predicate Inv(s: Cache) {
    && (forall n :: 0 <= n < |s.log| ==> Places(s, n) == 1)
    && (forall i :: 0 <= i < |s.queued| ==> Made(s.log, s.queued[i]))
    && (forall k :: k in s.waiting ==> Filed(s.log, k, s.waiting[k]))
  }

  lemma MadeLater(log: seq<Message>, m: Message, w: Info)
    requires Made(log, w)
    ensures Made(log + [m], w)
  {
  }

  /** A message not yet processed is in no witness. */
  lemma NotYetQueued(s: Cache, n: nat)
    requires Inv(s) && n >= |s.log|
    ensures Count(Holding(n), s.queued) == 0
  {
    CountNone(Holding(n), s.queued);
    forall i | 0 <= i < |s.queued| ensures n !in s.queued[i].sources {
      assert Made(s.log, s.queued[i]);
    }
  }

  lemma ProcessPlaces(s: Cache, m: Message, i: nat)
    requires Inv(s) && i <= |s.log|
    ensures Places(Process(s, m), i) == 1
  {
    hide Made;
    var t, n := Process(s, m), |s.log|;
    if m.key in s.waiting {
      CountPush(Holding(i), s.queued, Join(s.waiting[m.key], m, n));
    }
    if i < n {
      assert t.log[i] == s.log[i] && Places(s, i) == 1;
      if m.key in s.waiting && i in s.waiting[m.key].sources {
        assert s.log[i].key == m.key;
      }
    } else {
      NotYetQueued(s, i);
      assert m.key in s.waiting ==> n in Join(s.waiting[m.key], m, n).sources;
    }
  }

  lemma ProcessMakesQueued(s: Cache, m: Message, i: nat)
    requires Inv(s) && i < |Process(s, m).queued|
    ensures Made(Process(s, m).log, Process(s, m).queued[i])
  {
    hide Places;
    var t := Process(s, m);
    if i < |s.queued| {
      MadeLater(s.log, m, s.queued[i]);
    } else {
      var w := s.waiting[m.key];
      assert t.log[w.sources[0]] == s.log[w.sources[0]] && t.queued[i].sources == [w.sources[0], |s.log|];
    }
  }

  lemma ProcessMakesWaiting(s: Cache, m: Message, k: PairKey)
    requires Inv(s) && k in Process(s, m).waiting
    ensures Filed(Process(s, m).log, k, Process(s, m).waiting[k])
  {
    hide Places;
    if k in s.waiting {
      MadeLater(s.log, m, s.waiting[k]);
    }
  }

  lemma ProcessKeepsInv(s: Cache, m: Message)
    requires Inv(s)
    ensures Inv(Process(s, m))
  {
    hide Places, Made, Filed;
    var t := Process(s, m);
    forall i | 0 <= i < |t.log| ensures Places(t, i) == 1 {
      ProcessPlaces(s, m, i);
    }
    forall i | 0 <= i < |t.queued| ensures Made(t.log, t.queued[i]) {
      ProcessMakesQueued(s, m, i);
    }
    forall k | k in t.waiting ensures Filed(t.log, k, t.waiting[k]) {
      ProcessMakesWaiting(s, m, k);
    }
  }

  lemma FlushKeepsInv(s: Cache, key: PairKey, cutoff: Time)
    requires Inv(s)
    ensures Inv(FlushEntry(s, key, cutoff))
  {
    var t := FlushEntry(s, key, cutoff);
    forall n | 0 <= n < |t.log| ensures Places(t, n) == 1 {
      assert Places(s, n) == 1;
      if key in s.waiting {
        CountPush(Holding(n), s.queued, s.waiting[key]);
        assert n in s.waiting[key].sources ==> s.log[n].key == key;
      }
    }
  }

  /** In every run, whatever the interleaving of arrivals and flushes, each message is in exactly
      one witness, and each witness is made of one message or of two with the same key. */
  lemma {:induction false} RunKeepsInv(steps: seq<Step>)
    ensures Inv(Run(steps))
    decreases |steps|
  {
    if steps == [] {
    } else {
      RunKeepsInv(steps[..|steps| - 1]);
      match steps[|steps| - 1]
      case Arrive(m) => ProcessKeepsInv(Run(steps[..|steps| - 1]), m);
      case Flush(key, cutoff) => FlushKeepsInv(Run(steps[..|steps| - 1]), key, cutoff);
    }
  }

  // ---- Closing ----

  ghost function FlushAll(s: Cache, keys: seq<PairKey>, cutoff: Time): Cache
    decreases |keys|
  {
    if keys == [] then s
    else FlushEntry(FlushAll(s, keys[..|keys| - 1], cutoff), keys[|keys| - 1], cutoff)
  }

  ghost predicate Covers(keys: seq<PairKey>, s: Cache) {
    forall k :: k in s.waiting ==> k in keys
  }

  /** flushPairCache ranges over all entries, in an order that is not fixed. */
  ghost predicate Flushed(s: Cache, cutoff: Time, t: Cache) {
    exists keys :: Covers(keys, s) && t == FlushAll(s, keys, cutoff)
  }

  lemma {:induction false} FlushAllResult(s: Cache, keys: seq<PairKey>, cutoff: Time)
    requires Inv(s)
    ensures var t := FlushAll(s, keys, cutoff);
      && Inv(t) && t.log == s.log && s.queued <= t.queued
      && t.waiting == (map k | k in s.waiting && (k !in keys || s.waiting[k].observationTime >= cutoff) :: s.waiting[k])
    decreases |keys|
  {
    if keys == [] {
    } else {
      var before := keys[..|keys| - 1];
      FlushAllResult(s, before, cutoff);
      FlushKeepsInv(FlushAll(s, before, cutoff), keys[|keys| - 1], cutoff);
      assert keys == before + [keys[|keys| - 1]];
    }
  }

  lemma FlushedResult(s: Cache, cutoff: Time, t: Cache)
    requires Inv(s) && Flushed(s, cutoff, t)
    ensures Inv(t) && t.log == s.log && s.queued <= t.queued
    ensures t.waiting == (map k | k in s.waiting && s.waiting[k].observationTime >= cutoff :: s.waiting[k])
  {
    var keys :| Covers(keys, s) && t == FlushAll(s, keys, cutoff);
    FlushAllResult(s, keys, cutoff);
  }

  /** After closing, a message is in exactly one queued witness, unless it still waits: exactly the
      lone messages not observed before the close time are left behind. */
  lemma CloseQueuesExactly(s: Cache, closeTime: Time, t: Cache, n: nat)
    requires Inv(s) && Flushed(s, closeTime, t) && n < |s.log|
    ensures t.log == s.log
    ensures Count(Holding(n), t.queued) == 1 <==> !(Waits(s, n) && s.log[n].observed >= closeTime)
    ensures Count(Holding(n), t.queued) <= 1
  {
    FlushedResult(s, closeTime, t);
    assert Places(t, n) == 1;
    if Waits(s, n) {
      var w := s.waiting[s.log[n].key];
      assert Made(s.log, w) && w.sources == [n];
    }
  }

  /** When all observation times precede the close time, every message is in exactly one queued witness. */
  lemma AllQueuedAtClose(steps: seq<Step>, closeTime: Time, t: Cache, n: nat)
    requires Flushed(Run(steps), closeTime, t) && n < |Run(steps).log|
    requires forall i :: 0 <= i < |Run(steps).log| ==> Run(steps).log[i].observed < closeTime
    ensures t.waiting == map[] && Count(Holding(n), t.queued) == 1
  {
    RunKeepsInv(steps);
    var s := Run(steps);
    FlushedResult(s, closeTime, t);
    CloseQueuesExactly(s, closeTime, t, n);
    forall k | k in s.waiting ensures s.waiting[k].observationTime < closeTime {
      assert Made(s.log, s.waiting[k]);
    }
  }

  /** Messages with equal keys are a request and its response, so that a key has at most one of each. */
  ghost predicate KeysAreExchanges(log: seq<Message>) {
    forall i, j :: 0 <= i < j < |log| && log[i].key == log[j].key ==>
      Exchange(log[i], log[j]) || Exchange(log[j], log[i])
  }

  /** Then every witness queued in a run that was made of two messages describes their exchange, whichever
      of them arrived first. */
  lemma PairsAreExchanges(steps: seq<Step>, q: nat) returns (req: Message, resp: Message)
    requires KeysAreExchanges(Run(steps).log)
    requires q < |Run(steps).queued| && |Run(steps).queued[q].sources| == 2
    ensures Exchange(req, resp) && Describes(Run(steps).queued[q], req, resp)
    ensures var s, src := Run(steps), Run(steps).queued[q].sources;
      && src[0] < src[1] < |s.log|
      && {s.log[src[0]], s.log[src[1]]} == {req, resp}
      && s.queued[q].observationTime == s.log[src[0]].observed
      && s.queued[q].netInterface == s.log[src[0]].netInterface
  {
    hide Run, Describes;
    RunKeepsInv(steps);
    var s, w := Run(steps), Run(steps).queued[q];
    assert Made(s.log, w);
    var first, second := s.log[w.sources[0]], s.log[w.sources[1]];
    if Exchange(first, second) {
      req, resp := first, second;
      PairingDescribes(first, second, w.sources[0], w.sources[1]);
    } else {
      req, resp := second, first;
      PairingDescribes(second, first, w.sources[1], w.sources[0]);
    }
  }
}
