/** The backend collector: pairs witnesses in its cache and hands them on for upload, updating
    its records in place. */
module BackendCollectorImpl {
  import WP = WitnessPairing
  import opened WitnessPairing
  import opened Options

  /** What merging works on: a protobuf witness, with or without a method. */
  class Witness {
    var method_: Option<Method>

    constructor (m: Option<Method>)
      ensures method_ == m
    {
      method_ := m;
    }
  }

  /** Merges src into dst: the bodies dst lacks, and metadata if it has none or its HTTP method is empty.
      A source without a method can only go to a destination without one. */
  method MergeWitness(dst: Witness, src: Witness)
    requires dst.method_.None? || src.method_.Some?
    modifies dst
    ensures dst.method_ == Merge(old(dst.method_), old(src.method_))
  {
    if dst.method_.None? {
      dst.method_ := src.method_;
      return;
    }
    var m, s := dst.method_.value, src.method_.value;
    if m.args.None? {
      m := m.(args := s.args);
    } else {
      m := m.(responses := s.responses);
    }
    if m.meta.None? {
      m := m.(meta := s.meta);
    }
    if m.meta.Some? && m.meta.value.httpMethod == "" {
      m := m.(meta := s.meta);
    }
    dst.method_ := Some(m);
  }

  class WitnessWithInfo {
    const netInterface: Interface
    var srcIP: IpAddress
    var srcPort: int
    var dstIP: IpAddress
    var dstPort: int
    const observationTime: Time
    const id: PairKey
    var requestEnd: Time
    var responseStart: Time
    const proto: Witness

    // The numbers of the messages it was made from, for the record.
    var sources: seq<nat>

    function View(): Info
      reads this, proto
    {
      Info(netInterface, srcIP, srcPort, dstIP, dstPort, observationTime, id, requestEnd, responseStart,
           proto.method_, sources)
    }

    /** Stores whichever timestamp brackets the processing interval. */
    method RecordTimestamp(m: Message)
      modifies this
      ensures View() == if m.isRequest then old(View()).(requestEnd := m.final)
                        else old(View()).(responseStart := m.observed)
    {
      if m.isRequest {
        requestEnd := m.final;
      } else {
        responseStart := m.observed;
      }
    }

    constructor (m: Message, n: nat)
      ensures fresh(proto)
      ensures View() == Alone(m, n)
    {
      netInterface := m.netInterface;
      srcIP, srcPort, dstIP, dstPort := m.srcIP, Port16(m.srcPort), m.dstIP, Port16(m.dstPort);
      observationTime, id := m.observed, m.key;
      requestEnd, responseStart := ZeroTime, ZeroTime;
      sources := [n];
      proto := new Witness(Some(Partial(m)));
      new;
      RecordTimestamp(m);
    }

    method ComputeProcessingLatency(m: Message)
      modifies proto
      ensures proto.method_ == WithLatency(old(proto.method_), if m.isRequest then m.final else requestEnd,
                                           if m.isRequest then responseStart else m.observed)
    {
      var end, start := requestEnd, m.observed;
      if m.isRequest {
        end, start := m.final, responseStart;
      }
      if end == ZeroTime || start == ZeroTime {
        return;
      }
      if proto.method_.Some? && proto.method_.value.meta.Some? {
        var latency := start - end;
        var meta := proto.method_.value.meta.value.(latency := Milliseconds(latency));
        proto.method_ := Some(proto.method_.value.(meta := Some(meta)));
      }
    }

    /** Completes the waiting witness with message number n. */
    method Complete(m: Message, n: nat)
      modifies this, proto
      ensures View() == Join(old(View()), m, n)
    {
      var partial := new Witness(Some(Partial(m)));
      MergeWitness(proto, partial);
      ComputeProcessingLatency(m);
      // If the message is the request, flip the endpoints.
      if m.isRequest {
        srcIP, dstIP := dstIP, srcIP;
        srcPort, dstPort := dstPort, srcPort;
      }
      sources := sources + [n];
    }
  }

  class BackendCollector {
    var pairCache: map<PairKey, WitnessWithInfo>

    // The witnesses handed to queueUpload, as they were then, and how many messages were processed.
    var queued: seq<Info>
    var processed: nat

    ghost var log: seq<Message>
    ghost var Repr: set<object>

    /** Every entry is filed under its own key, and no two share a protobuf witness. */
    ghost predicate Valid()
      reads this, Repr
    {
      && this in Repr && processed == |log|
      && (forall k :: k in pairCache ==>
            pairCache[k] in Repr && pairCache[k].proto in Repr && pairCache[k].id == k)
      && (forall k, l :: k in pairCache && l in pairCache && k != l ==> pairCache[k].proto != pairCache[l].proto)
    }

    ghost function Waiting(): map<PairKey, Info>
      requires Valid()
      reads this, Repr
    {
      map k | k in pairCache :: pairCache[k].View()
    }

    ghost function View(): Cache
      requires Valid()
      reads this, Repr
    {
      Cache(Waiting(), queued, log)
    }

    constructor ()
      ensures Valid() && fresh(Repr) && View() == Empty
    {
      pairCache, queued, processed, log := map[], [], 0, [];
      Repr := {this};
    }

    method Process(m: Message)
      requires Valid()
      modifies Repr
      ensures Valid() && fresh(Repr - old(Repr))
      ensures View() == WP.Process(old(View()), m)
    {
      if m.key in pairCache {
        CompletePair(m);
      } else {
        StorePartial(m);
      }
    }

    method LoadAndDelete(key: PairKey) returns (pair: WitnessWithInfo)
      requires Valid() && key in pairCache
      modifies this`pairCache
      ensures Valid() && pair in Repr && pair.proto in Repr
      ensures View() == old(View()).(waiting := old(Waiting()) - {key})
      ensures pair == old(pairCache[key]) && pair.View() == old(Waiting())[key]
      ensures pairCache == old(pairCache) - {key}
      ensures forall k :: k in pairCache ==> pairCache[k] != pair && pairCache[k].proto != pair.proto
    {
      pair := pairCache[key];
      pairCache := pairCache - {key};
      assert Waiting() == old(Waiting()) - {key};
    }

    method Queue(w: Info, m: Message)
      requires Valid()
      modifies this`queued, this`processed, this`log
      ensures Valid() && View() == old(View()).(queued := old(queued) + [w], log := old(log) + [m])
    {
      queued := queued + [w];
      processed := processed + 1;
      log := log + [m];
      assert Waiting() == old(Waiting());
    }

    /** Combines the pair, merging the result into the existing item. */
    method CompletePair(m: Message)
      requires Valid() && m.key in pairCache
      modifies Repr
      ensures Valid() && Repr == old(Repr)
      ensures View() == WP.Process(old(View()), m)
    {
      var pair := LoadAndDelete(m.key);
      ghost var rest := Waiting();
      pair.Complete(m, processed);
      forall k | k in pairCache ensures pairCache[k].View() == rest[k] {
        assert old(pairCache[k].View()) == rest[k];
      }
      assert Waiting() == rest;
      Queue(pair.View(), m);
    }

    method Store(m: Message, w: WitnessWithInfo)
      requires Valid() && m.key !in pairCache && w in Repr && w.proto in Repr && w.id == m.key
      requires forall k :: k in pairCache ==> pairCache[k].proto != w.proto
      modifies this`pairCache, this`processed, this`log
      ensures Valid()
      ensures View() == old(View()).(waiting := old(Waiting())[m.key := w.View()], log := old(log) + [m])
    {
      pairCache := pairCache[m.key := w];
      processed := processed + 1;
      log := log + [m];
      assert Waiting() == old(Waiting())[m.key := w.View()];
    }

    /** Stores the partial witness for now, waiting for its pair or a flush. */
    method StorePartial(m: Message)
      requires Valid() && m.key !in pairCache
      modifies this
      ensures Valid() && fresh(Repr - old(Repr))
      ensures View() == WP.Process(old(View()), m)
    {
      var w := new WitnessWithInfo(m, processed);
      Repr := Repr + {w, w.proto};
      assert Waiting() == old(Waiting());
      Store(m, w);
    }

    method FlushOne(k: PairKey, cutoffTime: Time)
      requires Valid()
      modifies this
      ensures Valid() && Repr == old(Repr)
      ensures View() == FlushEntry(old(View()), k, cutoffTime)
    {
      if k in pairCache && pairCache[k].observationTime < cutoffTime {
        queued := queued + [pairCache[k].View()];
        pairCache := pairCache - {k};
        assert Waiting() == old(Waiting()) - {k};
      }
    }

    /** Queues, then deletes, every entry observed before the cutoff. */
    method FlushPairCache(cutoffTime: Time)
      requires Valid()
      modifies this
      ensures Valid() && Repr == old(Repr)
      ensures Flushed(old(View()), cutoffTime, View())
    {
      ghost var start := View();
      var todo := pairCache.Keys;
      ghost var keys: seq<PairKey> := [];
      while todo != {}
        invariant Valid() && Repr == old(Repr)
        invariant forall k :: k in start.waiting ==> k in todo || k in keys
        invariant View() == FlushAll(start, keys, cutoffTime)
        decreases todo
      {
        var k :| k in todo;
        todo := todo - {k};
        FlushOne(k, cutoffTime);
        assert (keys + [k])[..|keys|] == keys;
        keys := keys + [k];
      }
      assert Covers(keys, start);
    }
  }
}
