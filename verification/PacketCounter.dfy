/** Packet counters, bounded in the number of keys that are tracked individually. */
module PacketCounter {
  import opened Options

  /** The counters proper; each counts packets or messages of one kind. */
  datatype Tally = Tally(
    tcpPackets: int, httpRequests: int, httpResponses: int, tlsHello: int,
    http2Prefaces: int, quicHandshakes: int, unparsed: int, oversizedWitnesses: int)

  const Zero := Tally(0, 0, 0, 0, 0, 0, 0, 0)

  function Plus(a: Tally, b: Tally): Tally {
    Tally(a.tcpPackets + b.tcpPackets, a.httpRequests + b.httpRequests, a.httpResponses + b.httpResponses,
          a.tlsHello + b.tlsHello, a.http2Prefaces + b.http2Prefaces, a.quicHandshakes + b.quicHandshakes,
          a.unparsed + b.unparsed, a.oversizedWitnesses + b.oversizedWitnesses)
  }

  lemma PlusLaws(a: Tally, b: Tally, c: Tally)
    ensures Plus(a, Zero) == a == Plus(Zero, a)
    ensures Plus(a, b) == Plus(b, a)
    ensures Plus(Plus(a, b), c) == Plus(a, Plus(b, c))
    ensures Plus(Plus(a, b), c) == Plus(Plus(a, c), b)
  {
  }

  datatype PacketCounts = PacketCounts(
    netInterface: string, srcPort: int, dstPort: int, srcHost: string, dstHost: string, tally: Tally)

  /** The labels stay; only the counters are added. */
  function Add(a: PacketCounts, b: PacketCounts): PacketCounts {
    a.(tally := Plus(a.tally, b.tally))
  }

  // ---- The bounded counter ----

  datatype Bounded<T(==)> = Bounded(limit: int, overflow: PacketCounts, m: map<T, PacketCounts>)

  const OverflowLabel := PacketCounts("*", 0, 0, "", "", Zero)

  function HasReachedLimit<T>(b: Bounded<T>): bool {
    b.limit <= |b.m|
  }

  /** `made` is what makeNew makes of `c`. */
  function AddOrInsert<T>(b: Bounded<T>, key: T, c: PacketCounts, made: PacketCounts): Bounded<T> {
    if key in b.m then b.(m := b.m[key := Add(b.m[key], c)])
    else if HasReachedLimit(b) then b.(overflow := Add(b.overflow, c))
    else b.(m := b.m[key := made])
  }

  function GetOverflow<T>(b: Bounded<T>): Option<PacketCounts> {
    if HasReachedLimit(b) then Some(b.overflow) else None
  }

  /** A contribution of some counts to a key. */
  datatype Contribution<T> = To(key: T, counts: PacketCounts)

  /** The counter after a history of contributions, where makeNew(c) is c counted under the key's label. */
  function Counted<T>(limit: int, tag: T -> PacketCounts, log: seq<Contribution<T>>): Bounded<T>
    decreases |log|
  {
    if log == [] then Bounded(limit, OverflowLabel, map[])
    else
      var c := log[|log| - 1];
      AddOrInsert(Counted(limit, tag, log[..|log| - 1]), c.key, c.counts, Add(tag(c.key), c.counts))
  }

  // ---- The reference: sums over the whole history ----

  function SumWhere<T(==)>(log: seq<Contribution<T>>, keys: set<T>): Tally
    decreases |log|
  {
    if log == [] then Zero
    else
      var c := log[|log| - 1];
      var before := SumWhere(log[..|log| - 1], keys);
      if c.key in keys then Plus(before, c.counts.tally) else before
  }

  function SumAll<T>(log: seq<Contribution<T>>): Tally
    decreases |log|
  {
    if log == [] then Zero else Plus(SumAll(log[..|log| - 1]), log[|log| - 1].counts.tally)
  }

  function Keys<T(==)>(log: seq<Contribution<T>>): set<T> {
    set c | c in log :: c.key
  }

  /** The number of different keys seen before index i. */
  function SeenBefore<T(==)>(log: seq<Contribution<T>>, i: nat): nat
    requires i <= |log|
  {
    |Keys(log[..i])|
  }

  /** A key is early if its first contribution came when fewer than `limit` keys had been seen. */
  ghost predicate Early<T>(log: seq<Contribution<T>>, limit: int, key: T) {
    exists i :: 0 <= i < |log| && log[i].key == key && SeenBefore(log, i) < limit
  }

  ghost predicate Accurate<T(!new)>(b: Bounded<T>, limit: int, tag: T -> PacketCounts, log: seq<Contribution<T>>) {
    && b.limit == limit
    && (|b.m| == if limit < 0 then 0 else if |Keys(log)| < limit then |Keys(log)| else limit)
    && (forall k :: k in b.m <==> Early(log, limit, k))
    && (b.m.Keys <= Keys(log))
    && (forall k :: k in b.m ==> b.m[k] == tag(k).(tally := SumWhere(log, {k})))
    && b.overflow == OverflowLabel.(tally := SumWhere(log, Keys(log) - b.m.Keys))
  }

  ghost predicate Fresh<T(!new)>(tag: T -> PacketCounts) {
    forall k :: tag(k).tally == Zero
  }

  lemma KeysPush<T>(log: seq<Contribution<T>>, c: Contribution<T>)
    ensures Keys(log + [c]) == Keys(log) + {c.key}
    ensures |Keys(log + [c])| == |Keys(log)| + if c.key in Keys(log) then 0 else 1
  {
    assert Keys(log + [c]) == Keys(log) + {c.key} by {
      forall k | k in Keys(log) + {c.key} ensures k in Keys(log + [c]) {
        if k in Keys(log) {
          var d :| d in log && d.key == k;
          assert d in log + [c];
        } else {
          assert c in log + [c];
        }
      }
    }
    if c.key in Keys(log) {
      assert Keys(log) + {c.key} == Keys(log);
    }
  }

  lemma EarlyPush<T>(log: seq<Contribution<T>>, c: Contribution<T>, limit: int, key: T)
    ensures Early(log + [c], limit, key) <==> Early(log, limit, key) || (key == c.key && |Keys(log)| < limit)
  {
    var more := log + [c];
    assert forall i :: 0 <= i <= |log| ==> more[..i] == log[..i];
    assert log[..|log|] == log;
    if Early(log, limit, key) {
      var i :| 0 <= i < |log| && log[i].key == key && SeenBefore(log, i) < limit;
      assert more[i].key == key && SeenBefore(more, i) < limit;
    }
    if key == c.key && |Keys(log)| < limit {
      assert more[|log|].key == key && SeenBefore(more, |log|) < limit;
    }
    if Early(more, limit, key) {
      var i :| 0 <= i < |more| && more[i].key == key && SeenBefore(more, i) < limit;
      if i < |log| {
        assert log[i].key == key && SeenBefore(log, i) < limit;
      }
    }
  }

  lemma SumPush<T>(log: seq<Contribution<T>>, c: Contribution<T>, keys: set<T>)
    ensures SumWhere(log + [c], keys) ==
            if c.key in keys then Plus(SumWhere(log, keys), c.counts.tally) else SumWhere(log, keys)
    ensures SumAll(log + [c]) == Plus(SumAll(log), c.counts.tally)
  {
    assert (log + [c])[..|log|] == log;
  }

  /** Only the keys that occur matter. */
  lemma {:induction false} SumSame<T>(log: seq<Contribution<T>>, keys: set<T>, others: set<T>)
    requires forall k :: k in Keys(log) ==> (k in keys <==> k in others)
    ensures SumWhere(log, keys) == SumWhere(log, others)
    decreases |log|
  {
    if log == [] {
    } else {
      var before, c := log[..|log| - 1], log[|log| - 1];
      assert log == before + [c];
      KeysPush(before, c);
      SumSame(before, keys, others);
    }
  }

  lemma {:induction false} SubsetSize<T>(a: set<T>, b: set<T>)
    requires a <= b
    ensures |a| <= |b|
    ensures |a| == |b| ==> a == b
  {
    assert b == a + (b - a);
    assert |b| == |a| + |b - a|;
  }

  lemma TrackedContribution<T(!new)>(b: Bounded<T>, limit: int, tag: T -> PacketCounts,
                                     log: seq<Contribution<T>>, c: Contribution<T>)
    requires Accurate(b, limit, tag, log) && Fresh(tag) && c.key in b.m
    ensures Accurate(AddOrInsert(b, c.key, c.counts, Add(tag(c.key), c.counts)), limit, tag, log + [c])
  {
    hide Plus, Early, SumWhere, Keys;
    var more := log + [c];
    KeysPush(log, c);
    SumPush(log, c, {c.key});
    SumPush(log, c, Keys(more) - b.m.Keys);
    assert Keys(more) == Keys(log);
    var t := AddOrInsert(b, c.key, c.counts, Add(tag(c.key), c.counts));
    assert t.m.Keys == b.m.Keys;
    forall k ensures k in t.m <==> Early(more, limit, k) {
      EarlyPush(log, c, limit, k);
    }
    forall k | k in t.m ensures t.m[k] == tag(k).(tally := SumWhere(more, {k})) {
      SumPush(log, c, {k});
    }
  }

  lemma RefusedContribution<T(!new)>(b: Bounded<T>, limit: int, tag: T -> PacketCounts,
                                     log: seq<Contribution<T>>, c: Contribution<T>)
    requires Accurate(b, limit, tag, log) && Fresh(tag) && c.key !in b.m && HasReachedLimit(b)
    ensures Accurate(AddOrInsert(b, c.key, c.counts, Add(tag(c.key), c.counts)), limit, tag, log + [c])
  {
    hide Plus, Early, SumWhere, Keys;
    var more := log + [c];
    KeysPush(log, c);
    SubsetSize(b.m.Keys, Keys(log));
    SumPush(log, c, Keys(more) - b.m.Keys);
    SumSame(log, Keys(more) - b.m.Keys, Keys(log) - b.m.Keys);
    forall k ensures k in b.m <==> Early(more, limit, k) {
      EarlyPush(log, c, limit, k);
    }
    forall k | k in b.m ensures b.m[k] == tag(k).(tally := SumWhere(more, {k})) {
      SumPush(log, c, {k});
    }
  }

  lemma {:induction false} SumNothing<T>(log: seq<Contribution<T>>)
    ensures SumWhere(log, {}) == Zero
    decreases |log|
  {
    if log == [] {
    } else {
      SumNothing(log[..|log| - 1]);
    }
  }

  lemma NewContribution<T(!new)>(b: Bounded<T>, limit: int, tag: T -> PacketCounts,
                                 log: seq<Contribution<T>>, c: Contribution<T>)
    requires Accurate(b, limit, tag, log) && Fresh(tag) && c.key !in b.m && !HasReachedLimit(b)
    ensures Accurate(AddOrInsert(b, c.key, c.counts, Add(tag(c.key), c.counts)), limit, tag, log + [c])
  {
    hide Plus, Early, SumWhere, Keys;
    var more := log + [c];
    KeysPush(log, c);
    SubsetSize(b.m.Keys, Keys(log));
    assert b.m.Keys == Keys(log);
    var t := AddOrInsert(b, c.key, c.counts, Add(tag(c.key), c.counts));
    assert t.m.Keys == b.m.Keys + {c.key} == Keys(more);
    SumPush(log, c, {});
    SumSame(log, {c.key}, {});
    SumSame(log, Keys(log) - b.m.Keys, {});
    SumNothing(log);
    SumSame(more, Keys(more) - t.m.Keys, {});
    SumPush(log, c, {c.key});
    PlusLaws(Zero, c.counts.tally, Zero);
    forall k ensures k in t.m <==> Early(more, limit, k) {
      EarlyPush(log, c, limit, k);
    }
    forall k | k in b.m ensures t.m[k] == tag(k).(tally := SumWhere(more, {k})) {
      SumPush(log, c, {k});
    }
  }

  /** After any history: at most `limit` keys are tracked, namely those whose first contribution came when
      fewer than `limit` keys had been seen, so that a key turned away is never admitted later; each has
      the sum of all contributions to it; and the overflow has the sum of all others. */
  lemma {:induction false} CountsAreAccurate<T(!new)>(limit: int, tag: T -> PacketCounts, log: seq<Contribution<T>>)
    requires Fresh(tag)
    ensures Accurate(Counted(limit, tag, log), limit, tag, log)
    decreases |log|
  {
    if log == [] {
    } else {
      hide Accurate, AddOrInsert, Fresh, Add;
      var before, c := log[..|log| - 1], log[|log| - 1];
      CountsAreAccurate(limit, tag, before);
      var b := Counted(limit, tag, before);
      assert log == before + [c];
      if c.key in b.m {
        TrackedContribution(b, limit, tag, before, c);
      } else if HasReachedLimit(b) {
        RefusedContribution(b, limit, tag, before, c);
      } else {
        NewContribution(b, limit, tag, before, c);
      }
    }
  }

  // ---- Conservation ----

  ghost predicate Enumerates<T(!new)>(order: seq<T>, keys: set<T>) {
    && (forall k :: k in order <==> k in keys)
    && (forall i, j :: 0 <= i < j < |order| ==> order[i] != order[j])
  }

  /** The sum of the tracked counts, in the order given. */
  function SumTracked<T>(m: map<T, PacketCounts>, order: seq<T>): Tally
    requires forall k :: k in order ==> k in m
    decreases |order|
  {
    if order == [] then Zero
    else
      assert forall i :: 0 <= i < |order| ==> order[i] in order;
      Plus(SumTracked(m, order[..|order| - 1]), m[order[|order| - 1]].tally)
  }

  lemma {:induction false} SumSplits<T>(log: seq<Contribution<T>>, keys: set<T>, others: set<T>)
    requires keys !! others
    ensures SumWhere(log, keys + others) == Plus(SumWhere(log, keys), SumWhere(log, others))
    decreases |log|
  {
    hide Plus;
    if log == [] {
      PlusLaws(Zero, Zero, Zero);
    } else {
      var before, c := log[..|log| - 1], log[|log| - 1];
      SumSplits(before, keys, others);
      PlusLaws(SumWhere(before, keys), SumWhere(before, others), c.counts.tally);
    }
  }

  lemma {:induction false} SumEverything<T>(log: seq<Contribution<T>>)
    ensures SumWhere(log, Keys(log)) == SumAll(log)
    decreases |log|
  {
    hide Plus;
    if log == [] {
    } else {
      var before, c := log[..|log| - 1], log[|log| - 1];
      assert log == before + [c];
      SumEverything(before);
      KeysPush(before, c);
      SumSame(before, Keys(log), Keys(before));
      SumPush(before, c, Keys(log));
    }
  }

  lemma {:induction false} SumTrackedSums<T(!new)>(m: map<T, PacketCounts>, tag: T -> PacketCounts,
                                                   log: seq<Contribution<T>>, order: seq<T>)
    requires forall k :: k in order ==> k in m && m[k] == tag(k).(tally := SumWhere(log, {k}))
    requires forall i, j :: 0 <= i < j < |order| ==> order[i] != order[j]
    ensures SumTracked(m, order) == SumWhere(log, set k | k in order)
    decreases |order|
  {
    hide Plus, SumWhere;
    if order == [] {
      SumNothing(log);
      assert (set k: T | k in order) == {};
    } else {
      var before, last := order[..|order| - 1], order[|order| - 1];
      SumTrackedSums(m, tag, log, before);
      assert order == before + [last];
      SumSplits(log, set k | k in before, {last});
      assert (set k | k in order) == (set k | k in before) + {last};
    }
  }

  /** Whatever the order of the keys, tracked and overflowing counts add up to everything contributed. */
  lemma NothingUncounted<T(!new)>(limit: int, tag: T -> PacketCounts, log: seq<Contribution<T>>, order: seq<T>)
    requires Fresh(tag) && Enumerates(order, Counted(limit, tag, log).m.Keys)
    ensures var b := Counted(limit, tag, log);
      Plus(SumTracked(b.m, order), b.overflow.tally) == SumAll(log)
  {
    hide Plus, SumWhere, SumTracked, SumAll, Counted, Keys, Early;
    var b := Counted(limit, tag, log);
    CountsAreAccurate(limit, tag, log);
    SumTrackedSums(b.m, tag, log, order);
    assert (set k | k in order) == b.m.Keys;
    SumSplits(log, b.m.Keys, Keys(log) - b.m.Keys);
    assert b.m.Keys + (Keys(log) - b.m.Keys) == Keys(log);
    SumEverything(log);
  }

  // ---- The packet counter: by port, by interface and by host ----

  const MaxKeys := 10_000

  datatype Counter = Counter(
    total: PacketCounts, byPort: Bounded<int>, byInterface: Bounded<string>, byHost: Bounded<string>)

  function PortLabel(port: int): PacketCounts { PacketCounts("*", port, 0, "", "", Zero) }
  function InterfaceLabel(name: string): PacketCounts { PacketCounts(name, 0, 0, "", "", Zero) }
  function HostLabel(host: string): PacketCounts { PacketCounts("*", 0, 0, host, "", Zero) }

  const NewCounter := Counter(PacketCounts("", 0, 0, "", "", Zero),
                              Bounded(MaxKeys, OverflowLabel, map[]),
                              Bounded(MaxKeys, OverflowLabel, map[]),
                              Bounded(MaxKeys, OverflowLabel, map[]))

  function AddHost(b: Bounded<string>, host: string, c: PacketCounts): Bounded<string> {
    if host == "" then b else AddOrInsert(b, host, c, Add(HostLabel(host), c))
  }

  function AddPort(b: Bounded<int>, port: int, c: PacketCounts): Bounded<int> {
    AddOrInsert(b, port, c, Add(PortLabel(port), c))
  }

  function Update(s: Counter, c: PacketCounts): Counter {
    Counter(Add(s.total, c),
            AddPort(AddPort(s.byPort, c.srcPort, c), c.dstPort, c),
            AddOrInsert(s.byInterface, c.netInterface, c, Add(InterfaceLabel(c.netInterface), c)),
            AddHost(AddHost(s.byHost, c.srcHost, c), c.dstHost, c))
  }

  function Run(updates: seq<PacketCounts>): Counter
    decreases |updates|
  {
    if updates == [] then NewCounter else Update(Run(updates[..|updates| - 1]), updates[|updates| - 1])
  }

  function PortLog(updates: seq<PacketCounts>): seq<Contribution<int>>
    decreases |updates|
  {
    if updates == [] then []
    else
      var c := updates[|updates| - 1];
      PortLog(updates[..|updates| - 1]) + [To(c.srcPort, c)] + [To(c.dstPort, c)]
  }

  function InterfaceLog(updates: seq<PacketCounts>): seq<Contribution<string>>
    decreases |updates|
  {
    if updates == [] then []
    else InterfaceLog(updates[..|updates| - 1]) + [To(updates[|updates| - 1].netInterface, updates[|updates| - 1])]
  }

  function Named(host: string, c: PacketCounts): seq<Contribution<string>> {
    if host == "" then [] else [To(host, c)]
  }

  function HostLog(updates: seq<PacketCounts>): seq<Contribution<string>>
    decreases |updates|
  {
    if updates == [] then []
    else
      var c := updates[|updates| - 1];
      HostLog(updates[..|updates| - 1]) + Named(c.srcHost, c) + Named(c.dstHost, c)
  }

  /** The sum of the updates that satisfy a condition. */
  function SumIf(updates: seq<PacketCounts>, p: PacketCounts -> bool): Tally
    decreases |updates|
  {
    if updates == [] then Zero
    else
      var before, c := SumIf(updates[..|updates| - 1], p), updates[|updates| - 1];
      if p(c) then Plus(before, c.tally) else before
  }

  lemma CountedPush<T>(limit: int, tag: T -> PacketCounts, log: seq<Contribution<T>>, c: Contribution<T>)
    ensures Counted(limit, tag, log + [c]) ==
            AddOrInsert(Counted(limit, tag, log), c.key, c.counts, Add(tag(c.key), c.counts))
  {
    assert (log + [c])[..|log|] == log;
  }

  lemma AddHostCounts(log: seq<Contribution<string>>, host: string, c: PacketCounts)
    ensures Counted(MaxKeys, HostLabel, log + Named(host, c)) == AddHost(Counted(MaxKeys, HostLabel, log), host, c)
  {
    if host == "" {
      assert log + Named(host, c) == log;
    } else {
      CountedPush(MaxKeys, HostLabel, log, To(host, c));
    }
  }

  lemma NothingCounted<T>(limit: int, tag: T -> PacketCounts)
    ensures Counted(limit, tag, []) == Bounded(limit, OverflowLabel, map[])
  {
  }

  /** The three bounded counters count the contributions of all updates: two ports each, one interface,
      and up to two hosts. */
  lemma {:induction false} RunCounts(updates: seq<PacketCounts>)
    ensures Run(updates).byPort == Counted(MaxKeys, PortLabel, PortLog(updates))
    ensures Run(updates).byInterface == Counted(MaxKeys, InterfaceLabel, InterfaceLog(updates))
    ensures Run(updates).byHost == Counted(MaxKeys, HostLabel, HostLog(updates))
    ensures Run(updates).total.tally == SumIf(updates, c => true)
    decreases |updates|
  {
    hide Plus, Counted, AddOrInsert;
    if updates == [] {
      NothingCounted(MaxKeys, PortLabel);
      NothingCounted(MaxKeys, InterfaceLabel);
      NothingCounted(MaxKeys, HostLabel);
    } else {
      var before, c := updates[..|updates| - 1], updates[|updates| - 1];
      RunCounts(before);
      CountedPush(MaxKeys, PortLabel, PortLog(before), To(c.srcPort, c));
      CountedPush(MaxKeys, PortLabel, PortLog(before) + [To(c.srcPort, c)], To(c.dstPort, c));
      CountedPush(MaxKeys, InterfaceLabel, InterfaceLog(before), To(c.netInterface, c));
      AddHostCounts(HostLog(before), c.srcHost, c);
      AddHostCounts(HostLog(before) + Named(c.srcHost, c), c.dstHost, c);
    }
  }

  /** All that the three counters hold, tracked keys and overflow together. */
  function Held<T>(b: Bounded<T>, order: seq<T>): Tally
    requires forall k :: k in order ==> k in b.m
  {
    Plus(SumTracked(b.m, order), b.overflow.tally)
  }

  lemma {:induction false} LogSums(updates: seq<PacketCounts>)
    ensures var total := SumIf(updates, c => true);
      && SumAll(PortLog(updates)) == Plus(total, total)
      && SumAll(InterfaceLog(updates)) == total
    decreases |updates|
  {
    if updates == [] {
    } else {
      var before, c := updates[..|updates| - 1], updates[|updates| - 1];
      LogSums(before);
      hide Plus, SumAll;
      var total := SumIf(before, c => true);
      PlusLaws(total, total, c.tally);
      PlusLaws(Plus(total, c.tally), total, c.tally);
      SumPush(PortLog(before), To(c.srcPort, c), {});
      SumPush(PortLog(before) + [To(c.srcPort, c)], To(c.dstPort, c), {});
      SumPush(InterfaceLog(before), To(c.netInterface, c), {});
    }
  }

  function HasSrcHost(c: PacketCounts): bool { c.srcHost != "" }
  function HasDstHost(c: PacketCounts): bool { c.dstHost != "" }

  lemma SumNamed(log: seq<Contribution<string>>, host: string, c: PacketCounts)
    ensures SumAll(log + Named(host, c)) == if host == "" then SumAll(log) else Plus(SumAll(log), c.tally)
  {
    if host == "" {
      assert log + Named(host, c) == log;
    } else {
      SumPush(log, To(host, c), {});
    }
  }

  lemma {:induction false} HostLogSum(updates: seq<PacketCounts>)
    ensures SumAll(HostLog(updates)) == Plus(SumIf(updates, HasSrcHost), SumIf(updates, HasDstHost))
    decreases |updates|
  {
    if updates == [] {
    } else {
      var before, c := updates[..|updates| - 1], updates[|updates| - 1];
      HostLogSum(before);
      hide Plus, SumAll;
      var src, dst := SumIf(before, HasSrcHost), SumIf(before, HasDstHost);
      PlusLaws(src, dst, c.tally);
      PlusLaws(src, c.tally, dst);
      PlusLaws(Plus(src, c.tally), dst, c.tally);
      SumNamed(HostLog(before), c.srcHost, c);
      SumNamed(HostLog(before) + Named(c.srcHost, c), c.dstHost, c);
    }
  }

  /** After any updates, the ports hold twice the total, the interfaces the total, and the hosts the sum over
      the source and destination hosts that have a name. */
  lemma TotalsConserved(updates: seq<PacketCounts>, ports: seq<int>, interfaces: seq<string>, hosts: seq<string>)
    requires Enumerates(ports, Run(updates).byPort.m.Keys)
    requires Enumerates(interfaces, Run(updates).byInterface.m.Keys)
    requires Enumerates(hosts, Run(updates).byHost.m.Keys)
    ensures var s := Run(updates);
      && Held(s.byPort, ports) == Plus(s.total.tally, s.total.tally)
      && Held(s.byInterface, interfaces) == s.total.tally
      && Held(s.byHost, hosts) == Plus(SumIf(updates, HasSrcHost), SumIf(updates, HasDstHost))
  {
    hide Run, Plus, SumIf, Counted, SumAll, SumTracked;
    RunCounts(updates);
    LogSums(updates);
    HostLogSum(updates);
    NothingUncounted(MaxKeys, PortLabel, PortLog(updates), ports);
    NothingUncounted(MaxKeys, InterfaceLabel, InterfaceLog(updates), interfaces);
    NothingUncounted(MaxKeys, HostLabel, HostLog(updates), hosts);
  }

  function From(port: int): PacketCounts -> bool {
    (c: PacketCounts) => c.srcPort == port
  }

  function Into(port: int): PacketCounts -> bool {
    (c: PacketCounts) => c.dstPort == port
  }

  lemma {:induction false} PortSum(updates: seq<PacketCounts>, port: int)
    ensures SumWhere(PortLog(updates), {port}) ==
            Plus(SumIf(updates, From(port)), SumIf(updates, Into(port)))
    decreases |updates|
  {
    if updates == [] {
    } else {
      var before, c := updates[..|updates| - 1], updates[|updates| - 1];
      PortSum(before, port);
      SumPush(PortLog(before), To(c.srcPort, c), {port});
      SumPush(PortLog(before) + [To(c.srcPort, c)], To(c.dstPort, c), {port});
    }
  }

  /** A tracked port has the sum of the updates it was the source of and of those it was the
      destination of, over the whole history, under its own label; the number of ports is bounded. */
  lemma PortsAreAccurate(updates: seq<PacketCounts>, port: int)
    ensures |Run(updates).byPort.m| <= MaxKeys
    ensures port in Run(updates).byPort.m ==>
              Run(updates).byPort.m[port] ==
              PacketCounts("*", port, 0, "", "", Plus(SumIf(updates, From(port)), SumIf(updates, Into(port))))
  {
    hide Plus, Run, SumIf, SumWhere, Counted, Early;
    RunCounts(updates);
    CountsAreAccurate(MaxKeys, PortLabel, PortLog(updates));
    PortSum(updates, port);
  }

  function On(name: string): PacketCounts -> bool {
    (c: PacketCounts) => c.netInterface == name
  }

  lemma {:induction false} InterfaceSum(updates: seq<PacketCounts>, name: string)
    ensures SumWhere(InterfaceLog(updates), {name}) == SumIf(updates, On(name))
    decreases |updates|
  {
    if updates == [] {
    } else {
      var before, c := updates[..|updates| - 1], updates[|updates| - 1];
      InterfaceSum(before, name);
      SumPush(InterfaceLog(before), To(c.netInterface, c), {name});
    }
  }

  /** A tracked interface has the sum of the updates on it, under its own name. */
  lemma InterfacesAreAccurate(updates: seq<PacketCounts>, name: string)
    ensures |Run(updates).byInterface.m| <= MaxKeys
    ensures name in Run(updates).byInterface.m ==>
              Run(updates).byInterface.m[name] == PacketCounts(name, 0, 0, "", "", SumIf(updates, On(name)))
  {
    hide Plus, Run, SumIf, SumWhere, Counted, Early;
    RunCounts(updates);
    CountsAreAccurate(MaxKeys, InterfaceLabel, InterfaceLog(updates));
    InterfaceSum(updates, name);
  }

  function FromHost(host: string): PacketCounts -> bool {
    (c: PacketCounts) => c.srcHost == host
  }

  function IntoHost(host: string): PacketCounts -> bool {
    (c: PacketCounts) => c.dstHost == host
  }

  lemma NamedSum(log: seq<Contribution<string>>, name: string, c: PacketCounts, host: string)
    requires host != ""
    ensures SumWhere(log + Named(name, c), {host}) ==
            if name == host then Plus(SumWhere(log, {host}), c.tally) else SumWhere(log, {host})
  {
    if name == "" {
      assert log + Named(name, c) == log;
    } else {
      SumPush(log, To(name, c), {host});
    }
  }

  lemma {:induction false} HostSum(updates: seq<PacketCounts>, host: string)
    requires host != ""
    ensures SumWhere(HostLog(updates), {host}) ==
            Plus(SumIf(updates, FromHost(host)), SumIf(updates, IntoHost(host)))
    decreases |updates|
  {
    if updates == [] {
    } else {
      var before, c := updates[..|updates| - 1], updates[|updates| - 1];
      HostSum(before, host);
      NamedSum(HostLog(before), c.srcHost, c, host);
      NamedSum(HostLog(before) + Named(c.srcHost, c), c.dstHost, c, host);
      hide Plus;
      var src, dst := SumIf(before, FromHost(host)), SumIf(before, IntoHost(host));
      PlusLaws(src, dst, c.tally);
      PlusLaws(src, c.tally, dst);
      PlusLaws(Plus(src, c.tally), dst, c.tally);
    }
  }

  lemma {:induction false} NoEmptyHost(updates: seq<PacketCounts>)
    ensures "" !in Keys(HostLog(updates))
    decreases |updates|
  {
    if updates == [] {
    } else {
      NoEmptyHost(updates[..|updates| - 1]);
    }
  }

  /** A tracked host has the sum of the updates it was the source of and of those it was the destination of,
      under its own name; the empty name is never tracked. */
  lemma HostsAreAccurate(updates: seq<PacketCounts>, host: string)
    ensures |Run(updates).byHost.m| <= MaxKeys
    ensures host in Run(updates).byHost.m ==>
              && host != ""
              && Run(updates).byHost.m[host] ==
                 PacketCounts("*", 0, 0, host, "", Plus(SumIf(updates, FromHost(host)), SumIf(updates, IntoHost(host))))
  {
    hide Plus, Run, SumIf, SumWhere, Counted, Early;
    RunCounts(updates);
    CountsAreAccurate(MaxKeys, HostLabel, HostLog(updates));
    NoEmptyHost(updates);
    if host != "" {
      HostSum(updates, host);
    }
  }

  // ---- The top entries ----

  ghost predicate StrictOrder<T(!new)>(less: (T, T) -> bool) {
    && (forall a :: !less(a, a))
    && (forall a, b :: less(a, b) || less(b, a) || a == b)
    && (forall a, b, c :: less(a, b) && less(b, c) ==> less(a, c))
  }

  datatype Pair<T> = Pair(k: T, v: PacketCounts)

  /** By projection, descending, then by key. */
  predicate Precedes<T(==)>(project: PacketCounts -> int, less: (T, T) -> bool, a: Pair<T>, b: Pair<T>) {
    var av, bv := project(a.v), project(b.v);
    if av != bv then bv < av else less(a.k, b.k)
  }

  lemma PrecedesIsStrict<T(!new)>(project: PacketCounts -> int, less: (T, T) -> bool,
                                  a: Pair<T>, b: Pair<T>, c: Pair<T>)
    requires StrictOrder(less)
    ensures Precedes(project, less, a, b) ==> !Precedes(project, less, b, a)
    ensures Precedes(project, less, a, b) && Precedes(project, less, b, c) ==> Precedes(project, less, a, c)
    ensures a.k != b.k ==> Precedes(project, less, a, b) || Precedes(project, less, b, a)
  {
  }

  /** `top` is min(n, |m|) entries of m, each of which has a greater projection than every entry left out, or
      the same and a smaller key. */
  ghost predicate IsTop<T(!new)>(m: map<T, PacketCounts>, project: PacketCounts -> int, less: (T, T) -> bool, n: nat,
                                 top: map<T, PacketCounts>)
  {
    && (forall k :: k in top ==> k in m && top[k] == m[k])
    && |top| == (if |m| < n then |m| else n)
    && (forall k, l :: k in top && l in m && l !in top ==>
          project(m[k]) > project(m[l]) || (project(m[k]) == project(m[l]) && less(k, l)))
  }

  lemma TopAbove<T(!new)>(m: map<T, PacketCounts>, project: PacketCounts -> int, less: (T, T) -> bool, n: nat,
                          top: map<T, PacketCounts>, k: T, l: T)
    requires IsTop(m, project, less, n, top) && k in top && l in m && l !in top
    ensures k in m && Precedes(project, less, Pair(k, m[k]), Pair(l, m[l]))
  {
  }

  lemma TopSize<T(!new)>(m: map<T, PacketCounts>, project: PacketCounts -> int, less: (T, T) -> bool, n: nat,
                         top: map<T, PacketCounts>)
    requires IsTop(m, project, less, n, top)
    ensures |top.Keys| == (if |m| < n then |m| else n) && forall k :: k in top ==> k in m && top[k] == m[k]
  {
    assert |top.Keys| == |top|;
  }

  lemma TopGrows<T(!new)>(m: map<T, PacketCounts>, project: PacketCounts -> int, less: (T, T) -> bool,
                          n: nat, n': nat, top: map<T, PacketCounts>, top': map<T, PacketCounts>)
    requires StrictOrder(less) && n <= n' && IsTop(m, project, less, n, top) && IsTop(m, project, less, n', top')
    ensures forall k :: k in top ==> k in top' && top'[k] == top[k]
  {
    hide StrictOrder, IsTop, Precedes;
    TopSize(m, project, less, n, top);
    TopSize(m, project, less, n', top');
    if k :| k in top && k !in top' {
      if top'.Keys <= top.Keys {
        SubsetSize(top'.Keys, top.Keys - {k});
        assert false;
      }
      var l :| l in top' && l !in top;
      TopAbove(m, project, less, n, top, k, l);
      PrecedesIsStrict(project, less, Pair(k, m[k]), Pair(l, m[l]), Pair(k, m[k]));
      TopAbove(m, project, less, n', top', l, k);
      assert false;
    }
  }

  /** The top entries do not depend on the order in which a map happens to be ranged over. */
  lemma TopIsUnique<T(!new)>(m: map<T, PacketCounts>, project: PacketCounts -> int, less: (T, T) -> bool, n: nat,
                             top: map<T, PacketCounts>, other: map<T, PacketCounts>)
    requires StrictOrder(less) && IsTop(m, project, less, n, top) && IsTop(m, project, less, n, other)
    ensures top == other
  {
    TopGrows(m, project, less, n, n, top, other);
    TopGrows(m, project, less, n, n, other, top);
    assert top.Keys == other.Keys;
  }

  /** Strings compare byte by byte, and a proper prefix comes first. */
  predicate StringLess(a: string, b: string) {
    b != [] && (a == [] || a[0] < b[0] || (a[0] == b[0] && StringLess(a[1..], b[1..])))
  }

  lemma {:induction false} StringLessCases(a: string, b: string, c: string)
    ensures !StringLess(a, a)
    ensures StringLess(a, b) || StringLess(b, a) || a == b
    ensures StringLess(a, b) && StringLess(b, c) ==> StringLess(a, c)
    decreases |a| + |b| + |c|
  {
    if a == [] {
    } else {
      StringLessCases(a[1..], if b == [] then [] else b[1..], if c == [] then [] else c[1..]);
      if b != [] && a[0] == b[0] {
        assert a == [a[0]] + a[1..] && b == [b[0]] + b[1..];
      }
    }
  }

  /** Ports and names are keys that TopN can order. */
  lemma KeysAreOrdered()
    ensures StrictOrder((a: int, b: int) => a < b) && StrictOrder(StringLess)
  {
    forall a: string, b: string, c: string
      ensures !StringLess(a, a)
      ensures StringLess(a, b) || StringLess(b, a) || a == b
      ensures StringLess(a, b) && StringLess(b, c) ==> StringLess(a, c)
    {
      StringLessCases(a, b, c);
    }
  }
}
