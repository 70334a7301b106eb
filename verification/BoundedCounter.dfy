/** The counters as the collectors update them, and the choice of the top entries. */
module PacketCounterImpl {
  import PC = PacketCounter
  import opened PacketCounter
  import opened Options

  /** The pairs are the entries of the map, each once. */
  ghost predicate PairsOf<T(!new)>(m: map<T, PacketCounts>, pairs: seq<Pair<T>>) {
    && (forall i :: 0 <= i < |pairs| ==> pairs[i].k in m && m[pairs[i].k] == pairs[i].v)
    && (forall k :: k in m ==> Pair(k, m[k]) in pairs)
    && (forall i, j :: 0 <= i < j < |pairs| ==> pairs[i].k != pairs[j].k)
  }

  lemma PairsPush<T(!new)>(m: map<T, PacketCounts>, pairs: seq<Pair<T>>, p: Pair<T>)
    requires PairsOf(m, pairs) && p.k !in m
    ensures PairsOf(m[p.k := p.v], pairs + [p])
  {
    var t := m[p.k := p.v];
    forall k | k in t ensures Pair(k, t[k]) in pairs + [p] {
      if k != p.k {
        assert Pair(k, m[k]) in pairs;
      } else {
        assert (pairs + [p])[|pairs|] == Pair(k, t[k]);
      }
    }
  }

  lemma SizeWithout<T(!new)>(m: map<T, PacketCounts>, k: T)
    requires k in m
    ensures |m - {k}| == |m| - 1
  {
    var rest := m - {k};
    assert m.Keys == rest.Keys + {k};
    assert |m.Keys| == |m| && |rest.Keys| == |rest|;
  }

  lemma LastPairApart<T(!new)>(m: map<T, PacketCounts>, before: seq<Pair<T>>, last: Pair<T>)
    requires PairsOf(m, before + [last])
    ensures last.k in m && PairsOf(m - {last.k}, before)
  {
    var pairs, rest := before + [last], m - {last.k};
    assert pairs[|before|] == last && forall i :: 0 <= i < |before| ==> before[i] == pairs[i];
    forall k | k in rest ensures Pair(k, rest[k]) in before {
      assert Pair(k, m[k]) in pairs;
    }
  }

  lemma {:induction false} PairsCount<T(!new)>(m: map<T, PacketCounts>, pairs: seq<Pair<T>>)
    requires PairsOf(m, pairs)
    ensures |pairs| == |m|
    decreases |pairs|
  {
    if pairs == [] {
      assert forall k :: k !in m;
      assert m == map[];
    } else {
      hide PairsOf;
      var last, before := pairs[|pairs| - 1], pairs[..|pairs| - 1];
      assert pairs == before + [last];
      LastPairApart(m, before, last);
      PairsCount(m - {last.k}, before);
      SizeWithout(m, last.k);
    }
  }

  lemma PairsReordered<T(!new)>(m: map<T, PacketCounts>, pairs: seq<Pair<T>>, sorted: seq<Pair<T>>)
    requires PairsOf(m, pairs) && (forall p :: p in sorted <==> p in pairs)
    requires forall i, j :: 0 <= i < j < |sorted| ==> sorted[i].k != sorted[j].k
    ensures PairsOf(m, sorted)
  {
    forall i | 0 <= i < |sorted| ensures sorted[i].k in m && m[sorted[i].k] == sorted[i].v {
      assert sorted[i] in pairs;
    }
  }

  ghost predicate Ordered<T>(project: PacketCounts -> int, less: (T, T) -> bool, s: seq<Pair<T>>) {
    forall i, j :: 0 <= i < j < |s| ==> Precedes(project, less, s[i], s[j])
  }

  lemma SameKey<T>(pairs: seq<Pair<T>>, p: Pair<T>, q: Pair<T>)
    requires forall i, j :: 0 <= i < j < |pairs| ==> pairs[i].k != pairs[j].k
    requires p in pairs && q in pairs && p.k == q.k
    ensures p == q
  {
  }

  lemma InsertKeepsOrder<T(!new)>(project: PacketCounts -> int, less: (T, T) -> bool,
                                  s: seq<Pair<T>>, p: Pair<T>, at: nat)
    requires StrictOrder(less) && Ordered(project, less, s) && at <= |s|
    requires forall q :: q in s ==> q.k != p.k
    requires forall j :: 0 <= j < at ==> Precedes(project, less, s[j], p)
    requires at < |s| ==> !Precedes(project, less, s[at], p)
    ensures var t := s[..at] + [p] + s[at..];
      Ordered(project, less, t) && forall q :: q in t <==> q in s || q == p
  {
    hide StrictOrder, Precedes;
    var t := s[..at] + [p] + s[at..];
    forall j | at <= j < |s| ensures Precedes(project, less, p, s[j]) {
      PrecedesIsStrict(project, less, p, s[at], s[j]);
    }
    forall q ensures q in t <==> q in s || q == p {
      assert s == s[..at] + s[at..];
    }
    forall i, j | 0 <= i < j < |t| ensures Precedes(project, less, t[i], t[j]) {
      assert t[i] == if i < at then s[i] else if i == at then p else s[i - 1];
      assert t[j] == if j < at then s[j] else if j == at then p else s[j - 1];
    }
  }

  /** Puts the pairs in order, by inserting one after the other. */
  method SortFunc<T(==, !new)>(pairs: seq<Pair<T>>, project: PacketCounts -> int, less: (T, T) -> bool)
    returns (sorted: seq<Pair<T>>)
    requires StrictOrder(less)
    requires forall i, j :: 0 <= i < j < |pairs| ==> pairs[i].k != pairs[j].k
    ensures Ordered(project, less, sorted)
    ensures forall p :: p in sorted <==> p in pairs
    ensures forall i, j :: 0 <= i < j < |sorted| ==> sorted[i].k != sorted[j].k
  {
    sorted := [];
    for i := 0 to |pairs|
      invariant Ordered(project, less, sorted)
      invariant forall p :: p in sorted <==> p in pairs[..i]
    {
      var at := 0;
      while at < |sorted| && Precedes(project, less, sorted[at], pairs[i])
        invariant 0 <= at <= |sorted|
        invariant forall j :: 0 <= j < at ==> Precedes(project, less, sorted[j], pairs[i])
      {
        at := at + 1;
      }
      forall q | q in sorted ensures q.k != pairs[i].k {
        assert q in pairs[..i];
      }
      InsertKeepsOrder(project, less, sorted, pairs[i], at);
      assert forall p :: p in pairs[..i + 1] <==> p in pairs[..i] || p == pairs[i];
      sorted := sorted[..at] + [pairs[i]] + sorted[at..];
    }
    assert pairs[..|pairs|] == pairs;
    forall i, j | 0 <= i < j < |sorted| ensures sorted[i].k != sorted[j].k {
      assert Precedes(project, less, sorted[i], sorted[j]);
      if sorted[i].k == sorted[j].k {
        SameKey(pairs, sorted[i], sorted[j]);
        PrecedesIsStrict(project, less, sorted[i], sorted[j], sorted[j]);
      }
    }
  }

  lemma PairOf<T(!new)>(m: map<T, PacketCounts>, pairs: seq<Pair<T>>, k: T) returns (i: nat)
    requires PairsOf(m, pairs) && k in m
    ensures i < |pairs| && pairs[i] == Pair(k, m[k])
  {
    i :| 0 <= i < |pairs| && pairs[i] == Pair(k, m[k]);
  }

  lemma PairAt<T(!new)>(m: map<T, PacketCounts>, pairs: seq<Pair<T>>, i: nat)
    requires PairsOf(m, pairs) && i < |pairs|
    ensures pairs[i].k in m && m[pairs[i].k] == pairs[i].v
  {
  }

  lemma PrecedesMeans<T(!new)>(project: PacketCounts -> int, less: (T, T) -> bool, a: Pair<T>, b: Pair<T>)
    ensures Precedes(project, less, a, b) <==>
            project(a.v) > project(b.v) || (project(a.v) == project(b.v) && less(a.k, b.k))
  {
  }

  lemma FirstAreTop<T(!new)>(m: map<T, PacketCounts>, project: PacketCounts -> int, less: (T, T) -> bool, n: nat,
                             sorted: seq<Pair<T>>, top: map<T, PacketCounts>)
    requires PairsOf(m, sorted) && |sorted| == |m| && Ordered(project, less, sorted)
    requires PairsOf(top, sorted[..if |m| < n then |m| else n])
    ensures IsTop(m, project, less, n, top)
  {
    hide Precedes, PairsOf;
    var c := if |m| < n then |m| else n;
    PairsCount(top, sorted[..c]);
    forall k | k in top ensures k in m && top[k] == m[k] {
      var i := PairOf(top, sorted[..c], k);
      PairAt(m, sorted, i);
    }
    forall k, l | k in top && l in m && l !in top
      ensures project(m[k]) > project(m[l]) || (project(m[k]) == project(m[l]) && less(k, l))
    {
      var i := PairOf(top, sorted[..c], k);
      var j := PairOf(m, sorted, l);
      if j < c {
        PairAt(top, sorted[..c], j);
        assert false;
      }
      assert Precedes(project, less, sorted[i], sorted[j]);
      PrecedesMeans(project, less, sorted[i], sorted[j]);
    }
  }

  class BoundedPacketCounter<T(==, !new)> {
    const limit: int
    var overflow: PacketCounts
    var m: map<T, PacketCounts>

    function View(): Bounded<T>
      reads this
    {
      Bounded(limit, overflow, m)
    }

    constructor (limit: int)
      ensures View() == Bounded(limit, OverflowLabel, map[])
    {
      this.limit := limit;
      overflow, m := OverflowLabel, map[];
    }

    /** Adds c to m[key], or inserts makeNew(c), or adds to the overflow if the limit has been reached. */
    method AddOrInsert(key: T, c: PacketCounts, makeNew: PacketCounts -> PacketCounts)
      modifies this
      ensures View() == PC.AddOrInsert(old(View()), key, c, makeNew(c))
    {
      if key in m {
        m := m[key := Add(m[key], c)];
      } else if limit <= |m| {
        overflow := Add(overflow, c);
      } else {
        m := m[key := makeNew(c)];
      }
    }

    function GetOverflow(): Option<PacketCounts>
      reads this
    {
      PC.GetOverflow(View())
    }

    /** The entries of the map, in some order. */
    method Pairs() returns (pairs: seq<Pair<T>>)
      ensures PairsOf(m, pairs)
    {
      pairs := [];
      var rest := m;
      while rest != map[]
        invariant rest.Keys <= m.Keys && forall k :: k in rest ==> rest[k] == m[k]
        invariant PairsOf(map k | k in m && k !in rest :: m[k], pairs)
        decreases |rest|
      {
        var k :| k in rest;
        ghost var taken := map l | l in m && l !in rest :: m[l];
        PairsPush(taken, pairs, Pair(k, rest[k]));
        pairs := pairs + [Pair(k, rest[k])];
        rest := rest - {k};
        assert (map l | l in m && l !in rest :: m[l]) == taken[k := m[k]];
      }
      assert (map k | k in m && k !in rest :: m[k]) == m;
    }

    static method First(n: nat, sorted: seq<Pair<T>>) returns (top: map<T, PacketCounts>)
      requires forall i, j :: 0 <= i < j < |sorted| ==> sorted[i].k != sorted[j].k
      ensures PairsOf(top, sorted[..if |sorted| < n then |sorted| else n])
    {
      top := map[];
      var i := 0;
      while i < |sorted| && i < n
        invariant 0 <= i <= |sorted| && i <= n
        invariant PairsOf(top, sorted[..i])
      {
        assert sorted[..i + 1] == sorted[..i] + [sorted[i]];
        assert sorted[i].k !in top;
        PairsPush(top, sorted[..i], sorted[i]);
        top := top[sorted[i].k := sorted[i].v];
        i := i + 1;
      }
    }

    /** The n top entries, whatever the order in which the map is ranged over, and the overflow. */
    method TopN(n: nat, project: PacketCounts -> int, less: (T, T) -> bool)
      returns (top: map<T, PacketCounts>, over: Option<PacketCounts>)
      requires StrictOrder(less)
      ensures IsTop(m, project, less, n, top)
      ensures over == if limit <= |m| then Some(overflow) else None
    {
      var pairs := Pairs();
      var sorted := SortFunc(pairs, project, less);
      PairsReordered(m, pairs, sorted);
      PairsCount(m, sorted);
      top := First(n, sorted);
      FirstAreTop(m, project, less, n, sorted, top);
      over := GetOverflow();
    }
  }

  // ---- Sorting ----

  datatype PacketCountSummary = PacketCountSummary(
    total: PacketCounts,
    topByPort: map<int, PacketCounts>,
    topByInterface: map<string, PacketCounts>,
    topByHost: map<string, PacketCounts>,
    byPortOverflow: Option<PacketCounts>,
    byInterfaceOverflow: Option<PacketCounts>,
    byHostOverflow: Option<PacketCounts>)

  class Counters {
    var total: PacketCounts
    const byPort: BoundedPacketCounter<int>
    const byInterface: BoundedPacketCounter<string>
    const byHost: BoundedPacketCounter<string>

    ghost predicate Valid() {
      byInterface != byHost
    }

    function View(): Counter
      reads this, byPort, byInterface, byHost
    {
      Counter(total, byPort.View(), byInterface.View(), byHost.View())
    }

    constructor ()
      ensures Valid() && View() == NewCounter
      ensures fresh(byPort) && fresh(byInterface) && fresh(byHost)
    {
      total := PacketCounts("", 0, 0, "", "", Zero);
      byPort := new BoundedPacketCounter(MaxKeys);
      byInterface := new BoundedPacketCounter(MaxKeys);
      byHost := new BoundedPacketCounter(MaxKeys);
    }

    method Update(c: PacketCounts)
      requires Valid()
      modifies this, byPort, byInterface, byHost
      ensures View() == PC.Update(old(View()), c)
    {
      // Add the hosts if there is host data.
      if c.srcHost != "" {
        byHost.AddOrInsert(c.srcHost, c, d => Add(HostLabel(c.srcHost), d));
      }
      if c.dstHost != "" {
        byHost.AddOrInsert(c.dstHost, c, d => Add(HostLabel(c.dstHost), d));
      }
      byPort.AddOrInsert(c.srcPort, c, d => Add(PortLabel(c.srcPort), d));
      byPort.AddOrInsert(c.dstPort, c, d => Add(PortLabel(c.dstPort), d));
      byInterface.AddOrInsert(c.netInterface, c, d => Add(InterfaceLabel(c.netInterface), d));
      total := Add(total, c);
    }

    /** The total, the top n ports and interfaces by TCP packets and hosts by HTTP requests and TLS hellos, and
        the overflows of the counters that have reached their limit. */
    method Summary(n: nat) returns (summary: PacketCountSummary)
      ensures summary.total == total
      ensures IsTop(byPort.m, (c: PacketCounts) => c.tally.tcpPackets, (a, b) => a < b, n, summary.topByPort)
      ensures IsTop(byInterface.m, (c: PacketCounts) => c.tally.tcpPackets, StringLess, n, summary.topByInterface)
      ensures IsTop(byHost.m, (c: PacketCounts) => c.tally.httpRequests + c.tally.tlsHello, StringLess, n,
                    summary.topByHost)
      ensures summary.byPortOverflow == if byPort.limit <= |byPort.m| then Some(byPort.overflow) else None
      ensures summary.byInterfaceOverflow ==
              if byInterface.limit <= |byInterface.m| then Some(byInterface.overflow) else None
      ensures summary.byHostOverflow == if byHost.limit <= |byHost.m| then Some(byHost.overflow) else None
    {
      KeysAreOrdered();
      hide IsTop;
      var topByPort, byPortOverflow := byPort.TopN(n, (c: PacketCounts) => c.tally.tcpPackets, (a, b) => a < b);
      var topByInterface, byInterfaceOverflow :=
        byInterface.TopN(n, (c: PacketCounts) => c.tally.tcpPackets, StringLess);
      var topByHost, byHostOverflow :=
        byHost.TopN(n, (c: PacketCounts) => c.tally.httpRequests + c.tally.tlsHello, StringLess);
      summary := PacketCountSummary(total, topByPort, topByInterface, topByHost,
                                    byPortOverflow, byInterfaceOverflow, byHostOverflow);
    }
  }
}
