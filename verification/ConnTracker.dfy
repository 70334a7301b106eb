/** The TCP connection tracker: summaries of connections out of the metadata of their packets. */
module ConnTracker {
  type Id(==, !new)
  type Ip(==, !new)
  type Content(==, !new)
  type Port = p: nat | p < 0x1_0000 witness 0
  type Time = int

  datatype Packet = Packet(
    srcIp: Ip, srcPort: Port, dstIp: Ip, dstPort: Port, id: Id, time: Time,
    syn: bool, ack: bool, fin: bool, rst: bool, payloadLength: nat)

  datatype Initiator = UnknownInitiator | SourceInitiator | DestInitiator

  datatype EndState = ConnectionOpen | ConnectionClosed | ConnectionReset

  datatype Entry = Entry(
    srcIp: Ip, srcPort: Port, dstIp: Ip, dstPort: Port, id: Id,
    first: Time, last: Time, initiator: Initiator, endState: EndState)

  datatype Traffic = Tcp(packet: Packet) | Other(content: Content)

  /** What the downstream collector receives. */
  datatype Output = Forwarded(traffic: Traffic) | Summary(entry: Entry)

  datatype Tracker = Tracker(active: map<Id, Entry>, closed: bool, out: seq<Output>)

  const NewTracker := Tracker(map[], false, [])

  /** The packets that do not start an entry: a bare ACK, which may be the last of a closed
      connection, and a reset. */
  predicate Ignored(p: Packet) {
    (p.payloadLength == 0 && p.ack && !(p.fin || p.rst || p.syn)) || p.rst
  }

  /** The first packet gives the endpoints and the times; its flags are not looked at. */
  function NewEntry(p: Packet): Entry {
    Entry(p.srcIp, p.srcPort, p.dstIp, p.dstPort, p.id, p.time, p.time, UnknownInitiator, ConnectionOpen)
  }

  /** Who connected, judging by a packet with SYN: the destination of a SYN-ACK, or the source of a
      SYN, as seen from the first packet of the entry. */
  function Evidence(srcIp: Ip, srcPort: Port, p: Packet): Initiator {
    if (srcIp == p.srcIp && srcPort == p.srcPort) == p.ack then DestInitiator else SourceInitiator
  }

  function Augment(e: Entry, p: Packet): Entry {
    e.(first := if p.time < e.first then p.time else e.first,
       last := if p.time > e.last then p.time else e.last,
       initiator := if e.initiator.UnknownInitiator? && p.syn then Evidence(e.srcIp, e.srcPort, p) else e.initiator,
       endState := if p.rst then ConnectionReset
                   else if p.fin && e.endState.ConnectionOpen? then ConnectionClosed
                   else e.endState)
  }

  function Process(t: Tracker, traffic: Traffic): Tracker {
    match traffic
    case Other(_) => t.(out := t.out + [Forwarded(traffic)])
    case Tcp(p) =>
      if t.closed then t
      else if p.id in t.active then
        t.(active := t.active[p.id := Augment(t.active[p.id], p)], out := t.out + [Forwarded(traffic)])
      else if Ignored(p) then t
      else t.(active := t.active[p.id := NewEntry(p)])
  }

  /** What the timer of a connection does; the connection may be gone, or be another with the same ID. */
  function FlushConnection(t: Tracker, id: Id): Tracker {
    if id in t.active then t.(active := t.active - {id}, out := t.out + [Summary(t.active[id])]) else t
  }

  function FlushAll(t: Tracker, order: seq<Id>): Tracker
    decreases |order|
  {
    if order == [] then t else FlushConnection(FlushAll(t, order[..|order| - 1]), order[|order| - 1])
  }

  function Close(t: Tracker, order: seq<Id>): Tracker {
    FlushAll(t.(closed := true), order)
  }

  /** Closing ranges over the active connections, in an order that is not fixed. */
  datatype Step = Arrive(traffic: Traffic) | TimeOut(id: Id) | Shut(order: seq<Id>)

  function Next(t: Tracker, s: Step): Tracker {
    match s
    case Arrive(traffic) => Process(t, traffic)
    case TimeOut(id) => FlushConnection(t, id)
    case Shut(order) => Close(t, order)
  }

  function Run(h: seq<Step>): Tracker
    decreases |h|
  {
    if h == [] then NewTracker else Next(Run(h[..|h| - 1]), h[|h| - 1])
  }

  predicate Enabled(t: Tracker, s: Step) {
    s.Shut? ==> forall id :: id in t.active ==> id in s.order
  }

  ghost predicate IsRun(h: seq<Step>) {
    forall i :: 0 <= i < |h| ==> Enabled(Run(h[..i]), h[i])
  }

  lemma RunPrefix(h: seq<Step>)
    requires IsRun(h) && h != []
    ensures IsRun(h[..|h| - 1]) && Enabled(Run(h[..|h| - 1]), h[|h| - 1])
  {
    var before := h[..|h| - 1];
    forall i | 0 <= i < |before| ensures Enabled(Run(before[..i]), before[i]) {
      assert before[..i] == h[..i];
    }
  }

  // ---- The reference: one connection, watched on its own ----

  /** `open` holds the packets of the current entry and `done` those of the entries reported, in order. */
  datatype Watch = Watch(open: seq<Packet>, done: seq<seq<Packet>>, shut: bool)

  function Reported(w: Watch): Watch {
    if w.open == [] then w else w.(open := [], done := w.done + [w.open])
  }

  function Watched(w: Watch, id: Id, s: Step): Watch {
    match s
    case Arrive(Other(_)) => w
    case Arrive(Tcp(p)) =>
      if p.id != id || w.shut || (w.open == [] && Ignored(p)) then w else w.(open := w.open + [p])
    case TimeOut(i) => if i == id then Reported(w) else w
    case Shut(_) => Reported(w).(shut := true)
  }

  function WatchRun(h: seq<Step>, id: Id): Watch
    decreases |h|
  {
    if h == [] then Watch([], [], false) else Watched(WatchRun(h[..|h| - 1], id), id, h[|h| - 1])
  }

  function Summarise(ps: seq<Packet>): Entry
    requires ps != []
    decreases |ps|
  {
    if |ps| == 1 then NewEntry(ps[0]) else Augment(Summarise(ps[..|ps| - 1]), ps[|ps| - 1])
  }

  function Summaries(out: seq<Output>, id: Id): seq<Entry>
    decreases |out|
  {
    if out == [] then []
    else
      var o := out[|out| - 1];
      Summaries(out[..|out| - 1], id) + if o.Summary? && o.entry.id == id then [o.entry] else []
  }

  lemma SummariesPush(out: seq<Output>, o: Output, id: Id)
    ensures Summaries(out + [o], id) ==
            if o.Summary? && o.entry.id == id then Summaries(out, id) + [o.entry] else Summaries(out, id)
  {
    assert (out + [o])[..|out|] == out;
  }

  ghost predicate Whole(groups: seq<seq<Packet>>) {
    forall i :: 0 <= i < |groups| ==> groups[i] != []
  }

  /** The tracker's view of a connection is the watch's. */
  ghost predicate Agrees(t: Tracker, id: Id, w: Watch) {
    && t.closed == w.shut
    && (id in t.active <==> w.open != [])
    && (id in t.active ==> t.active[id] == Summarise(w.open) && t.active[id].id == id)
    && Whole(w.done)
    && Summaries(t.out, id) == seq(|w.done|, i requires 0 <= i < |w.done| && Whole(w.done) => Summarise(w.done[i]))
  }

  lemma FlushAgrees(t: Tracker, id: Id, w: Watch, i: Id)
    requires Agrees(t, id, w) && (i in t.active ==> t.active[i].id == i)
    ensures Agrees(FlushConnection(t, i), id, if i == id then Reported(w) else w)
  {
    if i in t.active {
      SummariesPush(t.out, Summary(t.active[i]), id);
    }
  }

  lemma {:induction false} FlushAllAgrees(t: Tracker, id: Id, w: Watch, order: seq<Id>)
    requires Agrees(t, id, w) && forall i :: i in t.active ==> t.active[i].id == i
    ensures Agrees(FlushAll(t, order), id, if id in order then Reported(w) else w)
    ensures forall i :: i in FlushAll(t, order).active <==> i in t.active && i !in order
    ensures forall i :: i in FlushAll(t, order).active ==> FlushAll(t, order).active[i] == t.active[i]
    decreases |order|
  {
    if order == [] {
    } else {
      var before := order[..|order| - 1];
      FlushAllAgrees(t, id, w, before);
      FlushAgrees(FlushAll(t, before), id, if id in before then Reported(w) else w, order[|order| - 1]);
      assert order == before + [order[|order| - 1]];
    }
  }

  lemma ProcessAgrees(t: Tracker, id: Id, w: Watch, traffic: Traffic)
    requires Agrees(t, id, w)
    ensures Agrees(Process(t, traffic), id, Watched(w, id, Arrive(traffic)))
  {
    SummariesPush(t.out, Forwarded(traffic), id);
    if traffic.Tcp? {
      assert (w.open + [traffic.packet])[..|w.open|] == w.open;
    }
  }

  /** Every entry is filed under its own ID, and none is left after closing. */
  ghost predicate Filed(t: Tracker) {
    && (forall id :: id in t.active ==> t.active[id].id == id)
    && (t.closed ==> t.active == map[])
  }

  /** The tracker is all connections watched separately: whatever other connections do, the reports for
      an ID are the summaries of its own groups of packets, in order, each once, whether they come
      from a timer (perhaps one set for an earlier entry) or from closing. */
  lemma {:induction false} TracksEachAlone(h: seq<Step>, id: Id)
    requires IsRun(h)
    ensures Agrees(Run(h), id, WatchRun(h, id)) && Filed(Run(h))
    decreases |h|
  {
    if h == [] {
    } else {
      var before, s := h[..|h| - 1], h[|h| - 1];
      RunPrefix(h);
      TracksEachAlone(before, id);
      var t, w := Run(before), WatchRun(before, id);
      match s
      case Arrive(traffic) => ProcessAgrees(t, id, w, traffic);
      case TimeOut(i) => FlushAgrees(t, id, w, i);
      case Shut(order) => FlushAllAgrees(t.(closed := true), id, w.(shut := true), order);
    }
  }

  // ---- Conservation ----

  function Flatten(groups: seq<seq<Packet>>): seq<Packet>
    decreases |groups|
  {
    if groups == [] then [] else Flatten(groups[..|groups| - 1]) + groups[|groups| - 1]
  }

  /** Not a reset, nor a bare ACK. */
  predicate IsSignificant(p: Packet) {
    !p.rst && (p.payloadLength > 0 || p.syn || p.fin || !p.ack)
  }

  function Significant(ps: seq<Packet>): seq<Packet>
    decreases |ps|
  {
    if ps == [] then []
    else Significant(ps[..|ps| - 1]) + if IsSignificant(ps[|ps| - 1]) then [ps[|ps| - 1]] else []
  }

  lemma {:induction false} SignificantAppend(ps: seq<Packet>, qs: seq<Packet>)
    ensures Significant(ps + qs) == Significant(ps) + Significant(qs)
    decreases |qs|
  {
    if qs == [] {
      assert ps + qs == ps;
    } else {
      assert (ps + qs)[..|ps + qs| - 1] == ps + qs[..|qs| - 1];
      SignificantAppend(ps, qs[..|qs| - 1]);
    }
  }

  /** The packets of a connection that arrived before closing. */
  function Arrivals(h: seq<Step>, id: Id): seq<Packet>
    decreases |h|
  {
    if h == [] then []
    else
      var before, s := h[..|h| - 1], h[|h| - 1];
      if s.Arrive? && s.traffic.Tcp? && s.traffic.packet.id == id && !Run(before).closed
      then Arrivals(before, id) + [s.traffic.packet]
      else Arrivals(before, id)
  }

  function Seen(w: Watch): seq<Packet> {
    Flatten(w.done) + w.open
  }

  lemma ReportingKeepsSeen(w: Watch)
    ensures Seen(Reported(w)) == Seen(w)
  {
    assert (w.done + [w.open])[..|w.done|] == w.done;
  }

  lemma WatchedSees(w: Watch, id: Id, s: Step)
    ensures Significant(Seen(Watched(w, id, s))) ==
            if s.Arrive? && s.traffic.Tcp? && s.traffic.packet.id == id && !w.shut
            then Significant(Seen(w) + [s.traffic.packet]) else Significant(Seen(w))
  {
    ReportingKeepsSeen(w);
    if s.Arrive? && s.traffic.Tcp? {
      var p := s.traffic.packet;
      assert Flatten(w.done) + (w.open + [p]) == Seen(w) + [p];
      assert (Seen(w) + [p])[..|Seen(w)|] == Seen(w);
    }
  }

  /** No packet is lost or reported twice: up to bare ACKs and resets, the groups reported and the group
      still open are, one after the other, the packets of the connection that arrived before closing. */
  lemma {:induction false} PacketsConserved(h: seq<Step>, id: Id)
    requires IsRun(h)
    ensures Significant(Seen(WatchRun(h, id))) == Significant(Arrivals(h, id))
    decreases |h|
  {
    if h == [] {
    } else {
      var before, s := h[..|h| - 1], h[|h| - 1];
      RunPrefix(h);
      PacketsConserved(before, id);
      TracksEachAlone(before, id);
      WatchedSees(WatchRun(before, id), id, s);
      if s.Arrive? && s.traffic.Tcp? {
        SignificantAppend(Seen(WatchRun(before, id)), [s.traffic.packet]);
        SignificantAppend(Arrivals(before, id), [s.traffic.packet]);
      }
    }
  }

  ghost predicate Adds(t: Tracker, s: Step, id: Id) {
    id !in t.active && id in Next(t, s).active
  }

  ghost function Added(h: seq<Step>, id: Id): nat
    decreases |h|
  {
    if h == [] then 0
    else Added(h[..|h| - 1], id) + if Adds(Run(h[..|h| - 1]), h[|h| - 1], id) then 1 else 0
  }

  /** Every entry ever added has been reported exactly once or is still active; after closing, all are reported. */
  lemma {:induction false} EntriesReportedOnce(h: seq<Step>, id: Id)
    requires IsRun(h)
    ensures Added(h, id) == |Summaries(Run(h).out, id)| + if id in Run(h).active then 1 else 0
    ensures Run(h).closed ==> Added(h, id) == |Summaries(Run(h).out, id)|
    decreases |h|
  {
    TracksEachAlone(h, id);
    if h == [] {
    } else {
      RunPrefix(h);
      EntriesReportedOnce(h[..|h| - 1], id);
      TracksEachAlone(h[..|h| - 1], id);
    }
  }

  lemma {:induction false} FlushNone(t: Tracker, order: seq<Id>)
    requires t.active == map[]
    ensures FlushAll(t, order) == t
    decreases |order|
  {
    if order == [] {
    } else {
      FlushNone(t, order[..|order| - 1]);
    }
  }

  lemma QuietStep(t: Tracker, s: Step, id: Id)
    requires t.closed && t.active == map[]
    ensures Next(t, s).closed && Summaries(Next(t, s).out, id) == Summaries(t.out, id)
  {
    match s
    case Arrive(traffic) => SummariesPush(t.out, Forwarded(traffic), id);
    case TimeOut(_) =>
    case Shut(order) => FlushNone(t, order);
  }

  /** Nothing is reported after closing, whatever timers still fire. */
  lemma {:induction false} QuietOnceClosed(h: seq<Step>, more: seq<Step>, id: Id)
    requires IsRun(h + more) && Run(h).closed
    ensures Run(h + more).closed && Summaries(Run(h + more).out, id) == Summaries(Run(h).out, id)
    decreases |more|
  {
    hide Next, Summaries, Agrees;
    if more == [] {
      assert h + more == h;
    } else {
      var all := h + more;
      var before := all[..|all| - 1];
      assert before == h + more[..|more| - 1];
      RunPrefix(all);
      QuietOnceClosed(h, more[..|more| - 1], id);
      TracksEachAlone(before, id);
      QuietStep(Run(before), all[|all| - 1], id);
    }
  }

  // ---- What is passed on, and what opens an entry ----

  function Passed(out: seq<Output>): seq<Traffic>
    decreases |out|
  {
    if out == [] then []
    else
      var o := out[|out| - 1];
      Passed(out[..|out| - 1]) + if o.Forwarded? then [o.traffic] else []
  }

  lemma PassedPush(out: seq<Output>, o: Output)
    ensures Passed(out + [o]) == if o.Forwarded? then Passed(out) + [o.traffic] else Passed(out)
  {
    assert (out + [o])[..|out|] == out;
  }

  /** What ought to be passed on: all other traffic, and the packets that came, before closing, for a connection
      with an open group. */
  function ToPass(h: seq<Step>): seq<Traffic>
    decreases |h|
  {
    if h == [] then []
    else
      var before, s := h[..|h| - 1], h[|h| - 1];
      ToPass(before) +
      match s
      case Arrive(Other(_)) => [s.traffic]
      case Arrive(Tcp(p)) =>
        if WatchRun(before, p.id).open != [] && !WatchRun(before, p.id).shut then [s.traffic] else []
      case _ => []
  }

  lemma {:induction false} FlushAllPasses(t: Tracker, order: seq<Id>)
    ensures Passed(FlushAll(t, order).out) == Passed(t.out)
    decreases |order|
  {
    if order == [] {
    } else {
      var m, id := FlushAll(t, order[..|order| - 1]), order[|order| - 1];
      FlushAllPasses(t, order[..|order| - 1]);
      if id in m.active {
        PassedPush(m.out, Summary(m.active[id]));
      }
    }
  }

  /** In every run, what is passed on is, in order and once each, all traffic other than TCP packets, even after
      closing, and just those TCP packets that came, before closing, for a connection with an open group. */
  lemma {:induction false} PassesJustTheRest(h: seq<Step>)
    requires IsRun(h)
    ensures Passed(Run(h).out) == ToPass(h)
    decreases |h|
  {
    if h == [] {
    } else {
      var before, s := h[..|h| - 1], h[|h| - 1];
      RunPrefix(h);
      PassesJustTheRest(before);
      var t := Run(before);
      match s
      case Arrive(traffic) =>
        PassedPush(t.out, Forwarded(traffic));
        if traffic.Tcp? {
          TracksEachAlone(before, traffic.packet.id);
        }
      case TimeOut(id) =>
        if id in t.active {
          PassedPush(t.out, Summary(t.active[id]));
        }
      case Shut(order) => FlushAllPasses(t.(closed := true), order);
    }
  }

  /** A packet opens an entry exactly if the tracker is not closed, the connection has none, and the packet is
      neither a reset nor a bare ACK. */
  lemma EntryOpenedExactlyWhen(h: seq<Step>, p: Packet)
    requires IsRun(h + [Arrive(Tcp(p))])
    ensures p.id !in Run(h).active && p.id in Run(h + [Arrive(Tcp(p))]).active <==>
            && !Run(h).closed && p.id !in Run(h).active
            && IsSignificant(p)
  {
    assert (h + [Arrive(Tcp(p))])[..|h|] == h;
  }

  // ---- What a summary says about its packets ----

  lemma {:induction false} SummaryEndpoints(ps: seq<Packet>)
    requires ps != []
    ensures var e, p := Summarise(ps), ps[0];
      (e.srcIp, e.srcPort, e.dstIp, e.dstPort, e.id) == (p.srcIp, p.srcPort, p.dstIp, p.dstPort, p.id)
    decreases |ps|
  {
    if |ps| == 1 {
    } else {
      SummaryEndpoints(ps[..|ps| - 1]);
    }
  }

  /** The times are the least and the greatest over all packets, even if they arrive out of order. */
  lemma {:induction false} SummaryTimes(ps: seq<Packet>)
    requires ps != []
    ensures forall i :: 0 <= i < |ps| ==> Summarise(ps).first <= ps[i].time <= Summarise(ps).last
    ensures exists i :: 0 <= i < |ps| && ps[i].time == Summarise(ps).first
    ensures exists i :: 0 <= i < |ps| && ps[i].time == Summarise(ps).last
    decreases |ps|
  {
    if |ps| == 1 {
      assert ps[0].time == Summarise(ps).first == Summarise(ps).last;
    } else {
      var before, n := ps[..|ps| - 1], |ps| - 1;
      SummaryTimes(before);
      var i :| 0 <= i < n && before[i].time == Summarise(before).first;
      var j :| 0 <= j < n && before[j].time == Summarise(before).last;
      assert ps[i] == before[i] && ps[j] == before[j];
      assert ps[if ps[n].time < before[i].time then n else i].time == Summarise(ps).first;
      assert ps[if ps[n].time > before[j].time then n else j].time == Summarise(ps).last;
      forall k | 0 <= k < |ps| ensures Summarise(ps).first <= ps[k].time <= Summarise(ps).last {
        assert k < n ==> ps[k] == before[k];
      }
    }
  }

  /** Over the packets after the first: reset if any has RST, else closed if any has FIN, else open. */
  lemma {:induction false} SummaryEndState(ps: seq<Packet>)
    requires ps != []
    ensures Summarise(ps).endState ==
            if exists i :: 1 <= i < |ps| && ps[i].rst then ConnectionReset
            else if exists i :: 1 <= i < |ps| && ps[i].fin then ConnectionClosed
            else ConnectionOpen
    decreases |ps|
  {
    if |ps| == 1 {
    } else {
      var before := ps[..|ps| - 1];
      SummaryEndState(before);
      assert forall i :: 0 <= i < |before| ==> before[i] == ps[i];
    }
  }

  ghost predicate FirstSyn(ps: seq<Packet>, k: nat) {
    1 <= k < |ps| && ps[k].syn && forall i :: 1 <= i < k ==> !ps[i].syn
  }

  /** The initiator is judged by the first packet with SYN after the first packet, if there is one. */
  lemma {:induction false} SummaryInitiator(ps: seq<Packet>, k: nat)
    requires ps != []
    ensures Summarise(ps).initiator.UnknownInitiator? <==> forall i :: 1 <= i < |ps| ==> !ps[i].syn
    ensures FirstSyn(ps, k) ==> Summarise(ps).initiator == Evidence(ps[0].srcIp, ps[0].srcPort, ps[k])
    decreases |ps|
  {
    if |ps| == 1 {
    } else {
      var before := ps[..|ps| - 1];
      SummaryInitiator(before, k);
      SummaryEndpoints(before);
      assert forall i :: 0 <= i < |before| ==> before[i] == ps[i];
      if k < |before| {
        assert FirstSyn(ps, k) ==> FirstSyn(before, k);
      }
    }
  }

  /** Once inferred, the initiator never changes. */
  lemma {:induction false} InitiatorIsFinal(ps: seq<Packet>, more: seq<Packet>)
    requires ps != [] && !Summarise(ps).initiator.UnknownInitiator?
    ensures Summarise(ps + more).initiator == Summarise(ps).initiator
    decreases |more|
  {
    if more == [] {
      assert ps + more == ps;
    } else {
      assert (ps + more)[..|ps + more| - 1] == ps + more[..|more| - 1];
      InitiatorIsFinal(ps, more[..|more| - 1]);
    }
  }

  // ---- Whose port and address the report gives as the source ----

  datatype Report = Report(
    id: Id, srcIp: Ip, srcPort: Port, dstIp: Ip, dstPort: Port,
    firstObserved: Time, lastObserved: Time, initiatorKnown: bool, endState: EndState)

  /** The connection report: the initiator, if it is known, becomes the source. */
  function ConnectionReport(e: Entry): Report {
    if e.initiator.DestInitiator?
    then Report(e.id, e.dstIp, e.dstPort, e.srcIp, e.srcPort, e.first, e.last, true, e.endState)
    else Report(e.id, e.srcIp, e.srcPort, e.dstIp, e.dstPort, e.first, e.last,
                e.initiator.SourceInitiator?, e.endState)
  }

  /** A connection, and whether its first captured packet was the client's. */
  datatype Stream = Stream(id: Id, clientIp: Ip, clientPort: Port, serverIp: Ip, serverPort: Port, clientFirst: bool)

  datatype Segment = Segment(
    fromClient: bool, time: Time, syn: bool, ack: bool, fin: bool, rst: bool, payloadLength: nat)

  /** The metadata of a captured packet: the ports are its own, but the addresses are always those of the
      stream's first packet. */
  function Accept(s: Stream, g: Segment): Packet {
    Packet(if s.clientFirst then s.clientIp else s.serverIp,
           if g.fromClient then s.clientPort else s.serverPort,
           if s.clientFirst then s.serverIp else s.clientIp,
           if g.fromClient then s.serverPort else s.clientPort,
           s.id, g.time, g.syn, g.ack, g.fin, g.rst, g.payloadLength)
  }

  function AcceptAll(s: Stream, gs: seq<Segment>): (ps: seq<Packet>)
    ensures |ps| == |gs| && forall i :: 0 <= i < |gs| ==> ps[i] == Accept(s, gs[i])
  {
    seq(|gs|, i requires 0 <= i < |gs| => Accept(s, gs[i]))
  }

  /** The client sends SYN without ACK and the server SYN with ACK (RFC 9293, section 3.5). */
  predicate Handshake(g: Segment) {
    g.syn ==> g.fromClient == !g.ack
  }

  ghost predicate Handshakes(gs: seq<Segment>) {
    forall i :: 0 <= i < |gs| ==> Handshake(gs[i])
  }

  /** Some packet with SYN comes after the first; the first of these is evidence. */
  lemma {:induction false} SomeFirstSyn(ps: seq<Packet>, n: nat) returns (k: nat)
    requires 1 <= n < |ps| && ps[n].syn
    ensures FirstSyn(ps, k)
  {
    if i :| 1 <= i < n && ps[i].syn {
      k := SomeFirstSyn(ps, i);
    } else {
      k := n;
    }
  }

  /** When the ports differ, whichever direction was seen first and in whatever order packets arrive, a
      report with a known initiator has the client's port as its source and the server's as
      its destination. Its addresses are the client's and the server's in that order exactly when the first
      packet of the entry went in the direction of the first packet of the stream, or the addresses are equal. */
  lemma ClientIsSource(s: Stream, gs: seq<Segment>)
    requires gs != [] && Handshakes(gs) && s.clientPort != s.serverPort
    ensures var r := ConnectionReport(Summarise(AcceptAll(s, gs))); r.initiatorKnown ==>
      && r.srcPort == s.clientPort && r.dstPort == s.serverPort
      && (r.srcIp == s.clientIp && r.dstIp == s.serverIp <==>
            gs[0].fromClient == s.clientFirst || s.clientIp == s.serverIp)
  {
    var ps := AcceptAll(s, gs);
    SummaryEndpoints(ps);
    SummaryInitiator(ps, 0);
    if n :| 1 <= n < |ps| && ps[n].syn {
      var k := SomeFirstSyn(ps, n);
      SummaryInitiator(ps, k);
    }
  }

  /** When the ports are equal, the directions cannot be told apart: the addresses are right exactly
      when the packet that served as evidence went in the direction of the first packet of the stream. */
  lemma EqualPortsMislead(s: Stream, gs: seq<Segment>, k: nat)
    requires gs != [] && Handshakes(gs) && s.clientPort == s.serverPort
    requires FirstSyn(AcceptAll(s, gs), k)
    ensures var r := ConnectionReport(Summarise(AcceptAll(s, gs)));
      && r.initiatorKnown
      && (r.srcIp == s.clientIp && r.dstIp == s.serverIp <==>
            gs[k].fromClient == s.clientFirst || s.clientIp == s.serverIp)
  {
    var ps := AcceptAll(s, gs);
    SummaryEndpoints(ps);
    SummaryInitiator(ps, k);
  }

  // ---- The same for the reports of a run ----

  ghost predicate Captured(s: Stream, p: Packet) {
    exists g :: Handshake(g) && p == Accept(s, g)
  }

  ghost predicate AllCaptured(s: Stream, ps: seq<Packet>) {
    forall i :: 0 <= i < |ps| ==> Captured(s, ps[i])
  }

  /** Every packet of the stream's ID is a captured packet of the stream. */
  ghost predicate TrafficOf(h: seq<Step>, s: Stream) {
    forall i :: 0 <= i < |h| && h[i].Arrive? && h[i].traffic.Tcp? && h[i].traffic.packet.id == s.id ==>
      Captured(s, h[i].traffic.packet)
  }

  lemma {:induction false} GroupsCaptured(h: seq<Step>, s: Stream)
    requires TrafficOf(h, s)
    ensures var w := WatchRun(h, s.id);
      AllCaptured(s, w.open) && forall i :: 0 <= i < |w.done| ==> AllCaptured(s, w.done[i])
    decreases |h|
  {
    if h == [] {
    } else {
      GroupsCaptured(h[..|h| - 1], s);
    }
  }

  lemma {:induction false} SegmentsOf(s: Stream, ps: seq<Packet>) returns (gs: seq<Segment>)
    requires AllCaptured(s, ps)
    ensures AcceptAll(s, gs) == ps && Handshakes(gs)
    decreases |ps|
  {
    if ps == [] {
      gs := [];
    } else {
      var n := |ps| - 1;
      gs := SegmentsOf(s, ps[..n]);
      assert Captured(s, ps[n]);
      var g :| Handshake(g) && ps[n] == Accept(s, g);
      gs := gs + [g];
    }
  }

  /** Every report of a run is the summary of segments of the stream. */
  lemma ReportedSegments(h: seq<Step>, s: Stream, k: nat) returns (gs: seq<Segment>)
    requires IsRun(h) && TrafficOf(h, s) && k < |Summaries(Run(h).out, s.id)|
    ensures gs != [] && Handshakes(gs)
    ensures Summaries(Run(h).out, s.id)[k] == Summarise(AcceptAll(s, gs))
  {
    TracksEachAlone(h, s.id);
    GroupsCaptured(h, s);
    gs := SegmentsOf(s, WatchRun(h, s.id).done[k]);
  }

  /** When the ports differ, every report of a run with a known initiator has the client's port as its source
      and the server's as its destination. Its addresses are right exactly when its entry and the stream
      began in the same direction, as the entry's own port tells, or when the addresses are equal. */
  lemma RunReportsClient(h: seq<Step>, s: Stream, k: nat)
    requires IsRun(h) && TrafficOf(h, s) && s.clientPort != s.serverPort
    requires k < |Summaries(Run(h).out, s.id)|
    ensures var e := Summaries(Run(h).out, s.id)[k]; var r := ConnectionReport(e); r.initiatorKnown ==>
      && r.srcPort == s.clientPort && r.dstPort == s.serverPort
      && (r.srcIp == s.clientIp && r.dstIp == s.serverIp <==>
            (e.srcPort == s.clientPort) == s.clientFirst || s.clientIp == s.serverIp)
  {
    hide Run, IsRun, Summaries;
    var gs := ReportedSegments(h, s, k);
    ClientIsSource(s, gs);
    SummaryEndpoints(AcceptAll(s, gs));
  }

  /** What a report says otherwise is what the summary of its packets says. */
  lemma ReportContents(ps: seq<Packet>)
    requires ps != []
    ensures var r := ConnectionReport(Summarise(ps));
      && r.id == ps[0].id
      && (forall i :: 0 <= i < |ps| ==> r.firstObserved <= ps[i].time <= r.lastObserved)
      && (exists i :: 0 <= i < |ps| && ps[i].time == r.firstObserved)
      && (exists i :: 0 <= i < |ps| && ps[i].time == r.lastObserved)
      && (r.endState.ConnectionReset? <==> exists i :: 1 <= i < |ps| && ps[i].rst)
      && (r.endState.ConnectionOpen? <==> forall i :: 1 <= i < |ps| ==> !ps[i].rst && !ps[i].fin)
      && (r.initiatorKnown <==> exists i :: 1 <= i < |ps| && ps[i].syn)
      && {(r.srcIp, r.srcPort), (r.dstIp, r.dstPort)} == {(ps[0].srcIp, ps[0].srcPort), (ps[0].dstIp, ps[0].dstPort)}
  {
    hide Summarise;
    SummaryTimes(ps);
    SummaryEndState(ps);
    SummaryEndpoints(ps);
    SummaryInitiator(ps, 0);
  }

  // ---- A run whose report is wrong ----

  lemma RunPush(h: seq<Step>, s: Step)
    ensures Run(h + [s]) == Next(Run(h), s)
  {
    assert (h + [s])[..|h|] == h;
  }

  const StrayAck := Segment(false, 0, false, true, false, false, 0)
  const Syn := Segment(true, 1, true, false, false, false, 0)
  const SynAck := Segment(false, 2, true, true, false, false, 0)

  function Arrival(s: Stream, g: Segment): Step {
    Arrive(Tcp(Accept(s, g)))
  }

  lemma EmptyRun(id: Id)
    ensures Run([]) == NewTracker && Summaries([], id) == []
  {
  }

  lemma StrayAckRun(s: Stream)
    requires s.clientPort != s.serverPort
    ensures var h := [Arrival(s, StrayAck), Arrival(s, Syn), Arrival(s, SynAck), TimeOut(s.id)];
      && IsRun(h)
      && Summaries(Run(h).out, s.id) == [NewEntry(Accept(s, Syn)).(last := 2, initiator := SourceInitiator)]
  {
    hide Run, Summaries;
    var a, b, c := Arrival(s, StrayAck), Arrival(s, Syn), Arrival(s, SynAck);
    EmptyRun(s.id);
    RunPush([], a);
    assert [] + [a] == [a] && [a] + [b] == [a, b] && [a, b] + [c] == [a, b, c];
    assert [a, b, c] + [TimeOut(s.id)] == [a, b, c, TimeOut(s.id)];
    RunPush([a], b);
    var e := NewEntry(Accept(s, Syn));
    assert Run([a, b]) == Tracker(map[s.id := e], false, []);
    RunPush([a, b], c);
    var o := Forwarded(Tcp(Accept(s, SynAck)));
    var f := e.(last := 2, initiator := SourceInitiator);
    assert Run([a, b, c]) == Tracker(map[s.id := f], false, [o]);
    RunPush([a, b, c], TimeOut(s.id));
    SummariesPush([], o, s.id);
    SummariesPush([o], Summary(f), s.id);
  }

  /** A stray ACK of the server, captured before the handshake, suffices: the tracker ignores it, but the
      report then gives the server's address with the client's port as the source. */
  lemma StrayAckSwapsAddresses(s: Stream)
    requires !s.clientFirst && s.clientPort != s.serverPort && s.clientIp != s.serverIp
    ensures var h := [Arrival(s, StrayAck), Arrival(s, Syn), Arrival(s, SynAck), TimeOut(s.id)];
      && IsRun(h) && |Summaries(Run(h).out, s.id)| == 1
      && var r := ConnectionReport(Summaries(Run(h).out, s.id)[0]);
         r.initiatorKnown && r.srcPort == s.clientPort && r.srcIp == s.serverIp && r.dstIp == s.clientIp
  {
    hide Run, IsRun, Summaries;
    StrayAckRun(s);
  }
}
