/** The daemon's per-service trace tables, and what the cloud client's main
    goroutine does to them, as functions on values. */
module CloudState {

  type ServiceId(==, !new)
  type TraceId(==, !new)
  type ClientName(==, !new)
  type Settings(==, !new)
  type TraceEvent(==, !new)

  /** Identifies a request and, with it, the response channel it carries. */
  type RequestId = nat

  /** `settings` stands for the trace name and filter flags. */
  datatype LoggingOptions = LoggingOptions(serviceId: ServiceId, traceId: TraceId, settings: Settings)

  datatype ActiveTraceDiff = ActiveTraceDiff(activated: seq<LoggingOptions>, deactivated: seq<TraceId>)

  /** A trace event channel, with the service and trace its collector goroutine was started for. */
  datatype Channel = Channel(open: bool, sid: ServiceId, tid: TraceId)

  datatype Trace = Trace(active: bool, clients: set<ClientName>, options: LoggingOptions, channel: nat)

  type Traces = map<TraceId, Trace>

  /** A client waiting for the next diff; `known` is the set of traces it registered with. */
  datatype Parked = Parked(client: ClientName, request: RequestId, known: set<TraceId>)

  datatype Service = Service(traces: Traces, parked: seq<Parked>)

  /** One service's trace table together with all trace event channels. */
  datatype Book = Book(traces: Traces, channels: seq<Channel>)

  ghost function Active(traces: Traces): set<TraceId> {
    set t | t in traces && traces[t].active
  }

  ghost function Ids(options: seq<LoggingOptions>): set<TraceId> {
    set o | o in options :: o.traceId
  }

  ghost function Elements<T(!new)>(s: seq<T>): set<T> {
    set x | x in s
  }

  /** What a receiver of a diff makes of the set it knew. */
  ghost function Apply(known: set<TraceId>, diff: ActiveTraceDiff): set<TraceId> {
    (known + Ids(diff.activated)) - Elements(diff.deactivated)
  }

  /** The service was asked for what changed since `known`. The order of the two
      lists follows the iteration order of a Go map and is not fixed. */
  ghost predicate IsTraceDiff(traces: Traces, known: set<TraceId>, diff: ActiveTraceDiff) {
    && (forall o :: o in diff.activated ==>
          o.traceId in traces && traces[o.traceId].active && o == traces[o.traceId].options)
    && Ids(diff.activated) == Active(traces) - known
    && Elements(diff.deactivated) == known - Active(traces)
    && (forall i, j :: 0 <= i < j < |diff.activated| ==> diff.activated[i].traceId != diff.activated[j].traceId)
    && (forall i, j :: 0 <= i < j < |diff.deactivated| ==> diff.deactivated[i] != diff.deactivated[j])
  }

  function Size(diff: ActiveTraceDiff): nat {
    |diff.activated| + |diff.deactivated|
  }

  // ---- Operations of the main goroutine on one service's table ----

  /** startTraceEventCollector for a registered service. */
  ghost function Activate(sid: ServiceId, b: Book, o: LoggingOptions): Book {
    if o.traceId in b.traces then
      b.(traces := b.traces[o.traceId := b.traces[o.traceId].(active := true, options := o)])
    else
      Book(b.traces[o.traceId := Trace(true, {}, o, |b.channels|)],
           b.channels + [Channel(true, sid, o.traceId)])
  }

  ghost function ActivateAll(sid: ServiceId, b: Book, os: seq<LoggingOptions>): Book
    decreases |os|
  {
    if os == [] then b else Activate(sid, ActivateAll(sid, b, os[..|os| - 1]), os[|os| - 1])
  }

  /** unregisterTrace for a registered service. */
  ghost function Retire(b: Book, t: TraceId): Book {
    if t in b.traces && !b.traces[t].active && b.traces[t].clients == {} && b.traces[t].channel < |b.channels| then
      Book(b.traces - {t},
           b.channels[b.traces[t].channel := b.channels[b.traces[t].channel].(open := false)])
    else
      b
  }

  ghost function Deactivate(b: Book, t: TraceId): Book {
    if t in b.traces then
      Retire(b.(traces := b.traces[t := b.traces[t].(active := false)]), t)
    else
      b
  }

  ghost function DeactivateAll(b: Book, ts: seq<TraceId>): Book
    decreases |ts|
  {
    if ts == [] then b else Deactivate(DeactivateAll(b, ts[..|ts| - 1]), ts[|ts| - 1])
  }

  ghost function AddClient(traces: Traces, client: ClientName, t: TraceId): Traces {
    if t in traces then traces[t := traces[t].(clients := traces[t].clients + {client})] else traces
  }

  ghost function Enroll(traces: Traces, client: ClientName, os: seq<LoggingOptions>): Traces
    decreases |os|
  {
    if os == [] then traces else AddClient(Enroll(traces, client, os[..|os| - 1]), client, os[|os| - 1].traceId)
  }

  ghost function EnrollAll(traces: Traces, waiting: seq<Parked>, os: seq<LoggingOptions>): Traces
    decreases |waiting|
  {
    if waiting == [] then traces
    else Enroll(EnrollAll(traces, waiting[..|waiting| - 1], os), waiting[|waiting| - 1].client, os)
  }

  ghost function Leave(b: Book, client: ClientName, t: TraceId): Book {
    if t in b.traces then
      Retire(b.(traces := b.traces[t := b.traces[t].(clients := b.traces[t].clients - {client})]), t)
    else
      b
  }

  // ---- What every operation keeps ----

  ghost predicate OwnsChannel(sid: ServiceId, b: Book, t: TraceId)
    requires t in b.traces
  {
    && b.traces[t].channel < |b.channels|
    && b.channels[b.traces[t].channel] == Channel(true, sid, t)
  }

  /** Table and channels agree: a trace of the service has its own open channel,
      an open channel of the service belongs to a trace in the table, every
      retained trace is active or has a client, and is filed under its own ID. */
  ghost predicate TableInv(sid: ServiceId, b: Book) {
    && (forall t :: t in b.traces ==> OwnsChannel(sid, b, t))
    && (forall c :: 0 <= c < |b.channels| && b.channels[c].open && b.channels[c].sid == sid ==>
          b.channels[c].tid in b.traces && b.traces[b.channels[c].tid].channel == c)
    && (forall t :: t in b.traces ==> b.traces[t].active || b.traces[t].clients != {})
    && (forall t :: t in b.traces ==> b.traces[t].options.traceId == t)
  }

  /** The table changed from `b` to `c`: channels are only ever appended, or closed
      once, and only those of this service; a trace with clients is retained. */
  ghost predicate Evolves(sid: ServiceId, b: Book, c: Book) {
    && |b.channels| <= |c.channels|
    && (forall k :: 0 <= k < |b.channels| ==>
          c.channels[k] == b.channels[k]
          || (b.channels[k] == Channel(true, sid, b.channels[k].tid) && c.channels[k] == b.channels[k].(open := false)))
    && (forall k :: |b.channels| <= k < |c.channels| ==> c.channels[k].sid == sid)
    && (forall t :: t in b.traces && b.traces[t].clients != {} ==>
          t in c.traces && c.traces[t].channel == b.traces[t].channel && b.traces[t].clients <= c.traces[t].clients)
    && (TableInv(sid, b) ==> TableInv(sid, c))
  }

  lemma EvolvesTrans(sid: ServiceId, b: Book, c: Book, d: Book)
    requires Evolves(sid, b, c) && Evolves(sid, c, d)
    ensures Evolves(sid, b, d)
  {
    forall t | t in b.traces && b.traces[t].clients != {}
      ensures t in d.traces && d.traces[t].channel == b.traces[t].channel && b.traces[t].clients <= d.traces[t].clients
    {
      assert c.traces[t].clients != {};
    }
  }

  lemma ActivateStep(sid: ServiceId, b: Book, o: LoggingOptions)
    ensures Evolves(sid, b, Activate(sid, b, o))
    ensures Active(Activate(sid, b, o).traces) == Active(b.traces) + {o.traceId}
  {
  }

  lemma RetireStep(sid: ServiceId, b: Book, t: TraceId)
    requires t in b.traces ==> OwnsChannel(sid, b, t)
    ensures var c := Retire(b, t);
      && |b.channels| == |c.channels|
      && (forall k :: 0 <= k < |b.channels| ==>
            c.channels[k] == b.channels[k]
            || (b.channels[k] == Channel(true, sid, t) && c.channels[k] == b.channels[k].(open := false)))
    ensures Active(Retire(b, t).traces) == Active(b.traces)
  {
  }

  lemma DeactivateEvolves(sid: ServiceId, b: Book, t: TraceId)
    requires TableInv(sid, b)
    ensures Evolves(sid, b, Deactivate(b, t))
  {
    if t in b.traces {
      assert OwnsChannel(sid, b, t);
      RetireStep(sid, b.(traces := b.traces[t := b.traces[t].(active := false)]), t);
    }
  }

  lemma DeactivateStep(sid: ServiceId, b: Book, t: TraceId)
    requires TableInv(sid, b)
    ensures Evolves(sid, b, Deactivate(b, t))
    ensures Active(Deactivate(b, t).traces) == Active(b.traces) - {t}
  {
    DeactivateEvolves(sid, b, t);
    if t in b.traces {
      assert OwnsChannel(sid, b, t);
      hide Evolves, Retire, TableInv;
      var m := b.(traces := b.traces[t := b.traces[t].(active := false)]);
      assert OwnsChannel(sid, m, t);
      RetireStep(sid, m, t);
      assert Active(m.traces) == Active(b.traces) - {t};
    }
  }

  lemma AddClientStep(sid: ServiceId, b: Book, client: ClientName, t: TraceId)
    ensures Evolves(sid, b, b.(traces := AddClient(b.traces, client, t)))
    ensures Active(AddClient(b.traces, client, t)) == Active(b.traces)
  {
    var c := b.(traces := AddClient(b.traces, client, t));
    forall u | u in b.traces && OwnsChannel(sid, b, u) ensures OwnsChannel(sid, c, u) {
    }
  }

  lemma {:induction false} ActivateAllSteps(sid: ServiceId, b: Book, os: seq<LoggingOptions>)
    ensures Evolves(sid, b, ActivateAll(sid, b, os))
    ensures Active(ActivateAll(sid, b, os).traces) == Active(b.traces) + Ids(os)
    decreases |os|
  {
    if os == [] {
    } else {
      var n := |os| - 1;
      ActivateAllSteps(sid, b, os[..n]);
      var m := ActivateAll(sid, b, os[..n]);
      ActivateStep(sid, m, os[n]);
      EvolvesTrans(sid, b, m, Activate(sid, m, os[n]));
      assert os == os[..n] + [os[n]];
      assert Ids(os) == Ids(os[..n]) + {os[n].traceId};
    }
  }

  lemma {:induction false} DeactivateAllSteps(sid: ServiceId, b: Book, ts: seq<TraceId>)
    requires TableInv(sid, b)
    ensures Evolves(sid, b, DeactivateAll(b, ts))
    ensures Active(DeactivateAll(b, ts).traces) == Active(b.traces) - Elements(ts)
    decreases |ts|
  {
    if ts == [] {
    } else {
      var n := |ts| - 1;
      DeactivateAllSteps(sid, b, ts[..n]);
      var m := DeactivateAll(b, ts[..n]);
      DeactivateStep(sid, m, ts[n]);
      EvolvesTrans(sid, b, m, Deactivate(m, ts[n]));
      assert ts == ts[..n] + [ts[n]];
      assert Elements(ts) == Elements(ts[..n]) + {ts[n]};
    }
  }

  lemma {:induction false} EnrollSteps(sid: ServiceId, b: Book, client: ClientName, os: seq<LoggingOptions>)
    ensures Evolves(sid, b, b.(traces := Enroll(b.traces, client, os)))
    ensures Active(Enroll(b.traces, client, os)) == Active(b.traces)
    ensures Enroll(b.traces, client, os).Keys == b.traces.Keys
    ensures forall t :: t in Ids(os) && t in b.traces ==> client in Enroll(b.traces, client, os)[t].clients
    decreases |os|
  {
    if os == [] {
    } else {
      var n := |os| - 1;
      EnrollSteps(sid, b, client, os[..n]);
      var m := b.(traces := Enroll(b.traces, client, os[..n]));
      AddClientStep(sid, m, client, os[n].traceId);
      EvolvesTrans(sid, b, m, b.(traces := AddClient(m.traces, client, os[n].traceId)));
      assert os == os[..n] + [os[n]];
      assert Ids(os) == Ids(os[..n]) + {os[n].traceId};
    }
  }

  lemma {:induction false} EnrollAllSteps(sid: ServiceId, b: Book, waiting: seq<Parked>, os: seq<LoggingOptions>)
    ensures Evolves(sid, b, b.(traces := EnrollAll(b.traces, waiting, os)))
    ensures Active(EnrollAll(b.traces, waiting, os)) == Active(b.traces)
    ensures EnrollAll(b.traces, waiting, os).Keys == b.traces.Keys
    ensures forall i, t :: 0 <= i < |waiting| && t in Ids(os) && t in b.traces ==>
              waiting[i].client in EnrollAll(b.traces, waiting, os)[t].clients
    decreases |waiting|
  {
    if waiting == [] {
    } else {
      var n := |waiting| - 1;
      EnrollAllSteps(sid, b, waiting[..n], os);
      var m := b.(traces := EnrollAll(b.traces, waiting[..n], os));
      EnrollSteps(sid, m, waiting[n].client, os);
      var r := b.(traces := Enroll(m.traces, waiting[n].client, os));
      EvolvesTrans(sid, b, m, r);
      forall i, t | 0 <= i < |waiting| && t in Ids(os) && t in b.traces
        ensures waiting[i].client in r.traces[t].clients
      {
        if i < n {
          assert waiting[..n][i] == waiting[i];
          assert m.traces[t].clients != {};
        }
      }
    }
  }

  /** Applying the answer to a registration gives the service's active set. */
  lemma DiffReconciles(traces: Traces, known: set<TraceId>, diff: ActiveTraceDiff)
    requires IsTraceDiff(traces, known, diff)
    ensures Apply(known, diff) == Active(traces)
    ensures Size(diff) == 0 <==> known == Active(traces)
  {
    if Size(diff) != 0 {
      if diff.activated != [] {
        assert diff.activated[0].traceId in Ids(diff.activated);
      } else {
        assert diff.deactivated[0] in Elements(diff.deactivated);
      }
    }
  }
}
