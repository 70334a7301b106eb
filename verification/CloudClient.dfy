/** The cloud client's records and handlers, updating them in place. Each handler
    does to the state exactly what the step system says. */
module CloudClientImpl {
  import opened CloudState
  import opened CloudProtocol
  import opened CloudInvariants
  import opened CloudUploads
  import opened Counting

  class TraceInfo {
    var active: bool
    var clientNames: set<ClientName>
    var loggingOptions: LoggingOptions
    const traceEventChannel: nat

    // The one entry of the client's maps that holds this record.
    ghost const home: (ServiceId, TraceId)

    ghost function View(): Trace
      reads this
    {
      Trace(active, clientNames, loggingOptions, traceEventChannel)
    }

    constructor (loggingOptions: LoggingOptions, traceEventChannel: nat, ghost home: (ServiceId, TraceId))
      ensures View() == Trace(true, {}, loggingOptions, traceEventChannel) && this.home == home
    {
      this.home := home;
      this.active := true;
      this.clientNames := {};
      this.loggingOptions := loggingOptions;
      this.traceEventChannel := traceEventChannel;
    }
  }

  class ServiceInfo {
    var traces: map<TraceId, TraceInfo>
    var responseChannels: seq<Parked>

    ghost const home: ServiceId

    constructor (ghost home: ServiceId)
      ensures traces == map[] && responseChannels == [] && this.home == home
    {
      this.home := home;
      traces := map[];
      responseChannels := [];
    }

    ghost function Table(): Traces
      reads this, traces.Values
    {
      map t | t in traces :: traces[t].View()
    }

    ghost function View(): Service
      reads this, traces.Values
    {
      Service(Table(), responseChannels)
    }

    /** A record that was not written, nor any of its traces, looks the same. */
    twostate lemma Unwritten()
      requires unchanged(this) && forall t :: t in old(traces) ==> unchanged(traces[t])
      ensures View() == old(View())
    {
      forall t | t in traces ensures traces[t].View() == old(traces[t].View()) {
        assert unchanged(traces[t]);
      }
      assert Table() == old(Table());
    }

    /** The diff that takes a holder of `known` to the active set, in the order the map
        iterations produce, and the records of the activated traces. */
    method GetActiveTraceDiff(known: set<TraceId>) returns (diff: ActiveTraceDiff, activatedInfo: seq<TraceInfo>)
      requires forall t :: t in Table() ==> Table()[t].options.traceId == t
      ensures IsTraceDiff(Table(), known, diff)
      ensures |activatedInfo| == |diff.activated|
      ensures forall i :: 0 <= i < |activatedInfo| ==>
                diff.activated[i].traceId in traces && activatedInfo[i] == traces[diff.activated[i].traceId]
    {
      var activated: seq<LoggingOptions> := [];
      activatedInfo := [];
      var todo := traces.Keys;
      while todo != {}
        invariant todo <= traces.Keys
        invariant |activated| == |activatedInfo|
        invariant forall i :: 0 <= i < |activated| ==>
                    var t := activated[i].traceId;
                    && t in traces && t !in todo && t !in known && traces[t].active
                    && activated[i] == traces[t].loggingOptions && activatedInfo[i] == traces[t]
        invariant forall i, j :: 0 <= i < j < |activated| ==> activated[i].traceId != activated[j].traceId
        invariant forall t :: t in traces && t !in todo && traces[t].active && t !in known ==> t in Ids(activated)
        decreases todo
      {
        var traceID :| traceID in todo;
        todo := todo - {traceID};
        var traceInfo := traces[traceID];
        assert Table()[traceID] == traceInfo.View();
        if !traceInfo.active {
          continue;
        }
        if traceID !in known {
          assert Ids(activated + [traceInfo.loggingOptions]) == Ids(activated) + {traceID};
          activated := activated + [traceInfo.loggingOptions];
          activatedInfo := activatedInfo + [traceInfo];
        }
      }

      var deactivated: seq<TraceId> := [];
      var left := known;
      while left != {}
        invariant left <= known
        invariant forall i :: 0 <= i < |deactivated| ==>
                    deactivated[i] in known && deactivated[i] !in left && deactivated[i] !in Active(Table())
        invariant forall i, j :: 0 <= i < j < |deactivated| ==> deactivated[i] != deactivated[j]
        invariant forall t :: t in known && t !in left && t !in Active(Table()) ==> t in Elements(deactivated)
        decreases left
      {
        var traceID :| traceID in left;
        left := left - {traceID};
        if traceID !in traces || !traces[traceID].active {
          assert Elements(deactivated + [traceID]) == Elements(deactivated) + {traceID};
          deactivated := deactivated + [traceID];
        }
      }
      diff := ActiveTraceDiff(activated, deactivated);
    }
  }

  method ToSet(known: seq<TraceId>) returns (r: set<TraceId>)
    ensures r == Elements(known)
  {
    r := {};
    for i := 0 to |known|
      invariant r == Elements(known[..i])
    {
      assert known[..i + 1] == known[..i] + [known[i]];
      r := r + {known[i]};
    }
    assert known[..|known|] == known;
  }

  class CloudClient {
    var serviceInfoByID: map<ServiceId, ServiceInfo>
    var eventChannel: seq<Event>

    // The goroutines in flight, the channels made for collectors, and the answers sent to clients.
    var channels: seq<Channel>
    var pollers: seq<Poller>
    var uploaders: seq<Uploader>
    var answers: seq<Answer>

    ghost var Repr: set<object>

    /** No two entries share a record. */
    ghost predicate Valid()
      reads this, Repr
    {
      && this in Repr
      && (forall s :: s in serviceInfoByID ==>
            && serviceInfoByID[s] in Repr
            && serviceInfoByID[s].traces.Values <= Repr)
      && (forall s :: s in serviceInfoByID ==> serviceInfoByID[s].home == s)
      && (forall s, t :: s in serviceInfoByID && t in serviceInfoByID[s].traces ==>
            serviceInfoByID[s].traces[t].home == (s, t))
    }

    ghost function Services(): map<ServiceId, Service>
      requires Valid()
      reads this, Repr
    {
      map s | s in serviceInfoByID :: serviceInfoByID[s].View()
    }

    ghost function View(): State
      requires Valid()
      reads this, Repr
    {
      State(Services(), eventChannel, channels, pollers, uploaders, answers)
    }

    constructor ()
      ensures Valid() && fresh(Repr)
      ensures View() == Start
    {
      serviceInfoByID := map[];
      eventChannel, channels, pollers, uploaders, answers := [], [], [], [], [];
      Repr := {this};
    }

    /** Outside one service, no record was written; nor, then, the record of another or any of its traces. */
    twostate lemma OtherUnwritten(at: (ServiceId, ServiceId))
      requires old(Valid()) && Valid() && serviceInfoByID == old(serviceInfoByID)
      requires at.0 in serviceInfoByID && at.1 in serviceInfoByID && at.0 != at.1
      requires forall o: object :: (o in old(Repr) && o != this && o != serviceInfoByID[at.0]
                                    && o !in old(serviceInfoByID[at.0].traces.Values)) ==> unchanged(o)
      ensures serviceInfoByID[at.1].View() == old(serviceInfoByID[at.1].View())
    {
      var service := serviceInfoByID[at.1];
      var o: object := service;
      assert o in old(Repr) && o !in old(serviceInfoByID[at.0].traces.Values);
      assert unchanged(o);
      forall t | t in old(service.traces) ensures unchanged(old(service.traces[t])) {
        var q: object := old(service.traces[t]);
        assert q in old(service.traces.Values);
        assert q in old(Repr);
      }
      service.Unwritten();
    }

    /** Only the record of one service, and its trace records, were written. */
    twostate lemma ServiceWritten(sid: ServiceId)
      requires old(Valid()) && Valid() && serviceInfoByID == old(serviceInfoByID)
      requires sid in serviceInfoByID
      requires forall o: object :: (o in old(Repr) && o != this && o != serviceInfoByID[sid]
                                    && o !in old(serviceInfoByID[sid].traces.Values)) ==> unchanged(o)
      ensures Services() == old(Services())[sid := serviceInfoByID[sid].View()]
    {
      forall s | s in serviceInfoByID && s != sid ensures serviceInfoByID[s].View() == old(serviceInfoByID[s].View()) {
        OtherUnwritten((sid, s));
      }
    }

    /** Exactly one trace record was written. */
    twostate lemma TraceWritten(at: (ServiceId, TraceId))
      requires old(Valid())
      requires old(at.0 in serviceInfoByID && at.1 in serviceInfoByID[at.0].traces)
      requires forall o: object :: o in old(Repr) && o != old(serviceInfoByID[at.0].traces[at.1]) ==> unchanged(o)
      ensures Valid()
      ensures KnowsTrace(old(View()), at.0, at.1)
      ensures View() == WithBook(old(View()), at.0,
                Book(old(View()).services[at.0].traces[at.1 := serviceInfoByID[at.0].traces[at.1].View()], channels))
    {
      var (sid, tid) := at;
      var self: object := this;
      assert self in old(Repr);
      forall s | s in serviceInfoByID ensures unchanged(serviceInfoByID[s]) {
        var o: object := serviceInfoByID[s];
        assert o in Repr;
        assert o != old(serviceInfoByID[sid].traces[tid]);
        assert unchanged(o);
      }
      ServiceWritten(sid);
      var service := serviceInfoByID[sid];
      forall t | t in service.traces && t != tid ensures service.traces[t].View() == old(service.traces[t].View()) {
        var o: object := service.traces[t];
        assert o in Repr;
      }
      assert service.Table() == old(service.Table())[tid := service.traces[tid].View()];
    }

    method GetInfo(sid: ServiceId, tid: TraceId) returns (serviceInfo: ServiceInfo?, traceInfo: TraceInfo?)
      requires Valid()
      ensures serviceInfo == if sid in serviceInfoByID then serviceInfoByID[sid] else null
      ensures traceInfo == if KnowsTrace(View(), sid, tid) then serviceInfoByID[sid].traces[tid] else null
    {
      if sid !in serviceInfoByID {
        return null, null;
      }
      serviceInfo := serviceInfoByID[sid];
      if tid !in serviceInfo.traces {
        return serviceInfo, null;
      }
      traceInfo := serviceInfo.traces[tid];
    }

    /** A service without traces was added, and no record written. */
    twostate lemma ServiceAdded(new serviceInfo: ServiceInfo)
      requires old(Valid()) && serviceInfo.home !in old(serviceInfoByID) && serviceInfo.traces == map[]
      requires serviceInfoByID == old(serviceInfoByID)[serviceInfo.home := serviceInfo]
      requires Repr == old(Repr) + {serviceInfo}
      requires forall o: object :: o in old(Repr) && o != this ==> unchanged(o)
      ensures Valid()
      ensures Services() == old(Services())[serviceInfo.home := serviceInfo.View()]
    {
      forall s | s in old(serviceInfoByID) ensures serviceInfoByID[s].View() == old(serviceInfoByID[s].View()) {
        var service := serviceInfoByID[s];
        var o: object := service;
        assert o in old(Repr);
        forall t | t in old(service.traces) ensures unchanged(old(service.traces[t])) {
          var q: object := old(service.traces[t]);
          assert q in old(service.traces.Values);
          assert q in old(Repr);
        }
        service.Unwritten();
      }
    }

    method AddService(sid: ServiceId) returns (serviceInfo: ServiceInfo)
      requires Valid() && sid !in serviceInfoByID
      modifies this`serviceInfoByID, this`Repr
      ensures Valid() && fresh(Repr - old(Repr))
      ensures View() == old(View()).(services := old(Services())[sid := Service(map[], [])])
      ensures sid in serviceInfoByID && serviceInfo == serviceInfoByID[sid]
    {
      serviceInfo := new ServiceInfo(sid);
      serviceInfoByID := serviceInfoByID[sid := serviceInfo];
      Repr := Repr + {serviceInfo};
      ServiceAdded(serviceInfo);
      assert serviceInfo.View() == Service(map[], []);
    }

    method Post(event: Event)
      requires Valid()
      modifies this`eventChannel
      ensures Valid()
      ensures View() == old(View()).(queue := old(eventChannel) + [event])
    {
      eventChannel := eventChannel + [event];
      assert Services() == old(Services());
    }

    method EnsureServiceRegistered(sid: ServiceId) returns (serviceInfo: ServiceInfo)
      requires Valid()
      modifies this
      ensures Valid() && fresh(Repr - old(Repr))
      ensures View() == EnsureRegistered(old(View()), sid)
      ensures sid in serviceInfoByID && serviceInfo == serviceInfoByID[sid]
    {
      if sid in serviceInfoByID {
        return serviceInfoByID[sid];
      }
      serviceInfo := AddService(sid);
      Post(LongPoll(sid));
    }

    method GetCurrentTraces(sid: ServiceId) returns (result: seq<TraceId>)
      requires Valid() && sid in serviceInfoByID
      ensures Elements(result) == Active(View().services[sid].traces)
      ensures forall i, j :: 0 <= i < j < |result| ==> result[i] != result[j]
    {
      result := [];
      var serviceInfo := serviceInfoByID[sid];
      var todo := serviceInfo.traces.Keys;
      while todo != {}
        invariant todo <= serviceInfo.traces.Keys
        invariant Elements(result) == set t | t in serviceInfo.traces && t !in todo && serviceInfo.traces[t].active
        invariant forall i, j :: 0 <= i < j < |result| ==> result[i] != result[j]
        decreases todo
      {
        var traceID :| traceID in todo;
        todo := todo - {traceID};
        if serviceInfo.traces[traceID].active {
          assert Elements(result + [traceID]) == Elements(result) + {traceID};
          assert forall i :: 0 <= i < |result| ==> result[i] in Elements(result);
          result := result + [traceID];
        }
      }
    }

    /** What activating a trace that is not in the table amounts to. */
    static lemma ActivateNew(s: State, sid: ServiceId, o: LoggingOptions)
      requires sid in s.services && o.traceId !in s.services[sid].traces
      ensures var m := s.(channels := s.channels + [Channel(true, sid, o.traceId)]);
        WithBook(s, sid, Activate(sid, BookOf(s, sid), o)) ==
        WithBook(m, sid, Book(s.services[sid].traces[o.traceId := Trace(true, {}, o, |s.channels|)], m.channels))
    {
    }

    /** The channel of a new collector goroutine, and the record of its trace. */
    method MakeCollector(sid: ServiceId, loggingOptions: LoggingOptions) returns (traceInfo: TraceInfo)
      requires Valid()
      modifies this`channels, this`Repr
      ensures Valid() && fresh(Repr - old(Repr)) && fresh(traceInfo) && traceInfo in Repr
      ensures traceInfo.home == (sid, loggingOptions.traceId)
      ensures traceInfo.View() == Trace(true, {}, loggingOptions, |old(channels)|)
      ensures View() == old(View()).(channels := old(channels) + [Channel(true, sid, loggingOptions.traceId)])
    {
      traceInfo := new TraceInfo(loggingOptions, |channels|, (sid, loggingOptions.traceId));
      channels := channels + [Channel(true, sid, loggingOptions.traceId)];
      Repr := Repr + {traceInfo};
      assert Services() == old(Services());
    }

    /** Puts the record of a trace in the table of its service. */
    method InsertTrace(sid: ServiceId, tid: TraceId, traceInfo: TraceInfo)
      requires Valid() && sid in serviceInfoByID && traceInfo in Repr && traceInfo.home == (sid, tid)
      modifies serviceInfoByID[sid]
      ensures Valid()
      ensures View() == WithBook(old(View()), sid,
                Book(old(View()).services[sid].traces[tid := traceInfo.View()], channels))
    {
      var serviceInfo := serviceInfoByID[sid];
      serviceInfo.traces := serviceInfo.traces[tid := traceInfo];
      ServiceWritten(sid);
      assert serviceInfo.Table() == old(serviceInfo.Table())[tid := traceInfo.View()];
    }

    /** Starts a collector goroutine for a newly discovered trace. */
    method AddTrace(sid: ServiceId, loggingOptions: LoggingOptions)
      requires Valid() && sid in serviceInfoByID
      requires sid in View().services && loggingOptions.traceId !in View().services[sid].traces
      modifies this, serviceInfoByID[sid]
      ensures Valid() && fresh(Repr - old(Repr)) && serviceInfoByID == old(serviceInfoByID)
      ensures View() == WithBook(old(View()), sid, Activate(sid, BookOf(old(View()), sid), loggingOptions))
    {
      ActivateNew(View(), sid, loggingOptions);
      hide Valid, Services, WithBook, BookOf, Activate;
      var traceInfo := MakeCollector(sid, loggingOptions);
      InsertTrace(sid, loggingOptions.traceId, traceInfo);
    }

    method StartTraceEventCollector(sid: ServiceId, options: LoggingOptions)
      requires Valid()
      modifies Repr
      ensures Valid() && fresh(Repr - old(Repr)) && serviceInfoByID == old(serviceInfoByID)
      ensures sid !in old(View()).services ==> View() == old(View())
      ensures sid in old(View()).services ==>
                View() == WithBook(old(View()), sid, Activate(sid, BookOf(old(View()), sid), options))
    {
      var serviceInfo, traceInfo := GetInfo(sid, options.traceId);
      if serviceInfo == null {
        return;
      }
      if traceInfo != null {
        // Reactivate the trace and update its logging options.
        traceInfo.active := true;
        traceInfo.loggingOptions := options;
        TraceWritten((sid, options.traceId));
      } else {
        assert serviceInfo.View() == View().services[sid];
        AddTrace(sid, options);
      }
    }

    /** A channel can be closed only once: closing a closed one panics. */
    method Close(channel: nat)
      requires Valid()
      requires channel < |channels| && channels[channel].open
      modifies this`channels
      ensures Valid()
      ensures View() == old(View()).(channels := old(channels)[channel := old(channels)[channel].(open := false)])
    {
      channels := channels[channel := channels[channel].(open := false)];
      assert Services() == old(Services());
    }

    method Send(answer: Answer)
      requires Valid()
      modifies this`answers
      ensures Valid()
      ensures View() == old(View()).(answers := old(answers) + [answer])
    {
      answers := answers + [answer];
      assert Services() == old(Services());
    }

    method StartUploader(uploader: Uploader)
      requires Valid()
      modifies this`uploaders
      ensures Valid()
      ensures View() == old(View()).(uploaders := old(uploaders) + [uploader])
    {
      uploaders := uploaders + [uploader];
      assert Services() == old(Services());
    }

    method StartPoller(poller: Poller)
      requires Valid()
      modifies this`pollers
      ensures Valid()
      ensures View() == old(View()).(pollers := old(pollers) + [poller])
    {
      pollers := pollers + [poller];
      assert Services() == old(Services());
    }

    /** Deletes the entry of a trace from the table of its service. */
    method DeleteTrace(sid: ServiceId, tid: TraceId)
      requires Valid() && sid in serviceInfoByID
      modifies serviceInfoByID[sid]
      ensures Valid()
      ensures View() == WithBook(old(View()), sid, Book(old(View()).services[sid].traces - {tid}, channels))
    {
      var serviceInfo := serviceInfoByID[sid];
      serviceInfo.traces := serviceInfo.traces - {tid};
      ServiceWritten(sid);
      assert serviceInfo.Table() == old(serviceInfo.Table()) - {tid};
    }

    method CloseAndDelete(sid: ServiceId, tid: TraceId, channel: nat)
      requires Valid() && sid in serviceInfoByID && channel < |channels| && channels[channel].open
      modifies this`channels, serviceInfoByID[sid]
      ensures Valid()
      ensures View() == WithBook(old(View()), sid,
                Book(old(View()).services[sid].traces - {tid},
                     old(channels)[channel := old(channels)[channel].(open := false)]))
    {
      hide Valid, Services;
      Close(channel);
      DeleteTrace(sid, tid);
    }

    /** Rewriting a service's table twice leaves the last one. */
    static lemma LastBook(s: State, sid: ServiceId, b: Book, c: Book)
      requires sid in s.services
      ensures WithBook(WithBook(s, sid, b), sid, c) == WithBook(s, sid, c)
      ensures BookOf(WithBook(s, sid, b), sid) == b
      ensures WithBook(s, sid, BookOf(s, sid)) == s
    {
      assert s.services[sid := s.services[sid]] == s.services;
    }

    /** What retiring a trace amounts to. */
    static lemma RetireCases(s: State, sid: ServiceId, tid: TraceId)
      requires KnowsTrace(s, sid, tid) ==> OwnsChannel(sid, BookOf(s, sid), tid)
      ensures sid in s.services ==>
                var b := BookOf(s, sid);
                if tid in b.traces && !b.traces[tid].active && b.traces[tid].clients == {} then
                  && b.traces[tid].channel < |b.channels| && b.channels[b.traces[tid].channel].open
                  && Retire(b, tid) ==
                     Book(b.traces - {tid},
                          b.channels[b.traces[tid].channel := b.channels[b.traces[tid].channel].(open := false)])
                else
                  WithBook(s, sid, Retire(b, tid)) == s
    {
      if sid in s.services {
        LastBook(s, sid, BookOf(s, sid), BookOf(s, sid));
      }
    }

    method UnregisterTrace(sid: ServiceId, tid: TraceId)
      requires Valid()
      requires KnowsTrace(View(), sid, tid) ==> OwnsChannel(sid, BookOf(View(), sid), tid)
      modifies Repr
      ensures Valid() && Repr == old(Repr) && serviceInfoByID == old(serviceInfoByID)
      ensures View() ==
              if sid in old(View()).services
              then WithBook(old(View()), sid, Retire(BookOf(old(View()), sid), tid))
              else old(View())
    {
      var serviceInfo, traceInfo := GetInfo(sid, tid);
      ghost var v := View();
      assert this in Repr && (serviceInfo != null ==> serviceInfo in Repr);
      assert traceInfo != null ==> traceInfo.View() == v.services[sid].traces[tid];
      RetireCases(v, sid, tid);
      hide Valid, Services, Retire, OwnsChannel;
      if serviceInfo != null && traceInfo != null && !traceInfo.active && |traceInfo.clientNames| == 0 {
        CloseAndDelete(sid, tid, traceInfo.traceEventChannel);
      }
    }

    /** Adds a client to those a trace expects events from. */
    method AddClientName(sid: ServiceId, tid: TraceId, client: ClientName)
      requires Valid() && KnowsTrace(View(), sid, tid)
      modifies serviceInfoByID[sid].traces[tid]
      ensures Valid()
      ensures View() == WithBook(old(View()), sid,
                Book(AddClient(old(View()).services[sid].traces, client, tid), channels))
    {
      var traceInfo := serviceInfoByID[sid].traces[tid];
      traceInfo.clientNames := traceInfo.clientNames + {client};
      TraceWritten((sid, tid));
    }

    method SetResponseChannels(sid: ServiceId, responseChannels: seq<Parked>)
      requires Valid() && sid in serviceInfoByID
      modifies serviceInfoByID[sid]
      ensures Valid()
      ensures View() == old(View()).(services := old(View()).services[sid :=
                old(View()).services[sid].(parked := responseChannels)])
    {
      serviceInfoByID[sid].responseChannels := responseChannels;
      ServiceWritten(sid);
      assert serviceInfoByID[sid].Table() == old(serviceInfoByID[sid].Table());
    }

    // ---- The handlers, in the main goroutine ----

    method HandleLongPoll(sid: ServiceId)
      requires Valid() && sid in serviceInfoByID
      modifies this
      ensures Valid() && Repr == old(Repr)
      ensures View() == CloudProtocol.HandleLongPoll(old(View()), sid)
    {
      var currentTraces := GetCurrentTraces(sid);
      StartPoller(Poller(sid, set t | t in currentTraces));
    }

    static lemma RegisterCases(s: State, request: RequestId, client: ClientName, sid: ServiceId, known: seq<TraceId>,
                               diff: ActiveTraceDiff)
      requires sid in s.services
      ensures HandleRegister(s, request, client, sid, known, diff) ==
              if Size(diff) != 0 then
                WithBook(s, sid, Book(EnrollActivated(s.services[sid].traces, client, diff), s.channels))
                .(answers := s.answers + [TracesAnswer(request, diff)])
              else
                s.(services := s.services[sid :=
                     s.services[sid].(parked := s.services[sid].parked + [Parked(client, request, Elements(known))])])
    {
    }

    /** One more pass of the loop over the activated traces. */
    static lemma EnrollNext(s: State, sid: ServiceId, client: ClientName, os: seq<LoggingOptions>, i: nat)
      requires sid in s.services && i < |os|
      ensures var traces := s.services[sid].traces;
        && Enroll(traces, client, os[..i]).Keys == traces.Keys
        && WithBook(s, sid, Book(Enroll(traces, client, os[..i + 1]), s.channels))
           == WithBook(WithBook(s, sid, Book(Enroll(traces, client, os[..i]), s.channels)), sid,
                       Book(AddClient(Enroll(traces, client, os[..i]), client, os[i].traceId), s.channels))
    {
      EnrollSteps(sid, BookOf(s, sid), client, os[..i]);
      assert os[..i + 1][..i] == os[..i];
    }

    /** Registers a client with the traces it is told are active. */
    method RegisterClient(sid: ServiceId, client: ClientName, diff: ActiveTraceDiff, activatedInfo: seq<TraceInfo>)
      requires Valid() && sid in serviceInfoByID
      requires |activatedInfo| == |diff.activated|
      requires forall i :: 0 <= i < |activatedInfo| ==>
                 && diff.activated[i].traceId in serviceInfoByID[sid].traces
                 && activatedInfo[i] == serviceInfoByID[sid].traces[diff.activated[i].traceId]
      modifies serviceInfoByID[sid].traces.Values
      ensures Valid() && unchanged(this)
      ensures View() == WithBook(old(View()), sid,
                Book(EnrollActivated(old(View()).services[sid].traces, client, diff), channels))
    {
      var serviceInfo := serviceInfoByID[sid];
      ghost var before := View();
      assert before.services[sid] == serviceInfo.View();
      assert forall t :: t in serviceInfo.traces <==> t in before.services[sid].traces;
      assert diff.activated[..0] == [];
      assert WithBook(before, sid, Book(before.services[sid].traces, channels)) == before;
      hide Valid;
      hide Services;
      hide Enroll;
      hide AddClient;
      var i := 0;
      while i < |activatedInfo|
        invariant 0 <= i <= |activatedInfo|
        invariant unchanged(this) && unchanged(serviceInfo)
        invariant Valid()
        invariant View() == WithBook(before, sid,
                    Book(Enroll(before.services[sid].traces, client, diff.activated[..i]), channels))
      {
        var tid := diff.activated[i].traceId;
        ghost var traces := Enroll(before.services[sid].traces, client, diff.activated[..i]);
        EnrollNext(before, sid, client, diff.activated, i);
        AddClientName(sid, tid, client);
        i := i + 1;
      }
      assert diff.activated[..i] == diff.activated;
    }

    method AnswerNow(request: RequestId, client: ClientName, sid: ServiceId, diff: ActiveTraceDiff,
                     activatedInfo: seq<TraceInfo>)
      requires Valid() && sid in serviceInfoByID
      requires |activatedInfo| == |diff.activated|
      requires forall i :: 0 <= i < |activatedInfo| ==>
                 && diff.activated[i].traceId in serviceInfoByID[sid].traces
                 && activatedInfo[i] == serviceInfoByID[sid].traces[diff.activated[i].traceId]
      modifies this`answers, serviceInfoByID[sid].traces.Values
      ensures Valid() && Repr == old(Repr)
      ensures View() == WithBook(old(View()), sid,
                Book(EnrollActivated(old(View()).services[sid].traces, client, diff), channels))
                .(answers := old(answers) + [TracesAnswer(request, diff)])
    {
      hide Valid, Services, EnrollActivated;
      Send(TracesAnswer(request, diff));
      RegisterClient(sid, client, diff, activatedInfo);
    }

    method Park(sid: ServiceId, client: Parked)
      requires Valid() && sid in serviceInfoByID
      modifies serviceInfoByID[sid]
      ensures Valid()
      ensures View() == old(View()).(services := old(View()).services[sid :=
                old(View()).services[sid].(parked := old(View()).services[sid].parked + [client])])
    {
      assert serviceInfoByID[sid].View() == View().services[sid];
      SetResponseChannels(sid, serviceInfoByID[sid].responseChannels + [client]);
    }

    /** Answers a registration at once if the client's traces differ from the active ones, else parks it. */
    method AnswerOrPark(request: RequestId, client: ClientName, sid: ServiceId, known: seq<TraceId>,
                        diff: ActiveTraceDiff, activatedInfo: seq<TraceInfo>)
      requires Valid() && sid in serviceInfoByID
      requires |activatedInfo| == |diff.activated|
      requires forall i :: 0 <= i < |activatedInfo| ==>
                 && diff.activated[i].traceId in serviceInfoByID[sid].traces
                 && activatedInfo[i] == serviceInfoByID[sid].traces[diff.activated[i].traceId]
      modifies Repr
      ensures Valid() && Repr == old(Repr)
      ensures View() == HandleRegister(old(View()), request, client, sid, known, diff)
    {
      assert this in Repr && serviceInfoByID[sid] in Repr && serviceInfoByID[sid].traces.Values <= Repr;
      RegisterCases(View(), request, client, sid, known, diff);
      hide Valid, Services, HandleRegister, EnrollActivated;
      if Size(diff) != 0 {
        AnswerNow(request, client, sid, diff, activatedInfo);
      } else {
        var activeTraces := ToSet(known);
        Park(sid, Parked(client, request, activeTraces));
      }
    }

    /** What a holder of the known traces is missing, and the records of the activated traces. */
    method Compare(sid: ServiceId, known: seq<TraceId>) returns (diff: ActiveTraceDiff, activatedInfo: seq<TraceInfo>)
      requires Valid() && sid in View().services
      requires forall t :: t in View().services[sid].traces ==> View().services[sid].traces[t].options.traceId == t
      ensures IsTraceDiff(View().services[sid].traces, Elements(known), diff)
      ensures |activatedInfo| == |diff.activated| && sid in serviceInfoByID
      ensures forall i :: 0 <= i < |activatedInfo| ==>
                && diff.activated[i].traceId in serviceInfoByID[sid].traces
                && activatedInfo[i] == serviceInfoByID[sid].traces[diff.activated[i].traceId]
    {
      var activeTraces := ToSet(known);
      var serviceInfo := serviceInfoByID[sid];
      assert serviceInfo.View() == View().services[sid];
      diff, activatedInfo := serviceInfo.GetActiveTraceDiff(activeTraces);
    }

    method CompareAndAnswer(request: RequestId, client: ClientName, sid: ServiceId, known: seq<TraceId>)
      returns (diff: ActiveTraceDiff)
      requires Valid() && sid in View().services
      requires forall t :: t in View().services[sid].traces ==> View().services[sid].traces[t].options.traceId == t
      modifies Repr
      ensures Valid() && Repr == old(Repr)
      ensures IsTraceDiff(old(View()).services[sid].traces, Elements(known), diff)
      ensures View() == HandleRegister(old(View()), request, client, sid, known, diff)
    {
      hide Valid, Services, IsTraceDiff, HandleRegister;
      var activatedInfo;
      diff, activatedInfo := Compare(sid, known);
      AnswerOrPark(request, client, sid, known, diff, activatedInfo);
    }

    static lemma RegisteredOnce(s: State, sid: ServiceId)
      requires ChannelsInv(s)
      ensures var t := EnsureRegistered(s, sid);
        && sid in t.services
        && forall tid :: tid in t.services[sid].traces ==> t.services[sid].traces[tid].options.traceId == tid
    {
      assert sid in s.services ==> TableInv(sid, BookOf(s, sid));
    }

    /** Registering a registered service changes nothing. */
    static lemma RegisterAgain(s: State, request: RequestId, client: ClientName, sid: ServiceId, known: seq<TraceId>,
                               diff: ActiveTraceDiff)
      ensures HandleRegister(EnsureRegistered(s, sid), request, client, sid, known, diff) ==
              HandleRegister(s, request, client, sid, known, diff)
    {
    }

    method HandleRegistration(request: RequestId, client: ClientName, sid: ServiceId, known: seq<TraceId>)
      returns (diff: ActiveTraceDiff)
      requires Valid() && ChannelsInv(View())
      modifies Repr
      ensures Valid() && fresh(Repr - old(Repr))
      ensures IsTraceDiff(EnsureRegistered(old(View()), sid).services[sid].traces, Elements(known), diff)
      ensures View() == HandleRegister(old(View()), request, client, sid, known, diff)
    {
      ghost var before := View();
      hide Valid, Services, IsTraceDiff, ChannelsInv, HandleRegister, EnsureRegistered;
      var serviceInfo := EnsureServiceRegistered(sid);
      RegisteredOnce(before, sid);
      diff := CompareAndAnswer(request, client, sid, known);
      RegisterAgain(before, request, client, sid, known, diff);
    }

    /** Adds activated traces. */
    method ActivateTraces(sid: ServiceId, activated: seq<LoggingOptions>)
      requires Valid() && sid in View().services
      modifies Repr
      ensures Valid() && fresh(Repr - old(Repr)) && serviceInfoByID == old(serviceInfoByID)
      ensures View() == WithBook(old(View()), sid, ActivateAll(sid, BookOf(old(View()), sid), activated))
    {
      ghost var before := View();
      hide Valid;
      hide Services;
      hide Activate;
      LastBook(before, sid, BookOf(before, sid), BookOf(before, sid));
      var i := 0;
      while i < |activated|
        invariant 0 <= i <= |activated|
        invariant Valid() && fresh(Repr - old(Repr)) && serviceInfoByID == old(serviceInfoByID)
        invariant View() == WithBook(before, sid, ActivateAll(sid, BookOf(before, sid), activated[..i]))
      {
        ghost var b := ActivateAll(sid, BookOf(before, sid), activated[..i]);
        StartTraceEventCollector(sid, activated[i]);
        LastBook(before, sid, b, Activate(sid, b, activated[i]));
        assert activated[..i + 1][..i] == activated[..i];
        i := i + 1;
      }
      assert activated[..i] == activated;
    }

    method SetInactive(sid: ServiceId, tid: TraceId)
      requires Valid() && KnowsTrace(View(), sid, tid)
      modifies serviceInfoByID[sid].traces[tid]
      ensures Valid() && unchanged(this)
      ensures old(serviceInfoByID[sid].traces[tid]).clientNames == old(serviceInfoByID[sid].traces[tid].clientNames)
      ensures View() == WithBook(old(View()), sid,
                Book(old(View()).services[sid].traces[tid := old(View()).services[sid].traces[tid].(active := false)],
                     channels))
    {
      var traceInfo := serviceInfoByID[sid].traces[tid];
      traceInfo.active := false;
      TraceWritten((sid, tid));
    }

    static lemma MarkedInactive(s: State, sid: ServiceId, tid: TraceId) returns (middle: Book)
      requires KnowsTrace(s, sid, tid) && TableInv(sid, BookOf(s, sid))
      ensures middle == Book(s.services[sid].traces[tid := s.services[sid].traces[tid].(active := false)], s.channels)
      ensures OwnsChannel(sid, middle, tid)
      ensures Deactivate(BookOf(s, sid), tid) == Retire(middle, tid)
      ensures BookOf(WithBook(s, sid, middle), sid) == middle
      ensures WithBook(WithBook(s, sid, middle), sid, Retire(middle, tid)) == WithBook(s, sid, Retire(middle, tid))
    {
      middle := Book(s.services[sid].traces[tid := s.services[sid].traces[tid].(active := false)], s.channels);
      assert OwnsChannel(sid, BookOf(s, sid), tid);
      LastBook(s, sid, middle, Retire(middle, tid));
    }

    /** Unregisters a trace that is inactive and has no clients left. */
    method RetireUnlessWanted(sid: ServiceId, tid: TraceId)
      requires Valid() && KnowsTrace(View(), sid, tid) && OwnsChannel(sid, BookOf(View(), sid), tid)
      modifies Repr
      ensures Valid() && Repr == old(Repr) && serviceInfoByID == old(serviceInfoByID)
      ensures View() == WithBook(old(View()), sid, Retire(BookOf(old(View()), sid), tid))
    {
      ghost var before := View();
      LastBook(before, sid, BookOf(before, sid), BookOf(before, sid));
      var traceInfo := serviceInfoByID[sid].traces[tid];
      assert traceInfo.View() == before.services[sid].traces[tid];
      assert traceInfo.active || traceInfo.clientNames != {} ==>
               Retire(BookOf(before, sid), tid) == BookOf(before, sid);
      hide Valid;
      hide Services;
      hide Retire;
      if !(traceInfo.active || |traceInfo.clientNames| > 0) {
        UnregisterTrace(sid, tid);
      }
    }

    method DeactivateHeld(sid: ServiceId, tid: TraceId)
      requires Valid() && KnowsTrace(View(), sid, tid) && TableInv(sid, BookOf(View(), sid))
      modifies Repr
      ensures Valid() && Repr == old(Repr) && serviceInfoByID == old(serviceInfoByID)
      ensures View() == WithBook(old(View()), sid, Deactivate(BookOf(old(View()), sid), tid))
    {
      ghost var middle := MarkedInactive(View(), sid, tid);
      assert serviceInfoByID[sid].traces[tid] in Repr;
      hide Valid;
      hide Services;
      hide TableInv;
      hide Retire;
      hide Deactivate;
      SetInactive(sid, tid);
      RetireUnlessWanted(sid, tid);
    }

    /** Deactivates one trace, and retires it if no client is registered for it. */
    method DeactivateTrace(sid: ServiceId, tid: TraceId)
      requires Valid() && sid in View().services && TableInv(sid, BookOf(View(), sid))
      modifies Repr
      ensures Valid() && Repr == old(Repr) && serviceInfoByID == old(serviceInfoByID)
      ensures View() == WithBook(old(View()), sid, Deactivate(BookOf(old(View()), sid), tid))
    {
      ghost var before := View();
      var serviceInfo, traceInfo := GetInfo(sid, tid);
      assert traceInfo != null ==> traceInfo in Repr;
      assert KnowsTrace(before, sid, tid) <==> traceInfo != null;
      LastBook(before, sid, BookOf(before, sid), BookOf(before, sid));
      assert traceInfo == null ==> Deactivate(BookOf(before, sid), tid) == BookOf(before, sid);
      hide Valid;
      hide Services;
      hide Deactivate;
      if traceInfo != null {
        DeactivateHeld(sid, tid);
      }
    }

    /** Handles deactivated traces. */
    method DeactivateTraces(sid: ServiceId, deactivated: seq<TraceId>)
      requires Valid() && sid in View().services && TableInv(sid, BookOf(View(), sid))
      modifies Repr
      ensures Valid() && Repr == old(Repr) && serviceInfoByID == old(serviceInfoByID)
      ensures View() == WithBook(old(View()), sid, DeactivateAll(BookOf(old(View()), sid), deactivated))
    {
      ghost var before := View();
      hide Valid;
      hide Services;
      hide Deactivate;
      LastBook(before, sid, BookOf(before, sid), BookOf(before, sid));
      var i := 0;
      while i < |deactivated|
        invariant 0 <= i <= |deactivated|
        invariant Valid() && Repr == old(Repr) && serviceInfoByID == old(serviceInfoByID)
        invariant View() == WithBook(before, sid, DeactivateAll(BookOf(before, sid), deactivated[..i]))
      {
        ghost var b := DeactivateAll(BookOf(before, sid), deactivated[..i]);
        DeactivateAllSteps(sid, BookOf(before, sid), deactivated[..i]);
        LastBook(before, sid, b, Deactivate(b, deactivated[i]));
        DeactivateTrace(sid, deactivated[i]);
        assert deactivated[..i + 1][..i] == deactivated[..i];
        i := i + 1;
      }
      assert deactivated[..i] == deactivated;
    }

    method EnrollIfHeld(sid: ServiceId, tid: TraceId, client: ClientName)
      requires Valid() && sid in View().services
      modifies Repr
      ensures Valid() && Repr == old(Repr) && serviceInfoByID == old(serviceInfoByID)
      ensures View() == WithBook(old(View()), sid,
                Book(AddClient(old(View()).services[sid].traces, client, tid), old(View()).channels))
    {
      ghost var before := View();
      LastBook(before, sid, BookOf(before, sid), BookOf(before, sid));
      var serviceInfo := serviceInfoByID[sid];
      assert serviceInfo.View() == before.services[sid];
      if tid in serviceInfo.traces {
        AddClientName(sid, tid, client);
      }
    }

    /** Registers a client with the activated traces still held; a trace that the same diff
        deactivated may be gone already. */
    method EnrollClient(sid: ServiceId, client: ClientName, activated: seq<LoggingOptions>)
      requires Valid() && sid in View().services
      requires forall o :: o in activated ==> o.serviceId == sid
      modifies Repr
      ensures Valid() && Repr == old(Repr) && serviceInfoByID == old(serviceInfoByID)
      ensures View() == WithBook(old(View()), sid,
                Book(Enroll(old(View()).services[sid].traces, client, activated), old(View()).channels))
    {
      ghost var before := View();
      hide Valid;
      hide Services;
      LastBook(before, sid, BookOf(before, sid), BookOf(before, sid));
      var i := 0;
      while i < |activated|
        invariant 0 <= i <= |activated|
        invariant Valid() && Repr == old(Repr) && serviceInfoByID == old(serviceInfoByID)
        invariant View() == WithBook(before, sid,
                    Book(Enroll(before.services[sid].traces, client, activated[..i]), before.channels))
      {
        EnrollNext(before, sid, client, activated, i);
        EnrollIfHeld(activated[i].serviceId, activated[i].traceId, client);
        i := i + 1;
      }
      assert activated[..i] == activated;
    }

    /** One more pass of the loop over the parked clients. */
    static lemma AnswerNext(s: State, sid: ServiceId, waiting: seq<Parked>, diff: ActiveTraceDiff, i: nat)
      requires sid in s.services && i < |waiting|
      ensures var traces := EnrollAll(s.services[sid].traces, waiting[..i], diff.activated);
        var next := Enroll(traces, waiting[i].client, diff.activated);
        && EnrollAll(s.services[sid].traces, waiting[..i + 1], diff.activated) == next
        && WithBook(WithBook(s, sid, Book(traces, s.channels)), sid, Book(next, s.channels))
           == WithBook(s, sid, Book(next, s.channels))
      ensures s.answers + Replies(waiting[..i + 1], diff)
           == s.answers + Replies(waiting[..i], diff) + [TracesAnswer(waiting[i].request, diff)]
    {
      assert waiting[..i + 1][..i] == waiting[..i];
      assert Replies(waiting[..i + 1], diff) == Replies(waiting[..i], diff) + [TracesAnswer(waiting[i].request, diff)];
    }

    /** Sends the diff to the parked clients and registers them with the activated traces. */
    method AnswerParked(sid: ServiceId, waiting: seq<Parked>, diff: ActiveTraceDiff)
      requires Valid() && sid in View().services
      requires forall o :: o in diff.activated ==> o.serviceId == sid
      modifies Repr
      ensures Valid() && Repr == old(Repr) && serviceInfoByID == old(serviceInfoByID)
      ensures View() == WithBook(old(View()), sid,
                Book(EnrollAll(old(View()).services[sid].traces, waiting, diff.activated), old(View()).channels))
                .(answers := old(View()).answers + Replies(waiting, diff))
    {
      ghost var before := View();
      hide Valid;
      hide Services;
      LastBook(before, sid, BookOf(before, sid), BookOf(before, sid));
      assert before.answers + Replies(waiting[..0], diff) == before.answers;
      assert waiting[..0] == [];
      hide Enroll;
      hide Replies;
      var i := 0;
      while i < |waiting|
        invariant 0 <= i <= |waiting|
        invariant Valid() && Repr == old(Repr) && serviceInfoByID == old(serviceInfoByID)
        invariant View() == WithBook(before, sid,
                    Book(EnrollAll(before.services[sid].traces, waiting[..i], diff.activated), before.channels))
                    .(answers := before.answers + Replies(waiting[..i], diff))
      {
        AnswerNext(before, sid, waiting, diff, i);
        Send(TracesAnswer(waiting[i].request, diff));
        EnrollClient(sid, waiting[i].client, diff.activated);
        i := i + 1;
      }
      assert waiting[..i] == waiting;
    }

    /** Adds the activated traces, then handles the deactivated ones. */
    method ApplyDiff(sid: ServiceId, diff: ActiveTraceDiff)
      requires Valid() && sid in View().services && TableInv(sid, BookOf(View(), sid))
      modifies Repr
      ensures Valid() && fresh(Repr - old(Repr)) && serviceInfoByID == old(serviceInfoByID)
      ensures View() == WithBook(old(View()), sid, ChangedBook(sid, BookOf(old(View()), sid), diff))
    {
      ghost var before := View();
      ghost var b := BookOf(before, sid);
      ActivateAllSteps(sid, b, diff.activated);
      LastBook(before, sid, ActivateAll(sid, b, diff.activated), ChangedBook(sid, b, diff));
      hide Valid;
      hide Services;
      ActivateTraces(sid, diff.activated);
      DeactivateTraces(sid, diff.deactivated);
    }

    /** Takes the parked clients off the service; later registrations are against the new state. */
    method TakeResponseChannels(sid: ServiceId) returns (channelsToSend: seq<Parked>)
      requires Valid() && sid in View().services
      modifies Repr
      ensures Valid() && Repr == old(Repr) && serviceInfoByID == old(serviceInfoByID)
      ensures channelsToSend == old(View()).services[sid].parked
      ensures View() == old(View()).(services := old(View()).services[sid :=
                old(View()).services[sid].(parked := [])])
    {
      channelsToSend := serviceInfoByID[sid].responseChannels;
      SetResponseChannels(sid, []);
    }

    method HandleChanged(sid: ServiceId, diff: ActiveTraceDiff)
      requires Valid() && ChannelsInv(View())
      requires forall o :: o in diff.activated ==> o.serviceId == sid
      modifies Repr
      ensures Valid() && fresh(Repr - old(Repr))
      ensures View() == CloudProtocol.HandleChanged(old(View()), sid, diff)
    {
      if sid in serviceInfoByID {
        ghost var before := View();
        assert TableInv(sid, BookOf(before, sid));
        hide Valid;
        hide Services;
        hide TableInv;
        hide EnrollAll;
        hide ChangedBook;
        ApplyDiff(sid, diff);
        var channelsToSend := TakeResponseChannels(sid);
        AnswerParked(sid, channelsToSend, diff);
        Post(LongPoll(sid));
        ChangedState(before, sid, diff, View());
      }
    }

    /** The state after the last step of the handler. */
    static lemma ChangedState(s: State, sid: ServiceId, diff: ActiveTraceDiff, t: State)
      requires sid in s.services
      requires var b := ChangedBook(sid, BookOf(s, sid), diff);
        var m := WithBook(s, sid, b);
        var n := m.(services := m.services[sid := m.services[sid].(parked := [])]);
        t == WithBook(n, sid, Book(EnrollAll(b.traces, s.services[sid].parked, diff.activated), b.channels))
               .(answers := s.answers + Replies(s.services[sid].parked, diff), queue := s.queue + [LongPoll(sid)])
      ensures t == CloudProtocol.HandleChanged(s, sid, diff)
    {
    }

    method HandleTraceEvents(event: Event)
      requires Valid() && event.TraceEvents?
      modifies Repr
      ensures Valid() && fresh(Repr - old(Repr))
      ensures View() == CloudProtocol.HandleTraceEvents(old(View()), event)
    {
      ghost var before := View();
      var serviceInfo, traceInfo := GetInfo(event.sid, event.tid);
      assert KnowsTrace(before, event.sid, event.tid) <==> traceInfo != null;
      assert traceInfo != null ==>
               traceInfo in Repr && traceInfo.View() == before.services[event.sid].traces[event.tid];
      hide Valid;
      hide Services;
      if serviceInfo == null || traceInfo == null {
        Send(EventsAnswer(event.request, BadRequest, 0));
      } else {
        var traceEventChannel := traceInfo.traceEventChannel;
        AddClientName(event.sid, event.tid, event.client);
        StartUploader(Uploader(event.request, event.client, event.sid, event.tid, traceEventChannel,
                               event.events, 0, event.noMore));
      }
    }

    static ghost function ClientGone(s: State, sid: ServiceId, tid: TraceId, client: ClientName): Book
      requires KnowsTrace(s, sid, tid)
    {
      var t := s.services[sid].traces[tid];
      Book(s.services[sid].traces[tid := t.(clients := t.clients - {client})], s.channels)
    }

    method DeleteClientName(sid: ServiceId, tid: TraceId, client: ClientName)
      requires Valid() && KnowsTrace(View(), sid, tid)
      modifies serviceInfoByID[sid].traces[tid]
      ensures Valid() && unchanged(this)
      ensures View() == WithBook(old(View()), sid, ClientGone(old(View()), sid, tid, client))
    {
      var traceInfo := serviceInfoByID[sid].traces[tid];
      traceInfo.clientNames := traceInfo.clientNames - {client};
      TraceWritten((sid, tid));
    }

    static lemma ClientLeft(s: State, sid: ServiceId, tid: TraceId, client: ClientName)
      requires KnowsTrace(s, sid, tid) && TableInv(sid, BookOf(s, sid))
      ensures var middle := ClientGone(s, sid, tid, client);
        && OwnsChannel(sid, middle, tid)
        && Leave(BookOf(s, sid), client, tid) == Retire(middle, tid)
        && KnowsTrace(WithBook(s, sid, middle), sid, tid)
        && BookOf(WithBook(s, sid, middle), sid) == middle
        && WithBook(WithBook(s, sid, middle), sid, Retire(middle, tid)) == WithBook(s, sid, Retire(middle, tid))
    {
      assert OwnsChannel(sid, BookOf(s, sid), tid);
    }

    method LeaveTrace(client: ClientName, sid: ServiceId, tid: TraceId)
      requires Valid() && KnowsTrace(View(), sid, tid) && TableInv(sid, BookOf(View(), sid))
      modifies Repr
      ensures Valid() && Repr == old(Repr) && serviceInfoByID == old(serviceInfoByID)
      ensures View() == WithBook(old(View()), sid, Leave(BookOf(old(View()), sid), client, tid))
    {
      ClientLeft(View(), sid, tid, client);
      assert serviceInfoByID[sid].traces[tid] in Repr;
      hide Valid;
      hide Services;
      hide TableInv;
      hide Retire;
      hide Leave;
      DeleteClientName(sid, tid, client);
      RetireUnlessWanted(sid, tid);
    }

    method HandleUnregister(client: ClientName, sid: ServiceId, tid: TraceId)
      requires Valid() && ChannelsInv(View())
      modifies Repr
      ensures Valid() && fresh(Repr - old(Repr))
      ensures View() == CloudProtocol.HandleUnregister(old(View()), client, sid, tid)
    {
      ghost var before := View();
      var serviceInfo, traceInfo := GetInfo(sid, tid);
      assert KnowsTrace(before, sid, tid) <==> traceInfo != null;
      if traceInfo != null {
        assert TableInv(sid, BookOf(before, sid));
        LeaveTrace(client, sid, tid);
      } else {
        assert sid in before.services ==> before.services[sid := before.services[sid]] == before.services;
      }
    }

    /** Takes the event at the head of the queue. */
    method Receive() returns (event: Event)
      requires Valid() && eventChannel != []
      modifies this`eventChannel
      ensures Valid() && event == old(eventChannel)[0]
      ensures View() == old(View()).(queue := old(eventChannel)[1..])
    {
      event := eventChannel[0];
      eventChannel := eventChannel[1..];
      assert Services() == old(Services());
    }

    /** Handles the event at the head of the queue; the result is the listing made if a
        registration was handled. */
    method HandleHead() returns (listing: ActiveTraceDiff)
      requires Valid() && eventChannel != [] && HeadReady(View())
      modifies Repr
      ensures Valid() && fresh(Repr - old(Repr))
      ensures var popped := old(View()).(queue := old(View()).queue[1..]);
        && Handles(popped, old(View()).queue[0], listing)
        && View() == Handle(popped, old(View()).queue[0], listing)
    {
      ghost var before := View();
      ghost var popped := before.(queue := before.queue[1..]);
      assert this in Repr;
      hide Valid;
      hide Services;
      var event := Receive();
      assert ChannelsInv(popped) by {
        assert forall sid :: sid in before.services ==> BookOf(popped, sid) == BookOf(before, sid);
      }
      hide ChannelsInv;
      listing := ActiveTraceDiff([], []);
      hide CloudProtocol.HandleChanged;
      hide CloudProtocol.HandleLongPoll;
      hide CloudProtocol.HandleTraceEvents;
      hide CloudProtocol.HandleUnregister;
      hide HandleRegister;
      hide IsTraceDiff;
      match event
      case LongPoll(sid) => HandleLongPoll(sid);
      case Changed(sid, diff, _) => HandleChanged(sid, diff);
      case Register(request, client, sid, known) => listing := HandleRegistration(request, client, sid, known);
      case TraceEvents(_, _, _, _, _, _) => HandleTraceEvents(event);
      case Unregister(client, sid, tid) => HandleUnregister(client, sid, tid);
    }

    /** One turn of the main goroutine, in any world whose invariants hold, is a step of the step
        system, after which they hold again; so the loop's runs are runs of the step system. */
    method Turn(ghost w: World) returns (listing: ActiveTraceDiff)
      requires Valid() && View() == w.st && Inv(w) && eventChannel != []
      modifies Repr
      ensures Valid() && fresh(Repr - old(Repr))
      ensures Enabled(w, Dispatch(listing))
      ensures View() == Next(w, Dispatch(listing)).st && Inv(Next(w, Dispatch(listing)))
    {
      hide Valid, Services, Inv, HeadReady, Handles, Handle;
      InvReadiesHead(w);
      listing := HandleHead();
      StepKeepsInv(w, Dispatch(listing));
    }

    // ---- The uploaders ----

    /** Attempts to enqueue the next event of an upload; `room` is what select finds. */
    method Enqueue(i: nat, room: bool)
      requires Valid() && i < |uploaders| && uploaders[i].pending != []
      modifies this`uploaders
      ensures Valid() && View() == UploadOne(old(View()), i, room)
    {
      var u := uploaders[i];
      var dropped := if room then 0 else 1;
      uploaders := uploaders[i := u.(pending := u.pending[1..], drops := u.drops + dropped)];
      assert Services() == old(Services());
    }

    /** Sends the result to the client, and unregisters it if it signalled the end of the event stream. */
    method Respond(i: nat)
      requires Valid() && i < |uploaders| && uploaders[i].pending == []
      modifies this`uploaders, this`answers, this`eventChannel
      ensures Valid() && View() == UploadDone(old(View()), i)
    {
      var req := uploaders[i];
      uploaders := uploaders[..i] + uploaders[i + 1..];
      var status := Accepted;
      if req.drops > 0 {
        status := Unprocessable;
      }
      answers := answers + [EventsAnswer(req.request, status, req.drops)];
      if req.noMore {
        eventChannel := eventChannel + [Unregister(req.client, req.sid, req.tid)];
      }
      assert Services() == old(Services());
    }

    /** Relays the events of a request to the collector of the trace; `room[j]` says whether the buffered
        trace event channel had room when event j was offered to it. The client is told how many
        events were dropped. */
    method UploadTraceEvents(i: nat, room: seq<bool>) returns (sent: seq<TraceEvent>)
      requires Valid() && i < |uploaders| && |room| == |uploaders[i].pending| && uploaders[i].drops == 0
      modifies this`uploaders, this`answers, this`eventChannel
      ensures Valid() && View() == UploadDone(UploadAll(old(View()), i, room), i)
      ensures var drops := Count(NoRoom(), room);
        answers == old(answers) +
          [EventsAnswer(old(uploaders)[i].request, if drops > 0 then Unprocessable else Accepted, drops)]
      ensures sent == Kept(old(uploaders)[i].pending, room) && |sent| + Count(NoRoom(), room) == |room|
    {
      ghost var before := View();
      var events := uploaders[i].pending;
      sent := [];
      NoPass(before, i);
      hide Valid, Services, Kept, OnlyUploads, UploadOne, UploadDone;
      assert room[..0] == [] && events[..0] == [];
      for j := 0 to |room|
        invariant Valid() && OnlyUploads(before, View(), i, room[..j])
        invariant sent == Kept(events[..j], room[..j]) && |sent| + Count(NoRoom(), room[..j]) == j
      {
        OnePass(before, View(), i, room, j);
        if room[j] {
          sent := sent + [uploaders[i].pending[0]];
        }
        Enqueue(i, room[j]);
      }
      assert room[..|room|] == room && events[..|room|] == events;
      UploadFinishes(before, View(), i, room);
      Respond(i);
    }
  }
}
