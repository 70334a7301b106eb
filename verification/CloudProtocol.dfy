/** The cloud client's main goroutine, its event queue and the goroutines that
    race around it, as a step system, with the invariants of every run. */
module CloudProtocol {
  import opened Counting
  import opened CloudState

  /** `Changed.basis` and `Parked.known` are history: no handler reads them. The
      former is the snapshot the poll was made with. */
  datatype Event =
    | LongPoll(sid: ServiceId)
    | Changed(sid: ServiceId, diff: ActiveTraceDiff, basis: set<TraceId>)
    | Register(request: RequestId, client: ClientName, sid: ServiceId, known: seq<TraceId>)
    | TraceEvents(request: RequestId, client: ClientName, sid: ServiceId, tid: TraceId,
                  events: seq<TraceEvent>, noMore: bool)
    | Unregister(client: ClientName, sid: ServiceId, tid: TraceId)

  /** A goroutine started by longPollServiceEvent.handle, from request to enqueued result. */
  datatype Poller = Poller(sid: ServiceId, snapshot: set<TraceId>)

  /** A goroutine running uploadTraceEvents. */
  datatype Uploader = Uploader(request: RequestId, client: ClientName, sid: ServiceId, tid: TraceId,
                               channel: nat, pending: seq<TraceEvent>, drops: nat, noMore: bool)

  datatype Status = Accepted | BadRequest | Unprocessable

  datatype Answer =
    | TracesAnswer(request: RequestId, diff: ActiveTraceDiff)
    | EventsAnswer(request: RequestId, status: Status, drops: nat)

  datatype State = State(
    services: map<ServiceId, Service>,
    queue: seq<Event>,
    channels: seq<Channel>,
    pollers: seq<Poller>,
    uploaders: seq<Uploader>,
    answers: seq<Answer>)

  /** What a request was: a registration with the traces it knew, or some trace events. */
  datatype Issued = Issued(sid: ServiceId, client: ClientName, known: set<TraceId>, events: seq<TraceEvent>)

  datatype Stream = Stream(client: ClientName, sid: ServiceId, tid: TraceId)

  /** An event of a request was offered to a channel, which had room for it or not. */
  datatype Offer = Offer(request: RequestId, channel: nat, event: TraceEvent, room: bool)

  /** The state with its history: what request number i was, which (client, service, trace) streams have been
      ended by a noMoreEvents request, and which events were offered to channels. */
  datatype World = World(st: State, issued: seq<Issued>, ended: set<Stream>, offers: seq<Offer>)

  const Start := State(map[], [], [], [], [], [])

  // ---- Handlers of the main goroutine ----

  ghost function BookOf(s: State, sid: ServiceId): Book
    requires sid in s.services
  {
    Book(s.services[sid].traces, s.channels)
  }

  ghost function WithBook(s: State, sid: ServiceId, b: Book): State
    requires sid in s.services
  {
    s.(services := s.services[sid := s.services[sid].(traces := b.traces)], channels := b.channels)
  }

  ghost function EnsureRegistered(s: State, sid: ServiceId): State {
    if sid in s.services then s
    else s.(services := s.services[sid := Service(map[], [])], queue := s.queue + [LongPoll(sid)])
  }

  ghost function EnrollActivated(traces: Traces, client: ClientName, diff: ActiveTraceDiff): Traces {
    Enroll(traces, client, diff.activated)
  }

  /** `diff` is the listing of the changed traces that the Go map iterations happened to produce. */
  ghost function HandleRegister(s: State, request: RequestId, client: ClientName, sid: ServiceId,
                                known: seq<TraceId>, diff: ActiveTraceDiff): State
  {
    var r := EnsureRegistered(s, sid);
    var service := r.services[sid];
    if Size(diff) != 0 then
      r.(services := r.services[sid := service.(traces := EnrollActivated(service.traces, client, diff))],
         answers := r.answers + [TracesAnswer(request, diff)])
    else
      r.(services := r.services[sid := service.(parked := service.parked + [Parked(client, request, Elements(known))])])
  }

  ghost function HandleLongPoll(s: State, sid: ServiceId): State
    requires sid in s.services
  {
    s.(pollers := s.pollers + [Poller(sid, Active(s.services[sid].traces))])
  }

  ghost function Replies(waiting: seq<Parked>, diff: ActiveTraceDiff): (r: seq<Answer>)
    ensures |r| == |waiting|
  {
    seq(|waiting|, i requires 0 <= i < |waiting| => TracesAnswer(waiting[i].request, diff))
  }

  ghost function ChangedBook(sid: ServiceId, b: Book, diff: ActiveTraceDiff): Book {
    DeactivateAll(ActivateAll(sid, b, diff.activated), diff.deactivated)
  }

  ghost function HandleChanged(s: State, sid: ServiceId, diff: ActiveTraceDiff): State {
    if sid !in s.services then s
    else
      var b := ChangedBook(sid, BookOf(s, sid), diff);
      var waiting := s.services[sid].parked;
      s.(services := s.services[sid := Service(EnrollAll(b.traces, waiting, diff.activated), [])],
         channels := b.channels,
         answers := s.answers + Replies(waiting, diff),
         queue := s.queue + [LongPoll(sid)])
  }

  ghost predicate KnowsTrace(s: State, sid: ServiceId, tid: TraceId) {
    sid in s.services && tid in s.services[sid].traces
  }

  ghost function HandleTraceEvents(s: State, e: Event): State
    requires e.TraceEvents?
  {
    if !KnowsTrace(s, e.sid, e.tid) then
      s.(answers := s.answers + [EventsAnswer(e.request, BadRequest, 0)])
    else
      var traces := s.services[e.sid].traces;
      var up := Uploader(e.request, e.client, e.sid, e.tid, traces[e.tid].channel, e.events, 0, e.noMore);
      s.(services := s.services[e.sid := s.services[e.sid].(traces := AddClient(traces, e.client, e.tid))],
         uploaders := s.uploaders + [up])
  }

  ghost function HandleUnregister(s: State, client: ClientName, sid: ServiceId, tid: TraceId): State {
    if sid !in s.services then s
    else WithBook(s, sid, Leave(BookOf(s, sid), client, tid))
  }

  /** The handler runs without a nil dereference and lists map contents faithfully. */
  ghost predicate Handles(s: State, e: Event, diff: ActiveTraceDiff) {
    match e
    case LongPoll(sid) => sid in s.services
    case Changed(sid, d, _) => sid in s.services && forall o :: o in d.activated ==> o.serviceId in s.services
    case Register(_, _, sid, known) => IsTraceDiff(EnsureRegistered(s, sid).services[sid].traces, Elements(known), diff)
    case TraceEvents(_, _, _, _, _, _) => true
    case Unregister(_, _, _) => true
  }

  ghost function Handle(s: State, e: Event, diff: ActiveTraceDiff): State
    requires Handles(s, e, diff)
  {
    match e
    case LongPoll(sid) => HandleLongPoll(s, sid)
    case Changed(sid, d, _) => HandleChanged(s, sid, d)
    case Register(request, client, sid, known) => HandleRegister(s, request, client, sid, known, diff)
    case TraceEvents(_, _, _, _, _, _) => HandleTraceEvents(s, e)
    case Unregister(client, sid, tid) => HandleUnregister(s, client, sid, tid)
  }

  // ---- The goroutines and the clients ----

  ghost function PollFails(s: State, i: nat): State
    requires i < |s.pollers|
  {
    s.(pollers := Without(s.pollers, i), queue := s.queue + [LongPoll(s.pollers[i].sid)])
  }

  ghost function PollAnswers(s: State, i: nat, diff: ActiveTraceDiff): State
    requires i < |s.pollers|
  {
    s.(pollers := Without(s.pollers, i),
       queue := s.queue + [Changed(s.pollers[i].sid, diff, s.pollers[i].snapshot)])
  }

  /** One pass of the loop in uploadTraceEvents: the select either enqueues or drops. */
  ghost function UploadOne(s: State, i: nat, room: bool): State
    requires i < |s.uploaders| && s.uploaders[i].pending != []
  {
    var u := s.uploaders[i];
    s.(uploaders := s.uploaders[i := u.(pending := u.pending[1..], drops := u.drops + if room then 0 else 1)])
  }

  ghost function UploadDone(s: State, i: nat): State
    requires i < |s.uploaders| && s.uploaders[i].pending == []
  {
    var u := s.uploaders[i];
    s.(uploaders := Without(s.uploaders, i),
       answers := s.answers + [EventsAnswer(u.request, if u.drops > 0 then Unprocessable else Accepted, u.drops)],
       queue := if u.noMore then s.queue + [Unregister(u.client, u.sid, u.tid)] else s.queue)
  }

  datatype Step =
    | Dispatch(listing: ActiveTraceDiff)
    | Fail(poller: nat)
    | Poll(poller: nat, diff: ActiveTraceDiff)
    | Upload(uploader: nat, room: bool)
    | Finish(uploader: nat)
    | PostRegistration(client: ClientName, sid: ServiceId, known: seq<TraceId>)
    | PostEvents(client: ClientName, sid: ServiceId, tid: TraceId, events: seq<TraceEvent>, noMore: bool)

  ghost function TokenAt(sid: ServiceId): Event -> bool {
    (e: Event) => (e.LongPoll? || e.Changed?) && e.sid == sid
  }

  ghost function PollsAt(sid: ServiceId): Poller -> bool {
    (p: Poller) => p.sid == sid
  }

  ghost function QueuedOn(k: Stream): Event -> bool {
    (e: Event) => (e.TraceEvents? || e.Unregister?) && e.client == k.client && e.sid == k.sid && e.tid == k.tid
  }

  ghost function UploadsOn(k: Stream): Uploader -> bool {
    (u: Uploader) => u.client == k.client && u.sid == k.sid && u.tid == k.tid
  }

  /** Requests of a stream not yet dealt with, including the unregistration a final one leaves behind. */
  ghost function Outstanding(s: State, k: Stream): nat {
    Count(QueuedOn(k), s.queue) + Count(UploadsOn(k), s.uploaders)
  }

  /** When a step can be taken. The cloud labels trace options with the polled service. A
      client sends nothing on a stream after its final request, and sends that one only
      when none of its requests for the trace is outstanding. */
  ghost predicate Enabled(w: World, step: Step) {
    var s := w.st;
    match step
    case Dispatch(listing) => s.queue != [] && Handles(s.(queue := s.queue[1..]), s.queue[0], listing)
    case Fail(i) => i < |s.pollers|
    case Poll(i, diff) =>
      i < |s.pollers| && forall o :: o in diff.activated ==> o.serviceId == s.pollers[i].sid
    case Upload(i, _) => i < |s.uploaders| && s.uploaders[i].pending != []
    case Finish(i) => i < |s.uploaders| && s.uploaders[i].pending == []
    case PostRegistration(_, _, _) => true
    case PostEvents(client, sid, tid, _, noMore) =>
      var k := Stream(client, sid, tid);
      k !in w.ended && (noMore ==> Outstanding(s, k) == 0)
  }

  ghost function Next(w: World, step: Step): World
    requires Enabled(w, step)
  {
    var s := w.st;
    match step
    case Dispatch(listing) => w.(st := Handle(s.(queue := s.queue[1..]), s.queue[0], listing))
    case Fail(i) => w.(st := PollFails(s, i))
    case Poll(i, diff) => w.(st := PollAnswers(s, i, diff))
    case Upload(i, room) =>
      var u := s.uploaders[i];
      w.(st := UploadOne(s, i, room), offers := w.offers + [Offer(u.request, u.channel, u.pending[0], room)])
    case Finish(i) => w.(st := UploadDone(s, i))
    case PostRegistration(client, sid, known) =>
      w.(st := s.(queue := s.queue + [Register(|w.issued|, client, sid, known)]),
         issued := w.issued + [Issued(sid, client, Elements(known), [])])
    case PostEvents(client, sid, tid, events, noMore) =>
      w.(st := s.(queue := s.queue + [TraceEvents(|w.issued|, client, sid, tid, events, noMore)]),
         issued := w.issued + [Issued(sid, client, {}, events)],
         ended := if noMore then w.ended + {Stream(client, sid, tid)} else w.ended)
  }

  /** A run of the daemon and everything around it. */
  ghost predicate IsRun(run: seq<World>, steps: seq<Step>) {
    && |run| == |steps| + 1
    && run[0] == World(Start, [], {}, [])
    && forall i :: 0 <= i < |steps| ==> Enabled(run[i], steps[i]) && run[i + 1] == Next(run[i], steps[i])
  }
}
