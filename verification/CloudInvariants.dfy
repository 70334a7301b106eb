/** The invariants of the cloud client and their preservation by every step. */
module CloudInvariants {
  import opened Counting
  import opened CloudState
  import opened CloudProtocol

  // ---- The invariants ----

  ghost function Tokens(s: State, sid: ServiceId): nat {
    Count(TokenAt(sid), s.queue) + Count(PollsAt(sid), s.pollers)
  }

  /** A registered service has exactly one poll obligation, an unregistered one has none. */
  ghost predicate OneToken(s: State) {
    forall sid :: Tokens(s, sid) == if sid in s.services then 1 else 0
  }

  ghost predicate ActiveIs(s: State, sid: ServiceId, active: set<TraceId>) {
    sid in s.services && Active(s.services[sid].traces) == active
  }

  ghost predicate Labelled(sid: ServiceId, diff: ActiveTraceDiff) {
    forall o :: o in diff.activated ==> o.serviceId == sid
  }

  /** What the cloud was told, or answered about, is still the active set. */
  ghost predicate Snapshots(s: State) {
    && (forall i :: 0 <= i < |s.pollers| ==> ActiveIs(s, s.pollers[i].sid, s.pollers[i].snapshot))
    && (forall i :: 0 <= i < |s.queue| && s.queue[i].Changed? ==>
          ActiveIs(s, s.queue[i].sid, s.queue[i].basis) && Labelled(s.queue[i].sid, s.queue[i].diff))
  }

  /** Every parked client knows exactly the active set of its service. */
  ghost predicate ParkedAgree(s: State) {
    forall sid, j :: sid in s.services && 0 <= j < |s.services[sid].parked| ==>
      s.services[sid].parked[j].known == Active(s.services[sid].traces)
  }

  ghost predicate ChannelsInv(s: State) {
    && (forall sid :: sid in s.services ==> TableInv(sid, BookOf(s, sid)))
    && (forall c :: 0 <= c < |s.channels| && s.channels[c].open ==> s.channels[c].sid in s.services)
  }

  ghost predicate Backed(s: State, u: Uploader) {
    && KnowsTrace(s, u.sid, u.tid)
    && s.services[u.sid].traces[u.tid].channel == u.channel
    && u.client in s.services[u.sid].traces[u.tid].clients
  }

  /** The client of an uploader in flight is registered with the trace it uploads to. */
  ghost predicate UploadersInv(s: State) {
    forall i :: 0 <= i < |s.uploaders| ==> Backed(s, s.uploaders[i])
  }

  ghost function StreamOf(e: Event): Stream
    requires e.TraceEvents? || e.Unregister?
  {
    Stream(e.client, e.sid, e.tid)
  }

  ghost predicate Final(e: Event) {
    e.Unregister? || (e.TraceEvents? && e.noMore)
  }

  ghost predicate ContractInv(w: World) {
    && (forall i :: 0 <= i < |w.st.queue| && Final(w.st.queue[i]) ==> StreamOf(w.st.queue[i]) in w.ended)
    && (forall i :: 0 <= i < |w.st.uploaders| && w.st.uploaders[i].noMore ==>
          Stream(w.st.uploaders[i].client, w.st.uploaders[i].sid, w.st.uploaders[i].tid) in w.ended)
    && (forall k :: k in w.ended ==> Outstanding(w.st, k) <= 1)
  }

  ghost function AsksAs(id: RequestId): Event -> bool {
    (e: Event) => (e.Register? || e.TraceEvents?) && e.request == id
  }

  ghost function UploadsFor(id: RequestId): Uploader -> bool {
    (u: Uploader) => u.request == id
  }

  ghost function Answering(id: RequestId): Answer -> bool {
    (a: Answer) => a.request == id
  }

  ghost function WaitsAs(id: RequestId): Parked -> bool {
    (p: Parked) => p.request == id
  }

  ghost function ParkedPlaces(s: State, issued: seq<Issued>, id: RequestId): nat {
    if id < |issued| && issued[id].sid in s.services then
      Count(WaitsAs(id), s.services[issued[id].sid].parked)
    else 0
  }

  /** In how many places a request is: queued, uploading, answered or parked. */
  ghost function Places(s: State, issued: seq<Issued>, id: RequestId): nat {
    Count(AsksAs(id), s.queue) + Count(UploadsFor(id), s.uploaders)
    + Count(Answering(id), s.answers) + ParkedPlaces(s, issued, id)
  }

  ghost predicate IsIssued(issued: seq<Issued>, id: RequestId, what: Issued) {
    id < |issued| && issued[id] == what
  }

  /** Every parked client waits as it registered. */
  ghost predicate RequestsParked(s: State, issued: seq<Issued>) {
    forall sid, j :: sid in s.services && 0 <= j < |s.services[sid].parked| ==>
      var p := s.services[sid].parked[j];
      IsIssued(issued, p.request, Issued(sid, p.client, p.known, []))
  }

  ghost predicate RequestsInv(s: State, issued: seq<Issued>) {
    && (forall id: RequestId :: Places(s, issued, id) == if id < |issued| then 1 else 0)
    && RequestsParked(s, issued)
    && (forall i :: 0 <= i < |s.queue| && s.queue[i].Register? ==>
          var e := s.queue[i];
          IsIssued(issued, e.request, Issued(e.sid, e.client, Elements(e.known), [])))
  }

  ghost predicate Inv(w: World) {
    && OneToken(w.st)
    && Snapshots(w.st)
    && ParkedAgree(w.st)
    && ChannelsInv(w.st)
    && UploadersInv(w.st)
    && ContractInv(w)
    && RequestsInv(w.st, w.issued)
  }

  // ---- What a handler adds ----

  /** A handler posts at most a long-poll, and starts at most one goroutine. */
  lemma HandlerPosts(s: State, e: Event, listing: ActiveTraceDiff)
    requires Handles(s, e, listing)
    ensures var t := Handle(s, e, listing);
      && (t.queue == s.queue || t.queue == s.queue + [LongPoll(e.sid)])
      && (t.pollers == s.pollers
          || (e.LongPoll? && t.pollers == s.pollers + [Poller(e.sid, Active(s.services[e.sid].traces))]))
      && (t.uploaders == s.uploaders
          || (e.TraceEvents? && KnowsTrace(s, e.sid, e.tid)
              && t.uploaders == s.uploaders + [Uploader(e.request, e.client, e.sid, e.tid,
                                                        s.services[e.sid].traces[e.tid].channel,
                                                        e.events, 0, e.noMore)]))
  {
    hide Active, ChangedBook, EnrollAll, Enroll, Replies, Leave;
  }

  // ---- One poll obligation per service ----

  lemma TokensPush(s: State, e: Event, sid: ServiceId)
    ensures Count(TokenAt(sid), s.queue + [e]) == Count(TokenAt(sid), s.queue) + if TokenAt(sid)(e) then 1 else 0
  {
    CountPush(TokenAt(sid), s.queue, e);
  }

  lemma PopCounts<T(!new)>(p: T -> bool, q: seq<T>)
    requires q != []
    ensures Count(p, q) == Count(p, q[1..]) + if p(q[0]) then 1 else 0
  {
  }

  lemma RegisterKeepsTokens(s: State, sid: ServiceId)
    requires OneToken(s)
    ensures OneToken(EnsureRegistered(s, sid))
  {
    var t := EnsureRegistered(s, sid);
    forall x ensures Tokens(t, x) == if x in t.services then 1 else 0 {
      assert Tokens(s, x) == if x in s.services then 1 else 0;
      TokensPush(s, LongPoll(sid), x);
    }
  }

  lemma DispatchKeepsTokens(s: State, e: Event, listing: ActiveTraceDiff, t: State)
    requires s.queue != [] && e == s.queue[0] && OneToken(s)
    requires Handles(s.(queue := s.queue[1..]), e, listing) && t == Handle(s.(queue := s.queue[1..]), e, listing)
    ensures OneToken(t)
  {
    var r := s.(queue := s.queue[1..]);
    if e.Register? {
      forall x ensures Tokens(r, x) == if x in r.services then 1 else 0 {
        PopCounts(TokenAt(x), s.queue);
        assert Tokens(s, x) == if x in s.services then 1 else 0;
      }
      RegisterKeepsTokens(r, e.sid);
      var m := EnsureRegistered(r, e.sid);
      forall x ensures Tokens(t, x) == if x in t.services then 1 else 0 {
        assert Tokens(m, x) == if x in m.services then 1 else 0;
      }
    } else {
      forall x ensures Tokens(t, x) == if x in t.services then 1 else 0 {
        PopCounts(TokenAt(x), s.queue);
        assert Tokens(s, x) == if x in s.services then 1 else 0;
        if e.LongPoll? {
          CountPush(PollsAt(x), r.pollers, Poller(e.sid, Active(r.services[e.sid].traces)));
        } else if e.Changed? {
          TokensPush(r, LongPoll(e.sid), x);
        }
      }
    }
  }

  lemma StepKeepsTokens(w: World, step: Step)
    requires OneToken(w.st) && Enabled(w, step)
    ensures OneToken(Next(w, step).st)
  {
    var s, t := w.st, Next(w, step).st;
    match step
    case Dispatch(listing) => DispatchKeepsTokens(s, s.queue[0], listing, t);
    case Fail(i) =>
      forall x ensures Tokens(t, x) == if x in t.services then 1 else 0 {
        assert Tokens(s, x) == if x in s.services then 1 else 0;
        CountWithout(PollsAt(x), s.pollers, i);
        TokensPush(s, LongPoll(s.pollers[i].sid), x);
      }
    case Poll(i, diff) =>
      forall x ensures Tokens(t, x) == if x in t.services then 1 else 0 {
        assert Tokens(s, x) == if x in s.services then 1 else 0;
        CountWithout(PollsAt(x), s.pollers, i);
        TokensPush(s, Changed(s.pollers[i].sid, diff, s.pollers[i].snapshot), x);
      }
    case Upload(_, _) =>
      forall x ensures Tokens(t, x) == if x in t.services then 1 else 0 {
        assert Tokens(s, x) == if x in s.services then 1 else 0;
      }
    case Finish(i) =>
      forall x ensures Tokens(t, x) == if x in t.services then 1 else 0 {
        assert Tokens(s, x) == if x in s.services then 1 else 0;
        TokensPush(s, Unregister(s.uploaders[i].client, s.uploaders[i].sid, s.uploaders[i].tid), x);
      }
    case _ =>
      forall x ensures Tokens(t, x) == if x in t.services then 1 else 0 {
        assert Tokens(s, x) == if x in s.services then 1 else 0;
        TokensPush(s, t.queue[|s.queue|], x);
      }
  }

  // ---- The active set changes only when a diff is handled ----

  lemma LeaveKeepsActive(sid: ServiceId, b: Book, client: ClientName, tid: TraceId)
    requires TableInv(sid, b)
    ensures Active(Leave(b, client, tid).traces) == Active(b.traces)
  {
    if tid in b.traces {
      var m := b.(traces := b.traces[tid := b.traces[tid].(clients := b.traces[tid].clients - {client})]);
      assert OwnsChannel(sid, b, tid);
      assert OwnsChannel(sid, m, tid);
      RetireStep(sid, m, tid);
      assert Active(m.traces) == Active(b.traces);
    }
  }

  /** An event other than a changed-traces event leaves every active set alone. */
  lemma OtherEventsKeepActive(s: State, e: Event, listing: ActiveTraceDiff, sid: ServiceId)
    requires Handles(s, e, listing) && ChannelsInv(s)
    requires sid in s.services
    requires !(e.Changed? && e.sid == sid)
    ensures sid in Handle(s, e, listing).services
    ensures Active(Handle(s, e, listing).services[sid].traces) == Active(s.services[sid].traces)
  {
    if e.sid == sid {
      var b := BookOf(s, sid);
      match e
      case LongPoll(_) =>
      case Register(_, client, _, _) => EnrollSteps(sid, b, client, listing.activated);
      case TraceEvents(_, client, _, tid, _, _) =>
        if KnowsTrace(s, sid, tid) {
          AddClientStep(sid, b, client, tid);
        }
      case Unregister(client, _, tid) => LeaveKeepsActive(sid, b, client, tid);
    }
  }

  /** Handling a diff makes the active set what the diff makes of it. */
  lemma ChangedAppliesDiff(s: State, sid: ServiceId, diff: ActiveTraceDiff)
    requires sid in s.services && ChannelsInv(s)
    ensures Active(HandleChanged(s, sid, diff).services[sid].traces) == Apply(Active(s.services[sid].traces), diff)
    ensures var b := BookOf(s, sid); var c := ChangedBook(sid, b, diff);
      Evolves(sid, b, Book(EnrollAll(c.traces, s.services[sid].parked, diff.activated), c.channels))
  {
    var b := BookOf(s, sid);
    var m := ActivateAll(sid, b, diff.activated);
    ActivateAllSteps(sid, b, diff.activated);
    DeactivateAllSteps(sid, m, diff.deactivated);
    var c := DeactivateAll(m, diff.deactivated);
    EnrollAllSteps(sid, c, s.services[sid].parked, diff.activated);
    EvolvesTrans(sid, b, m, c);
    EvolvesTrans(sid, b, c, Book(EnrollAll(c.traces, s.services[sid].parked, diff.activated), c.channels));
  }

  /** While a poll is in flight, no diff of its service is handled. */
  lemma PollerFrozen(s: State, listing: ActiveTraceDiff, i: nat)
    requires s.queue != [] && OneToken(s) && Snapshots(s) && ChannelsInv(s)
    requires Handles(s.(queue := s.queue[1..]), s.queue[0], listing)
    requires i < |s.pollers|
    ensures ActiveIs(Handle(s.(queue := s.queue[1..]), s.queue[0], listing), s.pollers[i].sid, s.pollers[i].snapshot)
  {
    hide Handle, Handles, TableInv;
    var e, r, p := s.queue[0], s.(queue := s.queue[1..]), s.pollers[i];
    assert ActiveIs(s, p.sid, p.snapshot);
    assert ChannelsInv(r);
    if e.Changed? && e.sid == p.sid {
      assert Tokens(s, p.sid) == 1;
      PopCounts(TokenAt(p.sid), s.queue);
      CountNone(PollsAt(p.sid), s.pollers);
      assert false;
    } else {
      OtherEventsKeepActive(r, e, listing, p.sid);
    }
  }

  /** While a diff is queued, no other diff of its service is handled. */
  lemma QueuedFrozen(s: State, listing: ActiveTraceDiff, i: nat)
    requires s.queue != [] && OneToken(s) && Snapshots(s) && ChannelsInv(s)
    requires Handles(s.(queue := s.queue[1..]), s.queue[0], listing)
    requires 0 < i < |s.queue| && s.queue[i].Changed?
    ensures ActiveIs(Handle(s.(queue := s.queue[1..]), s.queue[0], listing), s.queue[i].sid, s.queue[i].basis)
  {
    hide Handle, Handles, TableInv;
    var e, r, c := s.queue[0], s.(queue := s.queue[1..]), s.queue[i];
    assert ActiveIs(s, c.sid, c.basis);
    assert ChannelsInv(r);
    if e.Changed? && e.sid == c.sid {
      assert Tokens(s, c.sid) == 1;
      CountTwo(TokenAt(c.sid), s.queue, 0, i);
      assert false;
    } else {
      OtherEventsKeepActive(r, e, listing, c.sid);
    }
  }

  lemma LongPollTellsActive(s: State, e: Event, listing: ActiveTraceDiff)
    requires e.LongPoll? && Handles(s, e, listing)
    ensures ActiveIs(Handle(s, e, listing), e.sid, Active(s.services[e.sid].traces))
  {
  }

  lemma DispatchKeepsSnapshots(s: State, listing: ActiveTraceDiff, t: State)
    requires s.queue != [] && OneToken(s) && Snapshots(s) && ChannelsInv(s)
    requires Handles(s.(queue := s.queue[1..]), s.queue[0], listing)
    requires t == Handle(s.(queue := s.queue[1..]), s.queue[0], listing)
    ensures Snapshots(t)
  {
    var e, r := s.queue[0], s.(queue := s.queue[1..]);
    HandlerPosts(r, e, listing);
    hide Handle, Handles, OneToken, ChannelsInv, Active, ActiveIs;
    forall i | 0 <= i < |t.pollers| ensures ActiveIs(t, t.pollers[i].sid, t.pollers[i].snapshot) {
      if i < |s.pollers| {
        PollerFrozen(s, listing, i);
      } else {
        LongPollTellsActive(r, e, listing);
      }
    }
    forall i | 0 <= i < |t.queue| && t.queue[i].Changed?
      ensures ActiveIs(t, t.queue[i].sid, t.queue[i].basis) && Labelled(t.queue[i].sid, t.queue[i].diff)
    {
      assert t.queue[i] == s.queue[i + 1];
      QueuedFrozen(s, listing, i + 1);
    }
  }

  lemma PollKeepsSnapshots(s: State, i: nat, e: Event)
    requires Snapshots(s) && i < |s.pollers|
    requires e.Changed? ==> e.sid == s.pollers[i].sid && e.basis == s.pollers[i].snapshot && Labelled(e.sid, e.diff)
    ensures Snapshots(s.(pollers := Without(s.pollers, i), queue := s.queue + [e]))
  {
    var t := s.(pollers := Without(s.pollers, i), queue := s.queue + [e]);
    assert ActiveIs(s, s.pollers[i].sid, s.pollers[i].snapshot);
    forall j | 0 <= j < |t.pollers| ensures ActiveIs(t, t.pollers[j].sid, t.pollers[j].snapshot) {
      assert t.pollers[j] == s.pollers[if i <= j then j + 1 else j];
    }
  }

  lemma StepKeepsSnapshots(w: World, step: Step)
    requires OneToken(w.st) && Snapshots(w.st) && ChannelsInv(w.st) && Enabled(w, step)
    ensures Snapshots(Next(w, step).st)
  {
    hide Handle, Handles, OneToken, ChannelsInv;
    var s, t := w.st, Next(w, step).st;
    match step
    case Dispatch(listing) => DispatchKeepsSnapshots(s, listing, t);
    case Fail(i) => PollKeepsSnapshots(s, i, LongPoll(s.pollers[i].sid));
    case Poll(i, diff) => PollKeepsSnapshots(s, i, Changed(s.pollers[i].sid, diff, s.pollers[i].snapshot));
    case _ =>
      assert t.services == s.services && t.pollers == s.pollers;
      forall i | 0 <= i < |t.queue| && t.queue[i].Changed?
        ensures ActiveIs(t, t.queue[i].sid, t.queue[i].basis) && Labelled(t.queue[i].sid, t.queue[i].diff)
      {
        assert i < |s.queue| && t.queue[i] == s.queue[i];
        assert ActiveIs(s, t.queue[i].sid, t.queue[i].basis);
      }
      forall i | 0 <= i < |t.pollers| ensures ActiveIs(t, t.pollers[i].sid, t.pollers[i].snapshot) {
        assert ActiveIs(s, s.pollers[i].sid, s.pollers[i].snapshot);
      }
  }

  // ---- Parked clients ----

  lemma StepKeepsParked(w: World, step: Step)
    requires ParkedAgree(w.st) && ChannelsInv(w.st) && Enabled(w, step)
    ensures ParkedAgree(Next(w, step).st)
  {
    var s, t := w.st, Next(w, step).st;
    if step.Dispatch? {
      var e, r := s.queue[0], s.(queue := s.queue[1..]);
      forall sid, j | sid in t.services && 0 <= j < |t.services[sid].parked|
        ensures t.services[sid].parked[j].known == Active(t.services[sid].traces)
      {
        if sid in s.services && !(e.Changed? && e.sid == sid) {
          OtherEventsKeepActive(r, e, step.listing, sid);
        }
        if e.Register? && e.sid == sid {
          DiffReconciles(EnsureRegistered(r, sid).services[sid].traces, Elements(e.known), step.listing);
        }
      }
    }
  }

  // ---- Channels ----

  /** A client leaving retires the trace, and closes its channel, exactly when it
      was the last client of an inactive trace. */
  lemma LeaveStep(sid: ServiceId, b: Book, client: ClientName, tid: TraceId)
    requires TableInv(sid, b)
    ensures var c := Leave(b, client, tid);
      && |b.channels| == |c.channels|
      && (forall k :: 0 <= k < |b.channels| ==>
            c.channels[k] == b.channels[k]
            || (b.channels[k] == Channel(true, sid, tid) && c.channels[k] == b.channels[k].(open := false)))
      && TableInv(sid, c)
    ensures var c := Leave(b, client, tid);
      forall t, name :: t in b.traces && name in b.traces[t].clients && (t != tid || name != client) ==>
        t in c.traces && c.traces[t].channel == b.traces[t].channel && name in c.traces[t].clients
  {
    if tid in b.traces {
      var m := b.(traces := b.traces[tid := b.traces[tid].(clients := b.traces[tid].clients - {client})]);
      assert OwnsChannel(sid, b, tid);
      assert OwnsChannel(sid, m, tid);
      RetireStep(sid, m, tid);
      var c := Leave(b, client, tid);
      forall t | t in c.traces ensures OwnsChannel(sid, c, t) {
        assert OwnsChannel(sid, b, t);
      }
      forall t, name | t in b.traces && name in b.traces[t].clients && (t != tid || name != client)
        ensures t in c.traces && c.traces[t].channel == b.traces[t].channel && name in c.traces[t].clients
      {
        assert name in m.traces[t].clients;
      }
    }
  }

  /** Channels may only be appended or closed by a dispatch. */
  ghost predicate ChannelsEvolve(s: State, t: State, sid: ServiceId) {
    && |s.channels| <= |t.channels|
    && (forall k :: 0 <= k < |s.channels| ==>
          t.channels[k] == s.channels[k]
          || (s.channels[k].open && s.channels[k].sid == sid && t.channels[k] == s.channels[k].(open := false)))
    && (forall k :: |s.channels| <= k < |t.channels| ==> t.channels[k].sid == sid)
  }

  /** Every handler works on one service's table and keeps it consistent with the channels. */
  lemma HandlerKeepsTable(s: State, e: Event, listing: ActiveTraceDiff, t: State)
    requires ChannelsInv(s) && Handles(s, e, listing) && t == Handle(s, e, listing)
    ensures s.services.Keys <= t.services.Keys <= s.services.Keys + {e.sid}
    ensures ChannelsEvolve(s, t, e.sid)
    ensures e.sid in t.services ==> TableInv(e.sid, BookOf(t, e.sid))
    ensures forall x :: x in s.services && x != e.sid ==> t.services[x] == s.services[x]
    ensures |s.channels| < |t.channels| ==> e.sid in t.services
  {
    match e
    case LongPoll(_) =>
      assert TableInv(e.sid, BookOf(s, e.sid));
    case Changed(sid, diff, _) =>
      ChangedAppliesDiff(s, sid, diff);
    case Register(_, client, sid, _) =>
      if sid in s.services {
        EnrollSteps(sid, BookOf(s, sid), client, listing.activated);
      } else {
        var b := Book(map[], s.channels);
        assert TableInv(sid, b) by {
          assert forall c :: 0 <= c < |s.channels| && s.channels[c].open ==> s.channels[c].sid in s.services;
        }
        EnrollSteps(sid, b, client, listing.activated);
      }
    case TraceEvents(_, client, sid, tid, _, _) =>
      if KnowsTrace(s, sid, tid) {
        AddClientStep(sid, BookOf(s, sid), client, tid);
      }
    case Unregister(client, sid, tid) =>
      if sid in s.services {
        LeaveStep(sid, BookOf(s, sid), client, tid);
      }
  }

  /** Closing or opening channels of one service leaves the tables of the others intact. */
  lemma OtherTableKept(s: State, t: State, sid: ServiceId, other: ServiceId)
    requires ChannelsEvolve(s, t, sid) && other != sid
    requires other in s.services && other in t.services && t.services[other] == s.services[other]
    requires TableInv(other, BookOf(s, other))
    ensures TableInv(other, BookOf(t, other))
  {
    var b, c := BookOf(s, other), BookOf(t, other);
    forall x | x in c.traces ensures OwnsChannel(other, c, x) {
      assert OwnsChannel(other, b, x);
    }
  }

  lemma HandlerKeepsChannels(s: State, e: Event, listing: ActiveTraceDiff, t: State)
    requires ChannelsInv(s) && Handles(s, e, listing) && t == Handle(s, e, listing)
    ensures ChannelsInv(t)
  {
    HandlerKeepsTable(s, e, listing, t);
    hide Handle, Handles, TableInv;
    forall sid | sid in t.services ensures TableInv(sid, BookOf(t, sid)) {
      if sid != e.sid {
        OtherTableKept(s, t, e.sid, sid);
      }
    }
  }

  // ---- Uploaders ----

  lemma TwoOutstanding(s: State, k: Stream, q: nat, i: nat)
    requires q < |s.queue| && QueuedOn(k)(s.queue[q])
    requires i < |s.uploaders| && UploadsOn(k)(s.uploaders[i])
    ensures Outstanding(s, k) >= 2
  {
    CountNone(QueuedOn(k), s.queue);
    CountNone(UploadsOn(k), s.uploaders);
  }

  lemma EvolvesKeepsBacked(s: State, t: State, u: Uploader)
    requires Backed(s, u) && u.sid in t.services
    requires Evolves(u.sid, BookOf(s, u.sid), BookOf(t, u.sid))
    ensures Backed(t, u)
  {
  }

  lemma UnregisterKeepsBacked(w: World, listing: ActiveTraceDiff, i: nat)
    requires ChannelsInv(w.st) && UploadersInv(w.st) && ContractInv(w) && Enabled(w, Dispatch(listing))
    requires w.st.queue[0].Unregister?
    requires i < |w.st.uploaders| && w.st.uploaders[i].sid == w.st.queue[0].sid
    ensures Backed(Handle(w.st.(queue := w.st.queue[1..]), w.st.queue[0], listing), w.st.uploaders[i])
  {
    var s, e, u := w.st, w.st.queue[0], w.st.uploaders[i];
    var k := Stream(e.client, e.sid, e.tid);
    assert Backed(s, u);
    assert Final(e) && StreamOf(e) == k && k in w.ended;
    if u.client == e.client && u.tid == e.tid {
      TwoOutstanding(s, k, 0, i);
      assert false;
    } else {
      LeaveStep(e.sid, BookOf(s, e.sid), e.client, e.tid);
    }
  }

  lemma OtherHandlersEvolve(s: State, e: Event, listing: ActiveTraceDiff)
    requires ChannelsInv(s) && Handles(s, e, listing) && e.sid in s.services && !e.Unregister?
    ensures var t := Handle(s, e, listing);
      e.sid in t.services && Evolves(e.sid, BookOf(s, e.sid), BookOf(t, e.sid))
  {
    match e
    case LongPoll(_) =>
    case Changed(sid, diff, _) => ChangedAppliesDiff(s, sid, diff);
    case Register(_, client, sid, _) => EnrollSteps(sid, BookOf(s, sid), client, listing.activated);
    case TraceEvents(_, client, sid, tid, _, _) => AddClientStep(sid, BookOf(s, sid), client, tid);
  }

  /** No handler takes the trace away from under an uploader in flight. */
  lemma HandlerKeepsBacked(w: World, listing: ActiveTraceDiff, i: nat)
    requires ChannelsInv(w.st) && UploadersInv(w.st) && ContractInv(w) && Enabled(w, Dispatch(listing))
    requires i < |w.st.uploaders|
    ensures Backed(Next(w, Dispatch(listing)).st, w.st.uploaders[i])
  {
    hide Handle, Handles, TableInv, ContractInv, Evolves;
    var s := w.st;
    var e, r, u := s.queue[0], s.(queue := s.queue[1..]), s.uploaders[i];
    assert Backed(s, u) && ChannelsInv(r);
    if e.sid != u.sid {
      HandlerKeepsTable(r, e, listing, Handle(r, e, listing));
    } else if e.Unregister? {
      UnregisterKeepsBacked(w, listing, i);
    } else {
      OtherHandlersEvolve(r, e, listing);
      EvolvesKeepsBacked(r, Handle(r, e, listing), u);
    }
  }

  lemma NewUploaderBacked(s: State, e: Event, listing: ActiveTraceDiff)
    requires e.TraceEvents? && KnowsTrace(s, e.sid, e.tid) && Handles(s, e, listing)
    ensures var t := Handle(s, e, listing);
      |t.uploaders| == |s.uploaders| + 1 && Backed(t, t.uploaders[|s.uploaders|])
  {
  }

  lemma DispatchKeepsUploaders(w: World, listing: ActiveTraceDiff)
    requires ChannelsInv(w.st) && UploadersInv(w.st) && ContractInv(w) && Enabled(w, Dispatch(listing))
    ensures UploadersInv(Next(w, Dispatch(listing)).st)
  {
    var s, t := w.st, Next(w, Dispatch(listing)).st;
    var e, r := s.queue[0], s.(queue := s.queue[1..]);
    HandlerPosts(r, e, listing);
    forall i | 0 <= i < |t.uploaders| ensures Backed(t, t.uploaders[i]) {
      if i < |s.uploaders| {
        assert t.uploaders[i] == s.uploaders[i];
        HandlerKeepsBacked(w, listing, i);
      } else {
        NewUploaderBacked(r, e, listing);
      }
    }
  }

  lemma StepKeepsUploaders(w: World, step: Step)
    requires ChannelsInv(w.st) && UploadersInv(w.st) && ContractInv(w) && Enabled(w, step)
    ensures UploadersInv(Next(w, step).st)
  {
    hide ChannelsInv, ContractInv, Handle, Handles;
    var s, t := w.st, Next(w, step).st;
    if step.Dispatch? {
      DispatchKeepsUploaders(w, step.listing);
    } else {
      assert t.services == s.services;
      forall j | 0 <= j < |t.uploaders| ensures Backed(t, t.uploaders[j]) {
        var i := if step.Finish? && step.uploader <= j then j + 1 else j;
        assert Backed(s, s.uploaders[i]);
      }
    }
  }

  // ---- The client contract ----

  lemma DispatchKeepsContract(w: World, listing: ActiveTraceDiff)
    requires ContractInv(w) && Enabled(w, Dispatch(listing))
    ensures ContractInv(Next(w, Dispatch(listing)))
  {
    var s, t := w.st, Next(w, Dispatch(listing)).st;
    var e, r := s.queue[0], s.(queue := s.queue[1..]);
    HandlerPosts(r, e, listing);
    hide Handle, Handles;
    assert forall i :: 0 <= i < |t.queue| && Final(t.queue[i]) ==> i + 1 < |s.queue| && t.queue[i] == s.queue[i + 1];
    forall k | k in w.ended ensures Outstanding(t, k) <= 1 {
      assert Outstanding(s, k) <= 1;
      PopCounts(QueuedOn(k), s.queue);
      CountPush(QueuedOn(k), r.queue, LongPoll(e.sid));
      if t.uploaders != s.uploaders {
        CountPush(UploadsOn(k), s.uploaders, t.uploaders[|s.uploaders|]);
      }
    }
  }

  lemma CountReplace<T(!new)>(p: T -> bool, s: seq<T>, i: nat, x: T)
    requires i < |s| && p(x) == p(s[i])
    ensures Count(p, s[i := x]) == Count(p, s)
  {
    CountWithout(p, s, i);
    CountWithout(p, s[i := x], i);
    assert Without(s[i := x], i) == Without(s, i);
  }

  lemma UploadKeepsContract(w: World, i: nat, room: bool)
    requires ContractInv(w) && Enabled(w, Upload(i, room))
    ensures ContractInv(Next(w, Upload(i, room)))
  {
    var s, t := w.st, Next(w, Upload(i, room)).st;
    forall k | k in w.ended ensures Outstanding(t, k) <= 1 {
      assert Outstanding(s, k) <= 1;
      CountReplace(UploadsOn(k), s.uploaders, i, t.uploaders[i]);
    }
  }

  lemma FinishKeepsContract(w: World, i: nat)
    requires ContractInv(w) && Enabled(w, Finish(i))
    ensures ContractInv(Next(w, Finish(i)))
  {
    var s, t := w.st, Next(w, Finish(i)).st;
    assert forall j :: 0 <= j < |t.uploaders| ==> t.uploaders[j] == s.uploaders[if i <= j then j + 1 else j];
    forall k | k in w.ended ensures Outstanding(t, k) <= 1 {
      assert Outstanding(s, k) <= 1;
      CountWithout(UploadsOn(k), s.uploaders, i);
      var u := s.uploaders[i];
      CountPush(QueuedOn(k), s.queue, Unregister(u.client, u.sid, u.tid));
    }
  }

  lemma PostKeepsContract(w: World, step: Step)
    requires ContractInv(w) && Enabled(w, step) && step.PostEvents?
    ensures ContractInv(Next(w, step))
  {
    var s, t, ended := w.st, Next(w, step).st, Next(w, step).ended;
    var own := Stream(step.client, step.sid, step.tid);
    forall k | k in ended ensures Outstanding(t, k) <= 1 {
      CountPush(QueuedOn(k), s.queue, t.queue[|s.queue|]);
      if k == own {
        assert Outstanding(s, own) == 0;
      } else {
        assert Outstanding(s, k) <= 1;
      }
    }
  }

  lemma StepKeepsContract(w: World, step: Step)
    requires ContractInv(w) && Enabled(w, step)
    ensures ContractInv(Next(w, step))
  {
    var s, t := w.st, Next(w, step).st;
    match step
    case Dispatch(listing) => DispatchKeepsContract(w, listing);
    case Upload(i, room) => UploadKeepsContract(w, i, room);
    case Finish(i) => FinishKeepsContract(w, i);
    case PostEvents(_, _, _, _, _) => PostKeepsContract(w, step);
    case _ =>
      forall k | k in w.ended ensures Outstanding(t, k) <= 1 {
        assert Outstanding(s, k) <= 1;
        CountPush(QueuedOn(k), s.queue, t.queue[|s.queue|]);
      }
  }

  // ---- Every request is in exactly one place ----

  lemma QueuePush(s: State, e: Event, id: RequestId)
    ensures Count(AsksAs(id), s.queue + [e]) == Count(AsksAs(id), s.queue) + if AsksAs(id)(e) then 1 else 0
  {
    CountPush(AsksAs(id), s.queue, e);
  }

  /** Popping the head of the queue takes its request out of one place. */
  ghost function Held(e: Event, id: RequestId): nat {
    if AsksAs(id)(e) then 1 else 0
  }

  lemma EnsurePlaces(s: State, issued: seq<Issued>, sid: ServiceId, id: RequestId)
    ensures sid in EnsureRegistered(s, sid).services
    ensures Places(EnsureRegistered(s, sid), issued, id) == Places(s, issued, id)
  {
    QueuePush(s, LongPoll(sid), id);
  }

  lemma RegisterPlaces(s: State, issued: seq<Issued>, e: Event, listing: ActiveTraceDiff, id: RequestId)
    requires e.Register? && Handles(s, e, listing)
    requires IsIssued(issued, e.request, Issued(e.sid, e.client, Elements(e.known), []))
    ensures Places(Handle(s, e, listing), issued, id) == Places(s, issued, id) + Held(e, id)
  {
    hide Enroll, IsTraceDiff, EnsureRegistered, Count;
    EnsurePlaces(s, issued, e.sid, id);
    var r := EnsureRegistered(s, e.sid);
    CountPush(Answering(id), r.answers, TracesAnswer(e.request, listing));
    CountPush(WaitsAs(id), r.services[e.sid].parked, Parked(e.client, e.request, Elements(e.known)));
  }

  lemma {:induction false} RepliesCount(waiting: seq<Parked>, diff: ActiveTraceDiff, id: RequestId)
    ensures Count(Answering(id), Replies(waiting, diff)) == Count(WaitsAs(id), waiting)
  {
    if waiting == [] {
    } else {
      RepliesCount(waiting[1..], diff, id);
      assert Replies(waiting, diff)[1..] == Replies(waiting[1..], diff);
    }
  }

  lemma ChangedPlaces(s: State, issued: seq<Issued>, e: Event, id: RequestId)
    requires e.Changed? && e.sid in s.services
    requires RequestsParked(s, issued)
    ensures Places(HandleChanged(s, e.sid, e.diff), issued, id) == Places(s, issued, id)
  {
    var waiting := s.services[e.sid].parked;
    CountAppend(Answering(id), s.answers, Replies(waiting, e.diff));
    RepliesCount(waiting, e.diff, id);
    QueuePush(s, LongPoll(e.sid), id);
    if !(id < |issued| && issued[id].sid == e.sid) {
      CountNone(WaitsAs(id), waiting);
    }
  }

  lemma EventsPlaces(s: State, issued: seq<Issued>, e: Event, id: RequestId)
    requires e.TraceEvents?
    ensures Places(HandleTraceEvents(s, e), issued, id) == Places(s, issued, id) + Held(e, id)
  {
    var t := HandleTraceEvents(s, e);
    if KnowsTrace(s, e.sid, e.tid) {
      CountPush(UploadsFor(id), s.uploaders, t.uploaders[|s.uploaders|]);
    } else {
      CountPush(Answering(id), s.answers, EventsAnswer(e.request, BadRequest, 0));
    }
  }

  lemma DispatchPlaces(w: World, listing: ActiveTraceDiff, id: RequestId)
    requires RequestsInv(w.st, w.issued) && Enabled(w, Dispatch(listing))
    ensures Places(Next(w, Dispatch(listing)).st, w.issued, id) == if id < |w.issued| then 1 else 0
  {
    var s, t := w.st, Next(w, Dispatch(listing)).st;
    var e, r := s.queue[0], s.(queue := s.queue[1..]);
    PopCounts(AsksAs(id), s.queue);
    assert Places(s, w.issued, id) == Places(r, w.issued, id) + Held(e, id);
    assert RequestsParked(r, w.issued);
    hide RequestsParked;
    match e
    case LongPoll(_) =>
    case Changed(_, _, _) => ChangedPlaces(r, w.issued, e, id);
    case Register(_, _, _, _) => RegisterPlaces(r, w.issued, e, listing, id);
    case TraceEvents(_, _, _, _, _, _) => EventsPlaces(r, w.issued, e, id);
    case Unregister(_, _, _) =>
  }

  /** Nobody is parked anew but the client of a registration. */
  lemma DispatchKeepsParked(w: World, listing: ActiveTraceDiff)
    requires RequestsInv(w.st, w.issued) && Enabled(w, Dispatch(listing))
    ensures RequestsParked(Next(w, Dispatch(listing)).st, w.issued)
  {
    hide Places, IsTraceDiff, Enroll, EnrollAll, ChangedBook, Leave, Active;
  }

  lemma DispatchKeepsRequests(w: World, listing: ActiveTraceDiff)
    requires RequestsInv(w.st, w.issued) && Enabled(w, Dispatch(listing))
    ensures RequestsInv(Next(w, Dispatch(listing)).st, w.issued)
  {
    var s, t := w.st, Next(w, Dispatch(listing)).st;
    HandlerPosts(s.(queue := s.queue[1..]), s.queue[0], listing);
    DispatchKeepsParked(w, listing);
    hide Handle, Handles, Places;
    assert forall i :: 0 <= i < |t.queue| && t.queue[i].Register? ==> i + 1 < |s.queue| && t.queue[i] == s.queue[i + 1];
    forall id: RequestId ensures Places(t, w.issued, id) == if id < |w.issued| then 1 else 0 {
      DispatchPlaces(w, listing, id);
    }
  }

  lemma UploadKeepsRequests(s: State, issued: seq<Issued>, i: nat, room: bool)
    requires RequestsInv(s, issued) && i < |s.uploaders| && s.uploaders[i].pending != []
    ensures RequestsInv(UploadOne(s, i, room), issued)
  {
    var t := UploadOne(s, i, room);
    forall id: RequestId ensures Places(t, issued, id) == if id < |issued| then 1 else 0 {
      CountReplace(UploadsFor(id), s.uploaders, i, t.uploaders[i]);
      assert Places(s, issued, id) == if id < |issued| then 1 else 0;
    }
  }

  lemma FinishKeepsRequests(s: State, issued: seq<Issued>, i: nat)
    requires RequestsInv(s, issued) && i < |s.uploaders| && s.uploaders[i].pending == []
    ensures RequestsInv(UploadDone(s, i), issued)
  {
    var t, u := UploadDone(s, i), s.uploaders[i];
    forall id: RequestId ensures Places(t, issued, id) == if id < |issued| then 1 else 0 {
      CountWithout(UploadsFor(id), s.uploaders, i);
      QueuePush(s, Unregister(u.client, u.sid, u.tid), id);
      CountPush(Answering(id), s.answers, t.answers[|s.answers|]);
      assert Places(s, issued, id) == if id < |issued| then 1 else 0;
    }
  }

  lemma PollKeepsRequests(w: World, step: Step)
    requires RequestsInv(w.st, w.issued) && Enabled(w, step) && (step.Fail? || step.Poll?)
    ensures RequestsInv(Next(w, step).st, w.issued)
  {
    var s, t := w.st, Next(w, step).st;
    forall id: RequestId ensures Places(t, w.issued, id) == if id < |w.issued| then 1 else 0 {
      QueuePush(s, t.queue[|s.queue|], id);
      assert Places(s, w.issued, id) == if id < |w.issued| then 1 else 0;
    }
  }

  lemma PostKeepsRequests(w: World, step: Step)
    requires RequestsInv(w.st, w.issued) && Enabled(w, step) && (step.PostRegistration? || step.PostEvents?)
    ensures RequestsInv(Next(w, step).st, Next(w, step).issued)
  {
    var s, t, issued := w.st, Next(w, step).st, Next(w, step).issued;
    forall id: RequestId ensures Places(t, issued, id) == if id < |issued| then 1 else 0 {
      QueuePush(s, t.queue[|s.queue|], id);
      assert Places(s, w.issued, id) == if id < |w.issued| then 1 else 0;
      if id == |w.issued| && issued[id].sid in s.services {
        CountNone(WaitsAs(id), s.services[issued[id].sid].parked);
      }
    }
  }

  lemma StepKeepsRequests(w: World, step: Step)
    requires RequestsInv(w.st, w.issued) && Enabled(w, step)
    ensures RequestsInv(Next(w, step).st, Next(w, step).issued)
  {
    match step
    case Dispatch(listing) => DispatchKeepsRequests(w, listing);
    case Fail(_) => PollKeepsRequests(w, step);
    case Poll(_, _) => PollKeepsRequests(w, step);
    case Upload(i, room) => UploadKeepsRequests(w.st, w.issued, i, room);
    case Finish(i) => FinishKeepsRequests(w.st, w.issued, i);
    case _ => PostKeepsRequests(w, step);
  }

  // ---- Every step, every run ----

  lemma StepKeepsInv(w: World, step: Step)
    requires Inv(w) && Enabled(w, step)
    ensures Inv(Next(w, step))
  {
    StepKeepsTokens(w, step);
    StepKeepsSnapshots(w, step);
    StepKeepsParked(w, step);
    StepKeepsUploaders(w, step);
    StepKeepsContract(w, step);
    StepKeepsRequests(w, step);
    if step.Dispatch? {
      HandlerKeepsChannels(w.st.(queue := w.st.queue[1..]), w.st.queue[0], step.listing, Next(w, step).st);
    }
  }

  /** What the handler of the event at the head of the queue needs to know. */
  ghost predicate HeadReady(s: State)
    requires s.queue != []
  {
    var e := s.queue[0];
    && ChannelsInv(s)
    && (e.LongPoll? || e.Changed? ==> e.sid in s.services)
    && (e.Changed? ==> Labelled(e.sid, e.diff))
  }

  lemma InvReadiesHead(w: World)
    requires Inv(w) && w.st.queue != []
    ensures HeadReady(w.st)
  {
    var s, e := w.st, w.st.queue[0];
    match e
    case LongPoll(sid) =>
      assert Tokens(s, sid) == if sid in s.services then 1 else 0;
      PopCounts(TokenAt(sid), s.queue);
    case Changed(sid, _, basis) => assert ActiveIs(s, sid, basis);
    case _ =>
  }

  lemma {:induction false} RunKeepsInv(run: seq<World>, steps: seq<Step>, i: nat)
    requires IsRun(run, steps) && i < |run|
    ensures Inv(run[i])
  {
    if i == 0 {
      forall sid ensures Tokens(Start, sid) == 0 { }
      forall id: RequestId ensures Places(Start, [], id) == 0 { }
    } else {
      RunKeepsInv(run, steps, i - 1);
      StepKeepsInv(run[i - 1], steps[i - 1]);
    }
  }
}
