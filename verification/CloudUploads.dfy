/** What the answers to trace event requests say about the events. */
module CloudUploads {
  import opened Counting
  import opened CloudState
  import opened CloudProtocol
  import opened CloudInvariants

  /** The events of a request that were offered to a channel, in order. */
  ghost function Offered(offers: seq<Offer>, id: RequestId): seq<TraceEvent>
    decreases |offers|
  {
    if offers == [] then []
    else
      var last := offers[|offers| - 1];
      Offered(offers[..|offers| - 1], id) + if last.request == id then [last.event] else []
  }

  /** How many of them found no room. */
  ghost function Lost(offers: seq<Offer>, id: RequestId): nat
    decreases |offers|
  {
    if offers == [] then 0
    else
      var last := offers[|offers| - 1];
      Lost(offers[..|offers| - 1], id) + if last.request == id && !last.room then 1 else 0
  }

  lemma OffersPush(offers: seq<Offer>, o: Offer, id: RequestId)
    ensures Offered(offers + [o], id) == Offered(offers, id) + if o.request == id then [o.event] else []
    ensures Lost(offers + [o], id) == Lost(offers, id) + if o.request == id && !o.room then 1 else 0
  {
    assert (offers + [o])[..|offers|] == offers;
  }

  // ---- The invariant ----

  ghost predicate Untouched(w: World, id: RequestId) {
    Offered(w.offers, id) == [] && Lost(w.offers, id) == 0
  }

  ghost predicate QueuedUntouched(w: World, e: Event) {
    e.TraceEvents? ==> e.request < |w.issued| && w.issued[e.request].events == e.events && Untouched(w, e.request)
  }

  ghost predicate UploaderAccounts(w: World, u: Uploader) {
    && u.request < |w.issued|
    && Offered(w.offers, u.request) + u.pending == w.issued[u.request].events
    && u.drops == Lost(w.offers, u.request)
  }

  /** A refused request had no event offered. Of any other, every event was offered exactly once, in order, and
      the answer gives the number of those for which there was no room. */
  ghost predicate AnswerTrue(w: World, a: Answer) {
    a.EventsAnswer? ==>
      && a.request < |w.issued|
      && a.drops == Lost(w.offers, a.request)
      && match a.status
         case BadRequest => Untouched(w, a.request)
         case Accepted => Offered(w.offers, a.request) == w.issued[a.request].events && a.drops == 0
         case Unprocessable => Offered(w.offers, a.request) == w.issued[a.request].events && a.drops > 0
  }

  ghost predicate OffersInv(w: World) {
    && (forall i :: 0 <= i < |w.st.queue| ==> QueuedUntouched(w, w.st.queue[i]))
    && (forall i :: 0 <= i < |w.st.uploaders| ==> UploaderAccounts(w, w.st.uploaders[i]))
    && (forall i :: 0 <= i < |w.st.answers| ==> AnswerTrue(w, w.st.answers[i]))
    && (forall id: RequestId :: id >= |w.issued| ==> Untouched(w, id))
  }

  // ---- Every step keeps it ----

  /** A step that offers nothing and whose new events, uploaders and answers are accounted for. */
  lemma QuietStepKeepsOffers(w: World, t: World)
    requires OffersInv(w) && t.offers == w.offers && w.issued <= t.issued
    requires forall e :: e in t.st.queue ==> e in w.st.queue || QueuedUntouched(t, e)
    requires forall u :: u in t.st.uploaders ==> u in w.st.uploaders || UploaderAccounts(t, u)
    requires forall a :: a in t.st.answers ==> a in w.st.answers || AnswerTrue(t, a)
    ensures OffersInv(t)
  {
    forall i | 0 <= i < |t.st.queue| ensures QueuedUntouched(t, t.st.queue[i]) {
      if t.st.queue[i] in w.st.queue {
        assert QueuedUntouched(w, t.st.queue[i]);
      }
    }
    forall i | 0 <= i < |t.st.uploaders| ensures UploaderAccounts(t, t.st.uploaders[i]) {
      if t.st.uploaders[i] in w.st.uploaders {
        assert UploaderAccounts(w, t.st.uploaders[i]);
      }
    }
    forall i | 0 <= i < |t.st.answers| ensures AnswerTrue(t, t.st.answers[i]) {
      if t.st.answers[i] in w.st.answers {
        assert AnswerTrue(w, t.st.answers[i]);
      }
    }
    forall id: RequestId | id >= |t.issued| ensures Untouched(t, id) {
      assert Untouched(w, id);
    }
  }

  lemma QuietDispatch(w: World, listing: ActiveTraceDiff)
    requires Enabled(w, Dispatch(listing)) && QueuedUntouched(w, w.st.queue[0])
    ensures var t := Next(w, Dispatch(listing));
      && (forall e :: e in t.st.queue ==> e in w.st.queue || QueuedUntouched(t, e))
      && (forall u :: u in t.st.uploaders ==> u in w.st.uploaders || UploaderAccounts(t, u))
      && (forall a :: a in t.st.answers ==> a in w.st.answers || AnswerTrue(t, a))
  {
    hide Offered, Lost;
    var t, e := Next(w, Dispatch(listing)), w.st.queue[0];
    if e.TraceEvents? {
      assert Offered(w.offers, e.request) + e.events == w.issued[e.request].events;
    }
  }

  lemma DispatchKeepsOffers(w: World, listing: ActiveTraceDiff)
    requires OffersInv(w) && Enabled(w, Dispatch(listing))
    ensures OffersInv(Next(w, Dispatch(listing)))
  {
    var t, e := Next(w, Dispatch(listing)), w.st.queue[0];
    hide Offered, Lost;
    assert QueuedUntouched(w, e);
    QuietDispatch(w, listing);
    QuietStepKeepsOffers(w, t);
  }

  /** The request of an uploader in flight is nowhere else. */
  lemma UploaderAlone(w: World, i: nat)
    requires RequestsInv(w.st, w.issued) && i < |w.st.uploaders|
    ensures var s := w.st; var id := s.uploaders[i].request;
      && id < |w.issued|
      && (forall j :: 0 <= j < |s.queue| && s.queue[j].TraceEvents? ==> s.queue[j].request != id)
      && (forall j :: 0 <= j < |s.uploaders| && j != i ==> s.uploaders[j].request != id)
      && (forall j :: 0 <= j < |s.answers| ==> s.answers[j].request != id)
  {
    var s, id := w.st, w.st.uploaders[i].request;
    assert Places(s, w.issued, id) == if id < |w.issued| then 1 else 0;
    CountWithout(UploadsFor(id), s.uploaders, i);
    CountNone(AsksAs(id), s.queue);
    CountNone(Answering(id), s.answers);
    forall j | 0 <= j < |s.uploaders| && j != i ensures s.uploaders[j].request != id {
      if s.uploaders[j].request == id {
        CountTwo(UploadsFor(id), s.uploaders, i, j);
        assert false;
      }
    }
  }

  lemma OfferLeavesOthers(w: World, i: nat, room: bool, id: RequestId)
    requires Enabled(w, Upload(i, room)) && id != w.st.uploaders[i].request
    ensures var t := Next(w, Upload(i, room));
      Offered(t.offers, id) == Offered(w.offers, id) && Lost(t.offers, id) == Lost(w.offers, id)
  {
    var u := w.st.uploaders[i];
    hide Offered, Lost;
    OffersPush(w.offers, Offer(u.request, u.channel, u.pending[0], room), id);
    assert Offered(w.offers, id) + [] == Offered(w.offers, id);
  }

  lemma OfferAccounts(w: World, i: nat, room: bool)
    requires Enabled(w, Upload(i, room)) && UploaderAccounts(w, w.st.uploaders[i])
    ensures var t := Next(w, Upload(i, room)); UploaderAccounts(t, t.st.uploaders[i])
  {
    var u := w.st.uploaders[i];
    hide Offered, Lost;
    OffersPush(w.offers, Offer(u.request, u.channel, u.pending[0], room), u.request);
    var offered := Offered(w.offers, u.request);
    assert offered + [u.pending[0]] + u.pending[1..] == offered + u.pending;
  }

  lemma UploadKeepsOffers(w: World, i: nat, room: bool)
    requires OffersInv(w) && RequestsInv(w.st, w.issued) && Enabled(w, Upload(i, room))
    ensures OffersInv(Next(w, Upload(i, room)))
  {
    var t, u := Next(w, Upload(i, room)), w.st.uploaders[i];
    UploaderAlone(w, i);
    hide Offered, Lost, RequestsInv;
    forall id: RequestId | id != u.request
      ensures Offered(t.offers, id) == Offered(w.offers, id) && Lost(t.offers, id) == Lost(w.offers, id)
    {
      OfferLeavesOthers(w, i, room, id);
    }
    forall j | 0 <= j < |t.st.uploaders| ensures UploaderAccounts(t, t.st.uploaders[j]) {
      assert UploaderAccounts(w, w.st.uploaders[j]);
      if j == i {
        OfferAccounts(w, i, room);
      }
    }
    forall j | 0 <= j < |t.st.queue| ensures QueuedUntouched(t, t.st.queue[j]) {
      assert QueuedUntouched(w, w.st.queue[j]);
    }
    forall j | 0 <= j < |t.st.answers| ensures AnswerTrue(t, t.st.answers[j]) {
      assert AnswerTrue(w, w.st.answers[j]);
    }
    forall id: RequestId | id >= |t.issued| ensures Untouched(t, id) {
      assert Untouched(w, id);
    }
  }

  lemma FinishKeepsOffers(w: World, i: nat)
    requires OffersInv(w) && Enabled(w, Finish(i))
    ensures OffersInv(Next(w, Finish(i)))
  {
    var t, u := Next(w, Finish(i)), w.st.uploaders[i];
    hide Offered, Lost;
    assert UploaderAccounts(w, u);
    assert Offered(w.offers, u.request) + [] == Offered(w.offers, u.request);
    QuietStepKeepsOffers(w, t);
  }

  lemma PostKeepsOffers(w: World, step: Step)
    requires OffersInv(w) && Enabled(w, step) && (step.PostRegistration? || step.PostEvents?)
    ensures OffersInv(Next(w, step))
  {
    var t := Next(w, step);
    assert Untouched(w, |w.issued|);
    hide Offered, Lost;
    QuietStepKeepsOffers(w, t);
  }

  lemma StepKeepsOffers(w: World, step: Step)
    requires OffersInv(w) && RequestsInv(w.st, w.issued) && Enabled(w, step)
    ensures OffersInv(Next(w, step))
  {
    match step
    case Dispatch(listing) => DispatchKeepsOffers(w, listing);
    case Fail(_) => QuietStepKeepsOffers(w, Next(w, step));
    case Poll(_, _) => QuietStepKeepsOffers(w, Next(w, step));
    case Upload(i, room) => UploadKeepsOffers(w, i, room);
    case Finish(i) => FinishKeepsOffers(w, i);
    case _ => PostKeepsOffers(w, step);
  }

  lemma RequestsInvAt(run: seq<World>, steps: seq<Step>, i: nat)
    requires IsRun(run, steps) && i < |run|
    ensures RequestsInv(run[i].st, run[i].issued)
  {
    RunKeepsInv(run, steps, i);
  }

  lemma {:induction false} RunKeepsOffers(run: seq<World>, steps: seq<Step>, i: nat)
    requires IsRun(run, steps) && i < |run|
    ensures OffersInv(run[i])
  {
    if i == 0 {
    } else {
      hide RequestsInv, OffersInv, Enabled, Next;
      RunKeepsOffers(run, steps, i - 1);
      RequestsInvAt(run, steps, i - 1);
      StepKeepsOffers(run[i - 1], steps[i - 1]);
    }
  }

  // ---- What holds in every run ----

  /** However the uploads of several requests interleave with the main goroutine and with each other, an
      answer to a trace event request is true: refused requests had no event offered; of any other, each event was
      offered once and in order, and the reported drops are exactly those without room. */
  lemma AnswersAreTrue(run: seq<World>, steps: seq<Step>, i: nat, a: nat)
    requires IsRun(run, steps) && i < |run| && a < |run[i].st.answers|
    ensures AnswerTrue(run[i], run[i].st.answers[a])
  {
    RunKeepsOffers(run, steps, i);
  }

  /** Every event was offered to an open channel of the trace it was sent to. */
  lemma OfferedToOpenChannel(run: seq<World>, steps: seq<Step>, i: nat)
    requires IsRun(run, steps) && i < |steps| && steps[i].Upload?
    ensures var s := run[i].st; var u := s.uploaders[steps[i].uploader];
      && run[i + 1].offers == run[i].offers + [Offer(u.request, u.channel, u.pending[0], steps[i].room)]
      && u.channel < |s.channels| && s.channels[u.channel] == Channel(true, u.sid, u.tid)
  {
    RunKeepsInv(run, steps, i);
    var s := run[i].st;
    var u := s.uploaders[steps[i].uploader];
    assert Backed(s, u);
    assert OwnsChannel(u.sid, BookOf(s, u.sid), u.tid);
  }

  // ---- One upload on its own ----

  /** The passes of one upload loop, one after the other. */
  ghost function UploadAll(s: State, i: nat, room: seq<bool>): (t: State)
    requires i < |s.uploaders| && |room| <= |s.uploaders[i].pending|
    ensures i < |t.uploaders| && |t.uploaders[i].pending| == |s.uploaders[i].pending| - |room|
    decreases |room|
  {
    if room == [] then s else UploadAll(UploadOne(s, i, room[0]), i, room[1..])
  }

  ghost function NoRoom(): bool -> bool {
    (b: bool) => !b
  }

  ghost predicate OnlyUploads(s: State, t: State, i: nat, room: seq<bool>)
    requires i < |s.uploaders| && |room| <= |s.uploaders[i].pending|
  {
    var u := s.uploaders[i];
    t == s.(uploaders := s.uploaders[i :=
           u.(pending := u.pending[|room|..], drops := u.drops + Count(NoRoom(), room))])
  }

  /** The loop takes the events one by one and counts those for which there is no room. */
  lemma {:induction false} UploadAllCounts(s: State, i: nat, room: seq<bool>)
    requires i < |s.uploaders| && |room| <= |s.uploaders[i].pending|
    ensures OnlyUploads(s, UploadAll(s, i, room), i, room)
    decreases |room|
  {
    if room == [] {
      assert s.uploaders[i := s.uploaders[i]] == s.uploaders;
    } else {
      var t := UploadOne(s, i, room[0]);
      UploadAllCounts(t, i, room[1..]);
      assert s.uploaders[i].pending[1..][|room| - 1..] == s.uploaders[i].pending[|room|..];
    }
  }

  /** An upload that is begun and finished with the given outcomes answers with their number of drops, and posts
      the unregistration exactly if the request was the client's last. */
  lemma UploadReports(s: State, i: nat, room: seq<bool>)
    requires i < |s.uploaders| && |room| == |s.uploaders[i].pending| && s.uploaders[i].drops == 0
    ensures var u, drops := s.uploaders[i], Count(NoRoom(), room);
      UploadDone(UploadAll(s, i, room), i) ==
      s.(uploaders := Without(s.uploaders, i),
         answers := s.answers + [EventsAnswer(u.request, if drops > 0 then Unprocessable else Accepted, drops)],
         queue := if u.noMore then s.queue + [Unregister(u.client, u.sid, u.tid)] else s.queue)
  {
    UploadAllCounts(s, i, room);
    var t := UploadAll(s, i, room);
    assert Without(t.uploaders, i) == Without(s.uploaders, i);
  }

  /** The events for which there is room. */
  ghost function Kept(events: seq<TraceEvent>, room: seq<bool>): seq<TraceEvent>
    requires |room| == |events|
  {
    if events == [] then []
    else
      var n := |events| - 1;
      Kept(events[..n], room[..n]) + if room[n] then [events[n]] else []
  }

  lemma NoPass(s: State, i: nat)
    requires i < |s.uploaders|
    ensures OnlyUploads(s, s, i, []) && Kept([], []) == [] && Count(NoRoom(), []) == 0
  {
    assert s.uploaders[i := s.uploaders[i]] == s.uploaders;
  }

  /** One more pass of the loop: the event at its place is kept, or counted as dropped. */
  lemma OnePass(s: State, t: State, i: nat, room: seq<bool>, j: nat)
    requires i < |s.uploaders| && j < |room| <= |s.uploaders[i].pending| && OnlyUploads(s, t, i, room[..j])
    ensures i < |t.uploaders| && t.uploaders[i].pending != []
    ensures OnlyUploads(s, UploadOne(t, i, room[j]), i, room[..j + 1])
    ensures var event := s.uploaders[i].pending[j];
      && t.uploaders[i].pending[0] == event
      && Kept(s.uploaders[i].pending[..j + 1], room[..j + 1]) ==
         Kept(s.uploaders[i].pending[..j], room[..j]) + if room[j] then [event] else []
    ensures Count(NoRoom(), room[..j + 1]) == Count(NoRoom(), room[..j]) + if room[j] then 0 else 1
  {
    var events := s.uploaders[i].pending;
    assert events[..j + 1][..j] == events[..j] && room[..j + 1][..j] == room[..j];
    assert room[..j + 1] == room[..j] + [room[j]];
    CountPush(NoRoom(), room[..j], room[j]);
  }

  /** After the last pass, the response is that of the whole upload. */
  lemma UploadFinishes(s: State, t: State, i: nat, room: seq<bool>)
    requires i < |s.uploaders| && |room| == |s.uploaders[i].pending| && s.uploaders[i].drops == 0
    requires OnlyUploads(s, t, i, room)
    ensures t == UploadAll(s, i, room)
    ensures i < |t.uploaders| && t.uploaders[i].pending == []
    ensures var drops := Count(NoRoom(), room);
      UploadDone(t, i).answers == s.answers +
        [EventsAnswer(s.uploaders[i].request, if drops > 0 then Unprocessable else Accepted, drops)]
  {
    UploadAllCounts(s, i, room);
  }
}
