/** What the records of the traces hold: the options the cloud sent last, and exactly the clients that joined. */
module CloudRecords {
  import opened Options
  import opened CloudState
  import opened CloudProtocol
  import opened CloudInvariants

  /** The last entry for a trace. */
  ghost function LastFor(os: seq<LoggingOptions>, tid: TraceId): Option<LoggingOptions>
    decreases |os|
  {
    if os == [] then None
    else if os[|os| - 1].traceId == tid then Some(os[|os| - 1])
    else LastFor(os[..|os| - 1], tid)
  }

  lemma {:induction false} LastForIds(os: seq<LoggingOptions>, tid: TraceId)
    ensures LastFor(os, tid).Some? <==> tid in Ids(os)
    decreases |os|
  {
    if os == [] {
    } else {
      LastForIds(os[..|os| - 1], tid);
      assert os == os[..|os| - 1] + [os[|os| - 1]];
    }
  }

  // ---- One table ----

  /** The options and clients of a trace after some activations. */
  lemma {:induction false} ActivateAllRecords(sid: ServiceId, b: Book, os: seq<LoggingOptions>, tid: TraceId)
    ensures var c := ActivateAll(sid, b, os);
      && (tid in c.traces <==> tid in b.traces || LastFor(os, tid).Some?)
      && (tid in c.traces ==>
            && c.traces[tid].options ==
               (if LastFor(os, tid).Some? then LastFor(os, tid).value else b.traces[tid].options)
            && c.traces[tid].clients == (if tid in b.traces then b.traces[tid].clients else {}))
    decreases |os|
  {
    if os == [] {
    } else {
      ActivateAllRecords(sid, b, os[..|os| - 1], tid);
    }
  }

  /** What is left of a table has the options and clients it had. */
  ghost predicate Remains(b: Book, c: Book, tid: TraceId) {
    tid in c.traces ==>
      && tid in b.traces
      && c.traces[tid].options == b.traces[tid].options && c.traces[tid].clients == b.traces[tid].clients
  }

  lemma {:induction false} DeactivateAllRecords(b: Book, ts: seq<TraceId>, tid: TraceId)
    ensures Remains(b, DeactivateAll(b, ts), tid)
    decreases |ts|
  {
    if ts == [] {
    } else {
      DeactivateAllRecords(b, ts[..|ts| - 1], tid);
    }
  }

  lemma {:induction false} EnrollRecords(traces: Traces, client: ClientName, os: seq<LoggingOptions>, tid: TraceId)
    ensures var c := Enroll(traces, client, os);
      && (tid in c <==> tid in traces)
      && (tid in c ==>
            && c[tid].options == traces[tid].options
            && c[tid].clients == traces[tid].clients + if tid in Ids(os) then {client} else {})
    decreases |os|
  {
    if os == [] {
    } else {
      EnrollRecords(traces, client, os[..|os| - 1], tid);
      assert os == os[..|os| - 1] + [os[|os| - 1]];
      assert Ids(os) == Ids(os[..|os| - 1]) + {os[|os| - 1].traceId};
    }
  }

  ghost function Names(waiting: seq<Parked>): set<ClientName> {
    set p | p in waiting :: p.client
  }

  lemma {:induction false} EnrollAllRecords(traces: Traces, waiting: seq<Parked>, os: seq<LoggingOptions>, tid: TraceId)
    ensures var c := EnrollAll(traces, waiting, os);
      && (tid in c <==> tid in traces)
      && (tid in c ==>
            && c[tid].options == traces[tid].options
            && c[tid].clients == traces[tid].clients + if tid in Ids(os) then Names(waiting) else {})
    decreases |waiting|
  {
    if waiting == [] {
    } else {
      var before, last := waiting[..|waiting| - 1], waiting[|waiting| - 1];
      EnrollAllRecords(traces, before, os, tid);
      EnrollRecords(EnrollAll(traces, before, os), last.client, os, tid);
      assert waiting == before + [last];
      assert Names(waiting) == Names(before) + {last.client};
    }
  }

  // ---- One handler ----

  ghost function Clients(s: State, sid: ServiceId, tid: TraceId): set<ClientName> {
    if KnowsTrace(s, sid, tid) then s.services[sid].traces[tid].clients else {}
  }

  /** The clients that an answer tells about a trace of a service. */
  ghost predicate Tells(issued: seq<Issued>, a: Answer, sid: ServiceId, tid: TraceId) {
    a.TracesAnswer? && a.request < |issued| && issued[a.request].sid == sid && tid in Ids(a.diff.activated)
  }

  ghost function Told(issued: seq<Issued>, answers: seq<Answer>, sid: ServiceId, tid: TraceId): set<ClientName> {
    set a | a in answers && Tells(issued, a, sid, tid) :: issued[a.request].client
  }

  /** Handling an event gives a trace exactly the clients that were told about it or sent events for it, and
      takes away exactly one that unregistered from it. */
  ghost predicate ClientsFollow(s: State, e: Event, t: State, issued: seq<Issued>, sid: ServiceId, tid: TraceId)
    requires |s.answers| <= |t.answers|
  {
    KnowsTrace(t, sid, tid) ==>
      t.services[sid].traces[tid].clients ==
      (Clients(s, sid, tid) + Told(issued, t.answers[|s.answers|..], sid, tid)
       + if e.TraceEvents? && e.sid == sid && e.tid == tid then {e.client} else {})
      - if e.Unregister? && e.sid == sid && e.tid == tid then {e.client} else {}
  }

  /** It gives a trace the options of the last entry for it in a diff, and leaves those of all others. */
  ghost predicate OptionsFollow(s: State, e: Event, t: State, sid: ServiceId, tid: TraceId) {
    KnowsTrace(t, sid, tid) ==>
      var options := t.services[sid].traces[tid].options;
      if e.Changed? && e.sid == sid && LastFor(e.diff.activated, tid).Some? then
        options == LastFor(e.diff.activated, tid).value
      else
        KnowsTrace(s, sid, tid) && options == s.services[sid].traces[tid].options
  }

  lemma ToldByReplies(issued: seq<Issued>, waiting: seq<Parked>, diff: ActiveTraceDiff, sid: ServiceId, tid: TraceId)
    requires forall j :: 0 <= j < |waiting| ==>
      IsIssued(issued, waiting[j].request, Issued(sid, waiting[j].client, waiting[j].known, []))
    ensures Told(issued, Replies(waiting, diff), sid, tid) == if tid in Ids(diff.activated) then Names(waiting) else {}
  {
    var replies := Replies(waiting, diff);
    forall client | tid in Ids(diff.activated) && client in Names(waiting)
      ensures client in Told(issued, replies, sid, tid)
    {
      var j :| 0 <= j < |waiting| && waiting[j].client == client;
      assert replies[j] in replies && Tells(issued, replies[j], sid, tid);
    }
    forall client | client in Told(issued, replies, sid, tid)
      ensures tid in Ids(diff.activated) && client in Names(waiting)
    {
      var a :| a in replies && Tells(issued, a, sid, tid) && issued[a.request].client == client;
      var j :| 0 <= j < |replies| && replies[j] == a;
      assert waiting[j] in waiting;
    }
  }

  lemma ChangedRecords(s: State, e: Event, issued: seq<Issued>, tid: TraceId)
    requires e.Changed? && e.sid in s.services && RequestsParked(s, issued)
    ensures var t := HandleChanged(s, e.sid, e.diff);
      |s.answers| <= |t.answers| && ClientsFollow(s, e, t, issued, e.sid, tid) && OptionsFollow(s, e, t, e.sid, tid)
  {
    var sid, diff, waiting := e.sid, e.diff, s.services[e.sid].parked;
    var b, t := BookOf(s, e.sid), HandleChanged(s, e.sid, e.diff);
    var m := ActivateAll(sid, b, diff.activated);
    var c := DeactivateAll(m, diff.deactivated);
    ActivateAllRecords(sid, b, diff.activated, tid);
    DeactivateAllRecords(m, diff.deactivated, tid);
    EnrollAllRecords(c.traces, waiting, diff.activated, tid);
    assert t.answers[|s.answers|..] == Replies(waiting, diff);
    ToldByReplies(issued, waiting, diff, sid, tid);
  }

  lemma RegisterRecords(s: State, e: Event, listing: ActiveTraceDiff, issued: seq<Issued>, tid: TraceId)
    requires e.Register? && Handles(s, e, listing)
    requires IsIssued(issued, e.request, Issued(e.sid, e.client, Elements(e.known), []))
    ensures var t := Handle(s, e, listing);
      |s.answers| <= |t.answers| && ClientsFollow(s, e, t, issued, e.sid, tid) && OptionsFollow(s, e, t, e.sid, tid)
  {
    hide IsTraceDiff;
    var t := Handle(s, e, listing);
    EnrollRecords(EnsureRegistered(s, e.sid).services[e.sid].traces, e.client, listing.activated, tid);
    if Size(listing) != 0 {
      var a := TracesAnswer(e.request, listing);
      assert t.answers[|s.answers|..] == [a];
      assert Told(issued, [a], e.sid, tid) == if tid in Ids(listing.activated) then {e.client} else {} by {
        assert a in [a];
        assert Tells(issued, a, e.sid, tid) <==> tid in Ids(listing.activated);
      }
    } else {
      assert t.answers[|s.answers|..] == [];
    }
  }

  lemma OtherRecords(s: State, e: Event, listing: ActiveTraceDiff, issued: seq<Issued>, tid: TraceId)
    requires !e.Changed? && !e.Register? && Handles(s, e, listing)
    ensures var t := Handle(s, e, listing);
      |s.answers| <= |t.answers| && ClientsFollow(s, e, t, issued, e.sid, tid) && OptionsFollow(s, e, t, e.sid, tid)
  {
    var t := Handle(s, e, listing);
    forall a | a in t.answers[|s.answers|..] ensures !a.TracesAnswer? { }
    assert Told(issued, t.answers[|s.answers|..], e.sid, tid) == {};
  }

  lemma AnswersAboutOne(s: State, e: Event, listing: ActiveTraceDiff, issued: seq<Issued>)
    requires Handles(s, e, listing) && RequestsParked(s, issued)
    requires e.Register? ==> IsIssued(issued, e.request, Issued(e.sid, e.client, Elements(e.known), []))
    ensures var t := Handle(s, e, listing);
      && |s.answers| <= |t.answers|
      && forall a :: a in t.answers[|s.answers|..] && a.TracesAnswer? ==>
           a.request < |issued| && issued[a.request].sid == e.sid
  {
    hide IsTraceDiff, ChangedBook, EnrollAll, Enroll, Leave;
    var t := Handle(s, e, listing);
    if e.Changed? {
      var waiting := s.services[e.sid].parked;
      assert t.answers[|s.answers|..] == Replies(waiting, e.diff);
      forall j | 0 <= j < |waiting| ensures issued[waiting[j].request].sid == e.sid && waiting[j].request < |issued| {
        assert IsIssued(issued, waiting[j].request, Issued(e.sid, waiting[j].client, waiting[j].known, []));
      }
    }
  }

  /** A handler answers about, and works on the records of, one service. */
  lemma OtherServiceRecords(s: State, e: Event, listing: ActiveTraceDiff, issued: seq<Issued>, sid: ServiceId,
                            tid: TraceId)
    requires ChannelsInv(s) && Handles(s, e, listing) && RequestsParked(s, issued) && sid != e.sid
    requires e.Register? ==> IsIssued(issued, e.request, Issued(e.sid, e.client, Elements(e.known), []))
    ensures var t := Handle(s, e, listing);
      |s.answers| <= |t.answers| && ClientsFollow(s, e, t, issued, sid, tid) && OptionsFollow(s, e, t, sid, tid)
  {
    var t := Handle(s, e, listing);
    HandlerKeepsTable(s, e, listing, t);
    AnswersAboutOne(s, e, listing, issued);
    hide Handle, Handles, ChannelsInv;
    assert Told(issued, t.answers[|s.answers|..], sid, tid) == {};
  }

  lemma HandlerRecords(s: State, e: Event, listing: ActiveTraceDiff, issued: seq<Issued>, sid: ServiceId, tid: TraceId)
    requires ChannelsInv(s) && Handles(s, e, listing) && RequestsParked(s, issued)
    requires e.Register? ==> IsIssued(issued, e.request, Issued(e.sid, e.client, Elements(e.known), []))
    ensures var t := Handle(s, e, listing);
      |s.answers| <= |t.answers| && ClientsFollow(s, e, t, issued, sid, tid) && OptionsFollow(s, e, t, sid, tid)
  {
    if sid != e.sid {
      OtherServiceRecords(s, e, listing, issued, sid, tid);
    } else if e.Changed? {
      ChangedRecords(s, e, issued, tid);
    } else if e.Register? {
      RegisterRecords(s, e, listing, issued, tid);
    } else {
      OtherRecords(s, e, listing, issued, tid);
    }
  }

  // ---- Every run ----

  /** In every run, handling the head of the queue gives each trace still held the options of the last entry for
      it in a handled diff, else those it had, and exactly the clients that joined and did not leave. */
  lemma DispatchRecords(run: seq<World>, steps: seq<Step>, i: nat, sid: ServiceId, tid: TraceId)
    requires IsRun(run, steps) && i < |steps| && steps[i].Dispatch?
    ensures run[i].st.queue != [] && |run[i].st.answers| <= |run[i + 1].st.answers|
    ensures ClientsFollow(run[i].st, run[i].st.queue[0], run[i + 1].st, run[i].issued, sid, tid)
    ensures OptionsFollow(run[i].st, run[i].st.queue[0], run[i + 1].st, sid, tid)
  {
    RunKeepsInv(run, steps, i);
    var s := run[i].st;
    var r := s.(queue := s.queue[1..]);
    assert ChannelsInv(r) && RequestsParked(r, run[i].issued);
    HandlerRecords(r, s.queue[0], steps[i].listing, run[i].issued, sid, tid);
  }

  /** The other steps leave the records alone. */
  lemma OtherStepsKeepServices(run: seq<World>, steps: seq<Step>, i: nat)
    requires IsRun(run, steps) && i < |steps| && !steps[i].Dispatch?
    ensures run[i + 1].st.services == run[i].st.services
  {
  }

  /** The last options that the cloud sent for a trace in a diff that was handled. */
  ghost function LastSent(run: seq<World>, steps: seq<Step>, i: nat, sid: ServiceId, tid: TraceId)
    : Option<LoggingOptions>
    requires IsRun(run, steps) && i < |run|
    decreases i
  {
    if i == 0 then None
    else if steps[i - 1].Dispatch? && run[i - 1].st.queue != [] && run[i - 1].st.queue[0].Changed?
            && run[i - 1].st.queue[0].sid == sid
            && LastFor(run[i - 1].st.queue[0].diff.activated, tid).Some? then
      LastFor(run[i - 1].st.queue[0].diff.activated, tid)
    else LastSent(run, steps, i - 1, sid, tid)
  }

  /** A held trace has the options that the cloud sent last. */
  lemma {:induction false} OptionsAreLastSent(run: seq<World>, steps: seq<Step>, i: nat, sid: ServiceId, tid: TraceId)
    requires IsRun(run, steps) && i < |run| && KnowsTrace(run[i].st, sid, tid)
    ensures LastSent(run, steps, i, sid, tid) == Some(run[i].st.services[sid].traces[tid].options)
    decreases i
  {
    if i == 0 {
      assert false;
    } else {
      if steps[i - 1].Dispatch? {
        DispatchRecords(run, steps, i - 1, sid, tid);
      } else {
        OtherStepsKeepServices(run, steps, i - 1);
      }
      hide IsRun;
      if KnowsTrace(run[i - 1].st, sid, tid) {
        OptionsAreLastSent(run, steps, i - 1, sid, tid);
      }
    }
  }

  /** A registration handled in a run is answered at once exactly if what the client knows differs from the
      active set; the answer then has, for each trace the client did not know, the options the cloud sent last. */
  lemma RegistrationAnswered(run: seq<World>, steps: seq<Step>, i: nat)
    requires IsRun(run, steps) && i < |steps| && steps[i].Dispatch? && run[i].st.queue != []
    requires run[i].st.queue[0].Register?
    ensures var s, t, e := run[i].st, run[i + 1].st, run[i].st.queue[0];
      var active := if e.sid in s.services then Active(s.services[e.sid].traces) else {};
      if Elements(e.known) == active then t.answers == s.answers
      else
        && |t.answers| == |s.answers| + 1 && s.answers <= t.answers
        && var a := t.answers[|s.answers|];
           && a.TracesAnswer? && a.request == e.request
           && Ids(a.diff.activated) == active - Elements(e.known)
           && Elements(a.diff.deactivated) == Elements(e.known) - active
           && forall o :: o in a.diff.activated ==> LastSent(run, steps, i, e.sid, o.traceId) == Some(o)
  {
    var s, t, e := run[i].st, run[i + 1].st, run[i].st.queue[0];
    var r := s.(queue := s.queue[1..]);
    var traces := EnsureRegistered(r, e.sid).services[e.sid].traces;
    var listing := steps[i].listing;
    DiffReconciles(traces, Elements(e.known), listing);
    assert Elements(e.known) == Active(traces) <==> Size(listing) == 0;
    forall o | o in listing.activated ensures LastSent(run, steps, i, e.sid, o.traceId) == Some(o) {
      assert KnowsTrace(s, e.sid, o.traceId);
      OptionsAreLastSent(run, steps, i, e.sid, o.traceId);
    }
  }

  /** Trace events handled in a run are refused exactly if the trace is not held; otherwise one uploader takes all of
      them to the channel of the trace, knowing whether they are the client's last. */
  lemma EventsHandled(run: seq<World>, steps: seq<Step>, i: nat)
    requires IsRun(run, steps) && i < |steps| && steps[i].Dispatch? && run[i].st.queue != []
    requires run[i].st.queue[0].TraceEvents?
    ensures var s, t, e := run[i].st, run[i + 1].st, run[i].st.queue[0];
      if !KnowsTrace(s, e.sid, e.tid) then
        t.answers == s.answers + [EventsAnswer(e.request, BadRequest, 0)] && t.uploaders == s.uploaders
      else
        && t.answers == s.answers
        && t.uploaders == s.uploaders + [Uploader(e.request, e.client, e.sid, e.tid,
                                                  s.services[e.sid].traces[e.tid].channel, e.events, 0, e.noMore)]
  {
  }
}
