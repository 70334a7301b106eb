/** What holds in every run of the cloud client. */
module CloudTheorems {
  import opened Counting
  import opened CloudState
  import opened CloudProtocol
  import opened CloudInvariants

  // ---- Polling ----

  /** In every reachable state each registered service has exactly one poll obligation:
      one queued long-poll or changed-traces event, or one poll in flight. */
  lemma OnePollObligation(run: seq<World>, steps: seq<Step>, i: nat, sid: ServiceId)
    requires IsRun(run, steps) && i < |run|
    ensures Tokens(run[i].st, sid) == if sid in run[i].st.services then 1 else 0
  {
    RunKeepsInv(run, steps, i);
  }

  /** The diff of a queued changed-traces event was fetched by an earlier poll. */
  ghost predicate FetchedBy(run: seq<World>, steps: seq<Step>, i: nat, e: Event, j: nat)
    requires IsRun(run, steps) && i <= |steps| && e.Changed?
  {
    && j < i && steps[j].Poll?
    && Enabled(run[j], steps[j])
    && var p := run[j].st.pollers[steps[j].poller];
       e.sid == p.sid && e.basis == p.snapshot && e.diff == steps[j].diff
  }

  lemma {:induction false} DiffWasFetched(run: seq<World>, steps: seq<Step>, i: nat, q: nat) returns (j: nat)
    requires IsRun(run, steps) && i < |run| && q < |run[i].st.queue| && run[i].st.queue[q].Changed?
    ensures FetchedBy(run, steps, i, run[i].st.queue[q], j)
  {
    var s, t, step := run[i - 1].st, run[i].st, steps[i - 1];
    if step.Dispatch? {
      HandlerPosts(s.(queue := s.queue[1..]), s.queue[0], step.listing);
    }
    hide Handle, Handles;
    if step.Poll? && q == |s.queue| {
      j := i - 1;
    } else {
      var q' := if step.Dispatch? then q + 1 else q;
      assert t.queue[q] == s.queue[q'];
      j := DiffWasFetched(run, steps, i - 1, q');
    }
  }

  /** The cloud answered poll number j with the difference between its set and the snapshot sent. */
  ghost predicate CloudAnswered(run: seq<World>, steps: seq<Step>, j: nat, cloud: set<TraceId>)
    requires IsRun(run, steps) && j < |steps| && steps[j].Poll? && Enabled(run[j], steps[j])
  {
    var snapshot := run[j].st.pollers[steps[j].poller].snapshot;
    && Ids(steps[j].diff.activated) == cloud - snapshot
    && Elements(steps[j].diff.deactivated) == snapshot - cloud
  }

  ghost predicate CloudFaithful(run: seq<World>, steps: seq<Step>, clouds: seq<set<TraceId>>)
    requires IsRun(run, steps) && |clouds| == |steps|
  {
    forall j :: 0 <= j < |steps| && steps[j].Poll? ==>
      Enabled(run[j], steps[j]) && CloudAnswered(run, steps, j, clouds[j])
  }

  /** When a diff is handled, the daemon's active set becomes the set the cloud had when it
      answered that poll, every client that was parked is answered with a diff that
      takes it to that same set, and nobody is left parked. */
  lemma ThreeWayAgreement(run: seq<World>, steps: seq<Step>, clouds: seq<set<TraceId>>, i: nat) returns (j: nat)
    requires IsRun(run, steps) && |clouds| == |steps| && CloudFaithful(run, steps, clouds)
    requires i < |steps| && steps[i].Dispatch? && run[i].st.queue != [] && run[i].st.queue[0].Changed?
    ensures FetchedBy(run, steps, i, run[i].st.queue[0], j)
    ensures var e := run[i].st.queue[0];
      && e.sid in run[i].st.services && e.sid in run[i + 1].st.services
      && Active(run[i + 1].st.services[e.sid].traces) == clouds[j]
      && run[i + 1].st.services[e.sid].parked == []
      && forall k :: 0 <= k < |run[i].st.services[e.sid].parked| ==>
           var p := run[i].st.services[e.sid].parked[k];
           && TracesAnswer(p.request, e.diff) in run[i + 1].st.answers
           && Apply(p.known, e.diff) == clouds[j]
  {
    hide OneToken, UploadersInv, ContractInv, RequestsInv, TableInv;
    RunKeepsInv(run, steps, i);
    var s, e := run[i].st, run[i].st.queue[0];
    j := DiffWasFetched(run, steps, i, 0);
    assert ActiveIs(s, e.sid, e.basis);
    assert CloudAnswered(run, steps, j, clouds[j]);
    var r := s.(queue := s.queue[1..]);
    assert ChannelsInv(r);
    ChangedAppliesDiff(r, e.sid, e.diff);
    assert Apply(e.basis, e.diff) == clouds[j];
    var waiting := s.services[e.sid].parked;
    forall k | 0 <= k < |waiting|
      ensures TracesAnswer(waiting[k].request, e.diff) in run[i + 1].st.answers
      ensures Apply(waiting[k].known, e.diff) == clouds[j]
    {
      assert Replies(waiting, e.diff)[k] == TracesAnswer(waiting[k].request, e.diff);
      assert run[i + 1].st.answers[|s.answers| + k] == Replies(waiting, e.diff)[k];
      assert waiting[k].known == Active(s.services[e.sid].traces);
    }
  }

  /** Nothing but a changed-traces event of the service moves its active set. */
  lemma ActiveFrozen(run: seq<World>, steps: seq<Step>, i: nat, sid: ServiceId)
    requires IsRun(run, steps) && i < |steps| && sid in run[i].st.services
    requires !(steps[i].Dispatch? && run[i].st.queue[0].Changed? && run[i].st.queue[0].sid == sid)
    ensures sid in run[i + 1].st.services
    ensures Active(run[i + 1].st.services[sid].traces) == Active(run[i].st.services[sid].traces)
  {
    hide OneToken, Snapshots, ParkedAgree, UploadersInv, ContractInv, RequestsInv, Handles, Handle, TableInv;
    RunKeepsInv(run, steps, i);
    var s := run[i].st;
    if steps[i].Dispatch? {
      var r := s.(queue := s.queue[1..]);
      assert ChannelsInv(r);
      OtherEventsKeepActive(r, s.queue[0], steps[i].listing, sid);
    }
  }

  // ---- Registrations ----

  /** What the receiver of answer number a listed, and the table it was answered from. */
  ghost predicate Reconciled(t: State, issued: seq<Issued>, answer: Answer)
    requires answer.TracesAnswer?
  {
    && answer.request < |issued|
    && var what := issued[answer.request];
       && what.sid in t.services
       && Apply(what.known, answer.diff) == Active(t.services[what.sid].traces)
       && forall tid :: tid in Ids(answer.diff.activated) && tid in t.services[what.sid].traces ==>
            what.client in t.services[what.sid].traces[tid].clients
  }

  lemma ChangedReconciles(s: State, issued: seq<Issued>, sid: ServiceId, diff: ActiveTraceDiff, k: nat)
    requires ChannelsInv(s) && ParkedAgree(s) && RequestsParked(s, issued)
    requires sid in s.services && k < |s.services[sid].parked|
    ensures Reconciled(HandleChanged(s, sid, diff), issued, TracesAnswer(s.services[sid].parked[k].request, diff))
  {
    var p := s.services[sid].parked[k];
    assert IsIssued(issued, p.request, Issued(sid, p.client, p.known, []));
    assert p.known == Active(s.services[sid].traces);
    ChangedAppliesDiff(s, sid, diff);
    EnrollAllSteps(sid, ChangedBook(sid, BookOf(s, sid), diff), s.services[sid].parked, diff.activated);
  }

  lemma RegisterReconciles(s: State, issued: seq<Issued>, e: Event, listing: ActiveTraceDiff)
    requires e.Register? && Handles(s, e, listing)
    requires IsIssued(issued, e.request, Issued(e.sid, e.client, Elements(e.known), []))
    requires Size(listing) != 0
    ensures Reconciled(Handle(s, e, listing), issued, TracesAnswer(e.request, listing))
  {
    var before := EnsureRegistered(s, e.sid).services[e.sid].traces;
    DiffReconciles(before, Elements(e.known), listing);
    EnrollSteps(e.sid, Book(before, s.channels), e.client, listing.activated);
  }

  lemma HandlerReconciles(s: State, issued: seq<Issued>, e: Event, listing: ActiveTraceDiff, a: nat)
    requires ChannelsInv(s) && ParkedAgree(s) && RequestsParked(s, issued) && Handles(s, e, listing)
    requires e.Register? ==> IsIssued(issued, e.request, Issued(e.sid, e.client, Elements(e.known), []))
    requires |s.answers| <= a < |Handle(s, e, listing).answers| && Handle(s, e, listing).answers[a].TracesAnswer?
    ensures Reconciled(Handle(s, e, listing), issued, Handle(s, e, listing).answers[a])
  {
    match e
    case LongPoll(_) =>
    case Changed(sid, diff, _) =>
      var waiting := s.services[sid].parked;
      assert HandleChanged(s, sid, diff).answers[a] == Replies(waiting, diff)[a - |s.answers|];
      ChangedReconciles(s, issued, sid, diff, a - |s.answers|);
    case Register(_, _, _, _) => RegisterReconciles(s, issued, e, listing);
    case TraceEvents(_, _, _, _, _, _) =>
    case Unregister(_, _, _) =>
  }

  /** Whichever way a registration is answered, at once or when a diff arrives, applying
      the answer to the traces it listed gives the active set of that moment, even
      when a trace is both activated and deactivated in one diff. The client is
      registered with every trace activated in the answer that the daemon still holds. */
  lemma AnswerReconciles(run: seq<World>, steps: seq<Step>, i: nat, a: nat)
    requires IsRun(run, steps) && i < |steps|
    requires |run[i].st.answers| <= a < |run[i + 1].st.answers| && run[i + 1].st.answers[a].TracesAnswer?
    ensures Reconciled(run[i + 1].st, run[i].issued, run[i + 1].st.answers[a])
  {
    RunKeepsInv(run, steps, i);
    var s := run[i].st;
    assert steps[i].Dispatch?;
    HandlerReconciles(s.(queue := s.queue[1..]), run[i].issued, s.queue[0], steps[i].listing, a);
  }

  /** No request is ever answered twice, and one that is parked, queued or uploading is not answered. */
  lemma AnsweredOnce(run: seq<World>, steps: seq<Step>, i: nat, a: nat, b: nat)
    requires IsRun(run, steps) && i < |run|
    requires a < b < |run[i].st.answers|
    ensures run[i].st.answers[a].request != run[i].st.answers[b].request
  {
    RunKeepsInv(run, steps, i);
    var id := run[i].st.answers[a].request;
    assert Places(run[i].st, run[i].issued, id) <= 1;
    if run[i].st.answers[b].request == id {
      CountTwo(Answering(id), run[i].st.answers, a, b);
      assert false;
    }
  }

  /** No request is lost: each one issued is queued, uploading, parked or answered, in exactly one place. */
  lemma RequestConserved(run: seq<World>, steps: seq<Step>, i: nat, id: RequestId)
    requires IsRun(run, steps) && i < |run|
    ensures Places(run[i].st, run[i].issued, id) == if id < |run[i].issued| then 1 else 0
  {
    RunKeepsInv(run, steps, i);
  }

  // ---- Channels ----

  /** A trace event channel is open exactly while its trace is in the table of its service,
      and a trace stays in the table only while it is active or has clients. */
  lemma OpenIffRetained(run: seq<World>, steps: seq<Step>, i: nat, c: nat)
    requires IsRun(run, steps) && i < |run| && c < |run[i].st.channels|
    ensures var ch := run[i].st.channels[c];
      ch.open <==> KnowsTrace(run[i].st, ch.sid, ch.tid) && run[i].st.services[ch.sid].traces[ch.tid].channel == c
    ensures var ch := run[i].st.channels[c];
      ch.open ==> var t := run[i].st.services[ch.sid].traces[ch.tid]; t.active || t.clients != {}
  {
    RunKeepsInv(run, steps, i);
    var s, ch := run[i].st, run[i].st.channels[c];
    if ch.open || KnowsTrace(s, ch.sid, ch.tid) {
      assert TableInv(ch.sid, BookOf(s, ch.sid));
      if KnowsTrace(s, ch.sid, ch.tid) {
        assert OwnsChannel(ch.sid, BookOf(s, ch.sid), ch.tid);
      }
    }
  }

  ghost predicate Outlives(s: State, t: State, c: nat) {
    && c < |s.channels| && c < |t.channels|
    && (t.channels[c] == s.channels[c]
        || (s.channels[c].open && t.channels[c] == s.channels[c].(open := false)))
  }

  lemma StepKeepsClosed(w: World, step: Step, c: nat)
    requires Inv(w) && Enabled(w, step) && c < |w.st.channels|
    ensures Outlives(w.st, Next(w, step).st, c)
  {
    if step.Dispatch? {
      var r := w.st.(queue := w.st.queue[1..]);
      HandlerKeepsTable(r, w.st.queue[0], step.listing, Next(w, step).st);
    }
  }

  /** A closed channel is never opened or closed again, and a channel never changes hands. */
  lemma {:induction false} ClosedForGood(run: seq<World>, steps: seq<Step>, i: nat, j: nat, c: nat)
    requires IsRun(run, steps) && i <= j < |run| && c < |run[i].st.channels|
    ensures Outlives(run[i].st, run[j].st, c)
    decreases j
  {
    hide Inv, Enabled, Next;
    if i == j {
    } else {
      ClosedForGood(run, steps, i, j - 1, c);
      RunKeepsInv(run, steps, j - 1);
      StepKeepsClosed(run[j - 1], steps[j - 1], c);
    }
  }

  /** No uploader sends on a closed channel. */
  lemma UploadersSendOnOpenChannels(run: seq<World>, steps: seq<Step>, i: nat, u: nat)
    requires IsRun(run, steps) && i < |run| && u < |run[i].st.uploaders|
    ensures run[i].st.uploaders[u].channel < |run[i].st.channels|
    ensures run[i].st.channels[run[i].st.uploaders[u].channel]
         == Channel(true, run[i].st.uploaders[u].sid, run[i].st.uploaders[u].tid)
  {
    RunKeepsInv(run, steps, i);
    var s, up := run[i].st, run[i].st.uploaders[u];
    assert Backed(s, up);
    assert OwnsChannel(up.sid, BookOf(s, up.sid), up.tid);
  }

  // ---- The main goroutine never fails ----

  lemma {:induction false} Enumerate(ts: set<TraceId>) returns (list: seq<TraceId>)
    ensures Elements(list) == ts
    ensures forall i, j :: 0 <= i < j < |list| ==> list[i] != list[j]
  {
    if ts == {} {
      list := [];
    } else {
      var t :| t in ts;
      var rest := Enumerate(ts - {t});
      list := rest + [t];
      assert Elements(list) == Elements(rest) + {t};
      assert forall i :: 0 <= i < |rest| ==> rest[i] in Elements(rest);
    }
  }

  lemma ListDiff(traces: Traces, known: set<TraceId>) returns (diff: ActiveTraceDiff)
    requires forall t :: t in traces ==> traces[t].options.traceId == t
    ensures IsTraceDiff(traces, known, diff)
  {
    var added := Enumerate(Active(traces) - known);
    var gone := Enumerate(known - Active(traces));
    assert forall i :: 0 <= i < |added| ==> added[i] in Elements(added);
    var options := seq(|added|, i requires 0 <= i < |added| => traces[added[i]].options);
    diff := ActiveTraceDiff(options, gone);
    forall t | t in Elements(added) ensures t in Ids(options) {
      var i :| 0 <= i < |added| && added[i] == t;
      assert options[i] in options && options[i].traceId == t;
    }
  }

  /** The head of the queue can always be handled: no nil service is dereferenced, whatever the event. */
  lemma HeadCanBeHandled(run: seq<World>, steps: seq<Step>, i: nat)
    requires IsRun(run, steps) && i < |run| && run[i].st.queue != []
    ensures exists listing :: Enabled(run[i], Dispatch(listing))
  {
    RunKeepsInv(run, steps, i);
    InvReadiesHead(run[i]);
    hide Inv;
    var s, e := run[i].st, run[i].st.queue[0];
    var listing := ActiveTraceDiff([], []);
    if e.Register? {
      var r := EnsureRegistered(s.(queue := s.queue[1..]), e.sid);
      assert e.sid in s.services ==> TableInv(e.sid, BookOf(s, e.sid));
      listing := ListDiff(r.services[e.sid].traces, Elements(e.known));
    }
    assert Enabled(run[i], Dispatch(listing));
  }
}
