/** From a queued witness to an uploaded report: plugins, obfuscation, conversion, batching. */
module ReportBuffer {
  import opened Counting
  import opened WitnessPairing
  import opened Options

  /** A converted witness; `size` is the length of its encoding. */
  type Encoding(==, !new)
  type Connection(==, !new)

  datatype Report =
    | WitnessReport(source: Info, encoding: Encoding, size: nat)
    | ConnectionReport(connection: Connection)

  datatype Transformed = Refused | Passed(proto: Option<Method>)

  /** What a collector is configured with. Plugins rewrite a method or refuse it; conversion may fail.
      `delivers` says of each upload, by its number, whether it gets through. */
  datatype Pipeline = Pipeline(
    plugins: seq<Option<Method> -> Transformed>,
    obfuscate: Option<Method> -> Option<Method>,
    convert: Info -> Option<(Encoding, nat)>,
    maxWitnessSize: Option<int>,
    sizeInBytes: seq<Report> -> nat,
    maxSize: nat,
    delivers: nat -> bool)

  datatype Fate = Rejected | Unconvertible | Oversized | Accepted(report: Report)

  function RunPlugins(plugins: seq<Option<Method> -> Transformed>, proto: Option<Method>): Transformed
    decreases |plugins|
  {
    if plugins == [] then Passed(proto)
    else
      var before := RunPlugins(plugins[..|plugins| - 1], proto);
      if before.Refused? then Refused else plugins[|plugins| - 1](before.proto)
  }

  function Converted(p: Pipeline, w: Info): Fate {
    match p.convert(w)
    case None => Unconvertible
    case Some((encoding, size)) =>
      if p.maxWitnessSize.Some? && size > p.maxWitnessSize.value then Oversized
      else Accepted(WitnessReport(w, encoding, size))
  }

  /** What becomes of a queued witness. */
  function Judge(p: Pipeline, w: Info): Fate {
    match RunPlugins(p.plugins, w.proto)
    case Refused => Rejected
    case Passed(proto) => Converted(p, w.(proto := p.obfuscate(proto)))
  }

  /** One attempt to send a batch to the back end. */
  datatype Upload = Upload(reports: seq<Report>, delivered: bool)

  /** The counters are of witnesses. */
  datatype Buffer = Buffer(
    pending: seq<Report>,
    uploads: seq<Upload>,
    rejected: nat,
    unconvertible: nat,
    oversized: nat)

  const EmptyBuffer := Buffer([], [], 0, 0, 0)

  /** Nothing is sent for an empty buffer. The buffer is empty afterwards even if the upload failed. */
  function Flush(p: Pipeline, b: Buffer): Buffer {
    if b.pending == [] then b
    else b.(pending := [], uploads := b.uploads + [Upload(b.pending, p.delivers(|b.uploads|))])
  }

  function Settle(p: Pipeline, b: Buffer): Buffer {
    if p.sizeInBytes(b.pending) >= p.maxSize then Flush(p, b) else b
  }

  datatype Input = Queue(info: Info) | Connect(connection: Connection) | Timer

  /** One input to the batch: a witness, a TCP or TLS connection report, or the flush timer. The
      batch is flushed when it says that it is full. */
  function Take(p: Pipeline, b: Buffer, input: Input): Buffer {
    match input
    case Timer => Flush(p, b)
    case Connect(connection) => Settle(p, b.(pending := b.pending + [ConnectionReport(connection)]))
    case Queue(w) =>
      match Judge(p, w)
      case Rejected => b.(rejected := b.rejected + 1)
      case Unconvertible => Settle(p, b.(unconvertible := b.unconvertible + 1))
      case Oversized => Settle(p, b.(oversized := b.oversized + 1))
      case Accepted(report) => Settle(p, b.(pending := b.pending + [report]))
  }

  function TakeAll(p: Pipeline, inputs: seq<Input>): Buffer
    decreases |inputs|
  {
    if inputs == [] then EmptyBuffer else Take(p, TakeAll(p, inputs[..|inputs| - 1]), inputs[|inputs| - 1])
  }

  function Close(p: Pipeline, b: Buffer): Buffer {
    Flush(p, b)
  }

  // ---- Every witness meets exactly one fate ----

  function Uploaded(uploads: seq<Upload>): seq<Report> {
    if uploads == [] then [] else Uploaded(uploads[..|uploads| - 1]) + uploads[|uploads| - 1].reports
  }

  /** The reports of the batches that got through, or of those that did not. */
  function Sent(uploads: seq<Upload>, delivered: bool): seq<Report> {
    if uploads == [] then []
    else
      var last := uploads[|uploads| - 1];
      Sent(uploads[..|uploads| - 1], delivered) + if last.delivered == delivered then last.reports else []
  }

  /** The reports that one input ought to add. */
  function DueFor(p: Pipeline, input: Input): seq<Report> {
    match input
    case Timer => []
    case Connect(connection) => [ConnectionReport(connection)]
    case Queue(w) => if Judge(p, w).Accepted? then [Judge(p, w).report] else []
  }

  /** The reports that ought to be uploaded, in the order of the inputs. */
  function Due(p: Pipeline, inputs: seq<Input>): seq<Report>
    decreases |inputs|
  {
    if inputs == [] then [] else Due(p, inputs[..|inputs| - 1]) + DueFor(p, inputs[|inputs| - 1])
  }

  ghost function Meets(p: Pipeline, fate: Fate): Input -> bool {
    (i: Input) => i.Queue? && Judge(p, i.info) == fate
  }

  lemma FlushKeepsReports(p: Pipeline, b: Buffer)
    ensures Uploaded(Flush(p, b).uploads) + Flush(p, b).pending == Uploaded(b.uploads) + b.pending
    ensures Flush(p, b).pending == []
  {
    if b.pending != [] {
      var u := Upload(b.pending, p.delivers(|b.uploads|));
      assert (b.uploads + [u])[..|b.uploads|] == b.uploads;
    }
  }

  /** A batch gets through or fails as a whole: no report is both, and none is neither. */
  lemma {:induction false} SentOrFailed(f: Report -> bool, uploads: seq<Upload>)
    ensures Count(f, Uploaded(uploads)) == Count(f, Sent(uploads, true)) + Count(f, Sent(uploads, false))
  {
    if uploads == [] {
    } else {
      var before, last := uploads[..|uploads| - 1], uploads[|uploads| - 1];
      SentOrFailed(f, before);
      CountAppend(f, Uploaded(before), last.reports);
      CountAppend(f, Sent(before, last.delivered), last.reports);
      assert Sent(before, !last.delivered) + [] == Sent(before, !last.delivered);
    }
  }

  ghost predicate Accounts(p: Pipeline, inputs: seq<Input>, b: Buffer) {
    && Uploaded(b.uploads) + b.pending == Due(p, inputs)
    && b.rejected == Count(Meets(p, Rejected), inputs)
    && b.unconvertible == Count(Meets(p, Unconvertible), inputs)
    && b.oversized == Count(Meets(p, Oversized), inputs)
  }

  lemma SettleKeepsReports(p: Pipeline, b: Buffer)
    ensures var c := Settle(p, b);
      && Uploaded(c.uploads) + c.pending == Uploaded(b.uploads) + b.pending
      && (c.rejected, c.unconvertible, c.oversized) == (b.rejected, b.unconvertible, b.oversized)
  {
    FlushKeepsReports(p, b);
  }

  lemma DueOfPush(p: Pipeline, inputs: seq<Input>, input: Input)
    ensures Due(p, inputs + [input]) == Due(p, inputs) + DueFor(p, input)
  {
    assert (inputs + [input])[..|inputs|] == inputs;
  }

  lemma FlushKeepsCounts(p: Pipeline, b: Buffer)
    ensures var c := Flush(p, b);
      (c.rejected, c.unconvertible, c.oversized) == (b.rejected, b.unconvertible, b.oversized)
  {
  }

  lemma PushThenSettle(p: Pipeline, b: Buffer, report: Report)
    ensures var c := Settle(p, b.(pending := b.pending + [report]));
      && Uploaded(c.uploads) + c.pending == Uploaded(b.uploads) + b.pending + [report]
      && (c.rejected, c.unconvertible, c.oversized) == (b.rejected, b.unconvertible, b.oversized)
  {
    hide Settle, Flush, Uploaded;
    SettleKeepsReports(p, b.(pending := b.pending + [report]));
    assert Uploaded(b.uploads) + (b.pending + [report]) == Uploaded(b.uploads) + b.pending + [report];
  }

  lemma TakeKeepsAccounts(p: Pipeline, inputs: seq<Input>, b: Buffer, input: Input)
    requires Accounts(p, inputs, b)
    ensures Accounts(p, inputs + [input], Take(p, b, input))
  {
    hide Judge, Settle, Flush, Uploaded, Due, Count;
    CountPush(Meets(p, Rejected), inputs, input);
    CountPush(Meets(p, Unconvertible), inputs, input);
    CountPush(Meets(p, Oversized), inputs, input);
    DueOfPush(p, inputs, input);
    assert Due(p, inputs) + [] == Due(p, inputs);
    match input
    case Timer =>
      FlushKeepsReports(p, b);
      FlushKeepsCounts(p, b);
    case Connect(connection) =>
      PushThenSettle(p, b, ConnectionReport(connection));
    case Queue(w) =>
      match Judge(p, w)
      case Rejected =>
      case Unconvertible => SettleKeepsReports(p, b.(unconvertible := b.unconvertible + 1));
      case Oversized => SettleKeepsReports(p, b.(oversized := b.oversized + 1));
      case Accepted(report) => PushThenSettle(p, b, report);
  }

  lemma {:induction false} AllAccounted(p: Pipeline, inputs: seq<Input>)
    ensures Accounts(p, inputs, TakeAll(p, inputs))
    decreases |inputs|
  {
    if inputs == [] {
    } else {
      var before := inputs[..|inputs| - 1];
      AllAccounted(p, before);
      TakeKeepsAccounts(p, before, TakeAll(p, before), inputs[|inputs| - 1]);
      assert inputs == before + [inputs[|inputs| - 1]];
    }
  }

  /** After closing, the buffer is empty; what was sent is exactly the accepted witnesses and the
      connection reports, each in one batch and in order, and every other witness was counted as
      rejected by a plugin, failed in conversion, or oversized. */
  lemma ClosedAccounts(p: Pipeline, inputs: seq<Input>)
    ensures var b := Close(p, TakeAll(p, inputs));
      && b.pending == []
      && Uploaded(b.uploads) == Due(p, inputs)
      && b.rejected == Count(Meets(p, Rejected), inputs)
      && b.unconvertible == Count(Meets(p, Unconvertible), inputs)
      && b.oversized == Count(Meets(p, Oversized), inputs)
  {
    AllAccounted(p, inputs);
    var b := TakeAll(p, inputs);
    hide TakeAll, Uploaded, Due, Judge, Count, Flush;
    FlushKeepsReports(p, b);
    FlushKeepsCounts(p, b);
    assert Uploaded(Close(p, b).uploads) + [] == Uploaded(Close(p, b).uploads);
  }

  ghost function IsWitness(): Report -> bool {
    (r: Report) => r.WitnessReport?
  }

  ghost function IsQueued(): Input -> bool {
    (i: Input) => i.Queue?
  }

  lemma DueCount(p: Pipeline, inputs: seq<Input>, input: Input, f: Report -> bool)
    ensures Count(f, Due(p, inputs + [input])) ==
            Count(f, Due(p, inputs)) + if DueFor(p, input) != [] && f(DueFor(p, input)[0]) then 1 else 0
  {
    hide Judge, Due;
    DueOfPush(p, inputs, input);
    var due := Due(p, inputs);
    if DueFor(p, input) == [] {
      assert due + [] == due;
    } else {
      assert DueFor(p, input) == [DueFor(p, input)[0]];
      CountPush(f, due, DueFor(p, input)[0]);
    }
  }

  lemma {:induction false} DueAddsUp(p: Pipeline, inputs: seq<Input>)
    ensures Count(IsWitness(), Due(p, inputs)) + Count(Meets(p, Rejected), inputs)
          + Count(Meets(p, Unconvertible), inputs) + Count(Meets(p, Oversized), inputs)
         == Count(IsQueued(), inputs)
    decreases |inputs|
  {
    if inputs == [] {
    } else {
      var before, last := inputs[..|inputs| - 1], inputs[|inputs| - 1];
      DueAddsUp(p, before);
      assert inputs == before + [last];
      CountPush(Meets(p, Rejected), before, last);
      CountPush(Meets(p, Unconvertible), before, last);
      CountPush(Meets(p, Oversized), before, last);
      CountPush(IsQueued(), before, last);
      DueCount(p, before, last, IsWitness());
    }
  }

  /** The fates add up: every queued witness was delivered, or lost with a batch whose upload failed, or
      counted under one of the three refusals; none is lost otherwise, and none is dealt with twice. */
  lemma FatesAddUp(p: Pipeline, inputs: seq<Input>)
    ensures var b := Close(p, TakeAll(p, inputs));
      Count(IsWitness(), Sent(b.uploads, true)) + Count(IsWitness(), Sent(b.uploads, false))
      + b.rejected + b.unconvertible + b.oversized == Count(IsQueued(), inputs)
  {
    ClosedAccounts(p, inputs);
    DueAddsUp(p, inputs);
    SentOrFailed(IsWitness(), Close(p, TakeAll(p, inputs)).uploads);
  }

  // ---- From a message to its report ----

  /** The witnesses queued for upload, among all inputs. */
  function Queued(inputs: seq<Input>): seq<Info>
    decreases |inputs|
  {
    if inputs == [] then []
    else
      var last := inputs[|inputs| - 1];
      Queued(inputs[..|inputs| - 1]) + if last.Queue? then [last.info] else []
  }

  /** A report of a witness that message n is part of. */
  ghost function ReportsOn(n: nat): Report -> bool {
    (r: Report) => r.WitnessReport? && n in r.source.sources
  }

  ghost function AcceptedHolding(p: Pipeline, n: nat): Info -> bool {
    (w: Info) => n in w.sources && Judge(p, w).Accepted?
  }

  /** Plugins, obfuscation and conversion leave a witness its messages. */
  lemma JudgeKeepsSources(p: Pipeline, w: Info)
    ensures Judge(p, w).Accepted? ==>
              Judge(p, w).report.WitnessReport? && Judge(p, w).report.source.sources == w.sources
  {
    hide RunPlugins;
  }

  lemma {:induction false} ReportsOfQueued(p: Pipeline, inputs: seq<Input>, n: nat)
    ensures Count(ReportsOn(n), Due(p, inputs)) == Count(AcceptedHolding(p, n), Queued(inputs))
    decreases |inputs|
  {
    if inputs == [] {
    } else {
      var before, last := inputs[..|inputs| - 1], inputs[|inputs| - 1];
      ReportsOfQueued(p, before, n);
      assert inputs == before + [last];
      DueCount(p, before, last, ReportsOn(n));
      hide Judge, Due;
      if last.Queue? {
        JudgeKeepsSources(p, last.info);
        CountPush(AcceptedHolding(p, n), Queued(before), last.info);
      } else {
        assert Queued(before) + [] == Queued(before);
      }
    }
  }

  /** When just one element satisfies q, those that satisfy q and r count 1 or 0 as that one satisfies r. */
  lemma {:induction false} CountUnique(q: Info -> bool, both: Info -> bool, s: seq<Info>, i: nat)
    requires i < |s| && q(s[i]) && Count(q, s) == 1 && forall w :: both(w) ==> q(w)
    ensures Count(both, s) == if both(s[i]) then 1 else 0
  {
    CountWithout(q, s, i);
    CountWithout(both, s, i);
    CountNone(q, Without(s, i));
    CountNone(both, Without(s, i));
  }

  /** From end to end: once the pairing cache has been closed and all that it queued has gone through
      the closed buffer, a message is in exactly one report, delivered or lost with its batch, if the one
      witness it is part of was accepted, and in none otherwise. */
  lemma MessageReportedOnce(steps: seq<Step>, closeTime: Time, t: Cache, p: Pipeline, inputs: seq<Input>,
                            n: nat) returns (q: nat)
    requires Flushed(Run(steps), closeTime, t) && n < |Run(steps).log|
    requires forall i :: 0 <= i < |Run(steps).log| ==> Run(steps).log[i].observed < closeTime
    requires Queued(inputs) == t.queued
    ensures q < |t.queued| && n in t.queued[q].sources
    ensures forall r :: 0 <= r < |t.queued| && n in t.queued[r].sources ==> r == q
    ensures var b := Close(p, TakeAll(p, inputs));
      Count(ReportsOn(n), Sent(b.uploads, true)) + Count(ReportsOn(n), Sent(b.uploads, false)) ==
      if Judge(p, t.queued[q]).Accepted? then 1 else 0
  {
    var b := Close(p, TakeAll(p, inputs));
    hide Run, Flushed, TakeAll, Judge, Due, Uploaded, Sent, Queued;
    AllQueuedAtClose(steps, closeTime, t, n);
    CountNone(Holding(n), t.queued);
    q :| 0 <= q < |t.queued| && Holding(n)(t.queued[q]);
    ClosedAccounts(p, inputs);
    SentOrFailed(ReportsOn(n), b.uploads);
    ReportsOfQueued(p, inputs, n);
    CountUnique(Holding(n), AcceptedHolding(p, n), t.queued, q);
    forall r | 0 <= r < |t.queued| && n in t.queued[r].sources ensures r == q {
      if r != q {
        CountTwo(Holding(n), t.queued, r, q);
        assert false;
      }
    }
  }
}

/** The report buffer and the batcher around it, updated in place. */
module ReportBufferImpl {
  import RB = ReportBuffer
  import opened ReportBuffer
  import opened WitnessPairing
  import opened Options

  class ReportBatch {
    const pipeline: Pipeline
    var pending: seq<Report>
    var uploads: seq<Upload>
    var rejected: nat
    var unconvertible: nat
    var oversized: nat

    function View(): Buffer
      reads this
    {
      Buffer(pending, uploads, rejected, unconvertible, oversized)
    }

    constructor (pipeline: Pipeline)
      ensures this.pipeline == pipeline && View() == EmptyBuffer
    {
      this.pipeline := pipeline;
      pending, uploads, rejected, unconvertible, oversized := [], [], 0, 0, 0;
    }

    method IsFull() returns (full: bool)
      ensures full <==> pipeline.sizeInBytes(pending) >= pipeline.maxSize
    {
      return pipeline.sizeInBytes(pending) >= pipeline.maxSize;
    }

    /** Adds a witness that the plugins let through, and says whether the buffer is full. */
    method AddWitness(w: Info) returns (full: bool)
      modifies this
      ensures View() ==
              match Converted(pipeline, w)
              case Accepted(report) => old(View()).(pending := old(pending) + [report])
              case Oversized => old(View()).(oversized := old(oversized) + 1)
              case _ => old(View()).(unconvertible := old(unconvertible) + 1)
      ensures full <==> pipeline.sizeInBytes(pending) >= pipeline.maxSize
    {
      var converted := pipeline.convert(w);
      if converted.None? {
        unconvertible := unconvertible + 1;
      } else {
        var (encoding, size) := converted.value;
        if pipeline.maxWitnessSize.Some? && size > pipeline.maxWitnessSize.value {
          // Drop the witness; it's too large.
          oversized := oversized + 1;
        } else {
          pending := pending + [WitnessReport(w, encoding, size)];
        }
      }
      full := IsFull();
    }

    method Flush()
      modifies this
      ensures View() == RB.Flush(pipeline, old(View()))
    {
      if pending == [] {
        return;
      }
      uploads := uploads + [Upload(pending, pipeline.delivers(|uploads|))];
      pending := [];
    }

    static lemma {:induction false} RefusedForGood(plugins: seq<Option<Method> -> Transformed>, proto: Option<Method>,
                                                   i: nat)
      requires i <= |plugins| && RunPlugins(plugins[..i], proto).Refused?
      ensures RunPlugins(plugins, proto).Refused?
      decreases |plugins|
    {
      if i < |plugins| {
        assert plugins[..|plugins| - 1][..i] == plugins[..i];
        RefusedForGood(plugins[..|plugins| - 1], proto, i);
      } else {
        assert plugins[..i] == plugins;
      }
    }

    /** Applies the plugins in turn, and uploads only if none of them refuses. */
    method QueueUpload(w: Info)
      modifies this
      ensures View() == Take(pipeline, old(View()), Queue(w))
    {
      var proto := w.proto;
      var i := 0;
      while i < |pipeline.plugins|
        invariant 0 <= i <= |pipeline.plugins|
        invariant unchanged(this)
        invariant RunPlugins(pipeline.plugins[..i], w.proto) == Passed(proto)
      {
        assert pipeline.plugins[..i + 1][..i] == pipeline.plugins[..i];
        var outcome := pipeline.plugins[i](proto);
        if outcome.Refused? {
          RefusedForGood(pipeline.plugins, w.proto, i + 1);
          rejected := rejected + 1;
          return;
        }
        proto := outcome.proto;
        i := i + 1;
      }
      assert pipeline.plugins[..i] == pipeline.plugins;
      // Obfuscate the original value.
      var full := AddWitness(w.(proto := pipeline.obfuscate(proto)));
      if full {
        Flush();
      }
    }

    method AddConnection(connection: Connection)
      modifies this
      ensures View() == Take(pipeline, old(View()), Connect(connection))
    {
      pending := pending + [ConnectionReport(connection)];
      var full := IsFull();
      if full {
        Flush();
      }
    }
  }
}
