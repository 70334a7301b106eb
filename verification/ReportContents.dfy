/** What uploaded reports contain, and when batches are sent, without reference to how the buffer decides. */
module ReportContents {
  import opened Options
  import opened Counting
  import opened WitnessPairing
  import RB = ReportBuffer
  import opened ReportBuffer

  // ---- What becomes of a method on its way through the plugins ----

  /** The first plugins, one after the other, turn ms[0] into ms[1], that into ms[2], and so on; none of them
      refuses. */
  ghost predicate Rewrites(plugins: seq<Option<Method> -> Transformed>, ms: seq<Option<Method>>) {
    && 0 < |ms| <= |plugins| + 1
    && forall i :: 0 <= i < |ms| - 1 ==> plugins[i](ms[i]) == Passed(ms[i + 1])
  }

  /** All plugins do. */
  ghost predicate PassesAs(plugins: seq<Option<Method> -> Transformed>, proto: Option<Method>,
                           ms: seq<Option<Method>>)
  {
    Rewrites(plugins, ms) && |ms| == |plugins| + 1 && ms[0] == proto
  }

  /** The next one refuses. */
  ghost predicate RefusedAs(plugins: seq<Option<Method> -> Transformed>, proto: Option<Method>,
                            ms: seq<Option<Method>>)
  {
    Rewrites(plugins, ms) && |ms| <= |plugins| && ms[0] == proto && plugins[|ms| - 1](ms[|ms| - 1]).Refused?
  }

  /** Either all plugins pass the method on, in one way, or there is a first that refuses it. */
  lemma {:induction false} PluginsSettle(plugins: seq<Option<Method> -> Transformed>, proto: Option<Method>)
    returns (ms: seq<Option<Method>>)
    ensures PassesAs(plugins, proto, ms) || RefusedAs(plugins, proto, ms)
    ensures PassesAs(plugins, proto, ms) ==> RunPlugins(plugins, proto) == Passed(ms[|plugins|])
    ensures RefusedAs(plugins, proto, ms) ==> RunPlugins(plugins, proto).Refused?
    decreases |plugins|
  {
    if plugins == [] {
      ms := [proto];
    } else {
      var n := |plugins| - 1;
      ms := PluginsSettle(plugins[..n], proto);
      if PassesAs(plugins[..n], proto, ms) {
        var o := plugins[n](ms[n]);
        if o.Passed? {
          ms := ms + [o.proto];
        }
      }
    }
  }

  lemma {:induction false} RewritesAgree(plugins: seq<Option<Method> -> Transformed>, ms: seq<Option<Method>>,
                                         ns: seq<Option<Method>>, i: nat)
    requires Rewrites(plugins, ms) && Rewrites(plugins, ns) && ms[0] == ns[0] && i < |ms| && i < |ns|
    ensures ms[i] == ns[i]
  {
    if i == 0 {
    } else {
      RewritesAgree(plugins, ms, ns, i - 1);
    }
  }

  /** It cannot happen both ways, nor in two. */
  lemma PluginsSettleOnce(plugins: seq<Option<Method> -> Transformed>, proto: Option<Method>,
                          ms: seq<Option<Method>>, ns: seq<Option<Method>>)
    requires PassesAs(plugins, proto, ms)
    ensures PassesAs(plugins, proto, ns) ==> ns[|plugins|] == ms[|plugins|]
    ensures !RefusedAs(plugins, proto, ns)
  {
    if PassesAs(plugins, proto, ns) {
      RewritesAgree(plugins, ms, ns, |plugins|);
    }
    if Rewrites(plugins, ns) && |ns| <= |plugins| && ns[0] == proto {
      var k := |ns| - 1;
      RewritesAgree(plugins, ms, ns, k);
      assert plugins[k](ms[k]) == Passed(ms[k + 1]);
    }
  }

  // ---- What a report contains ----

  /** A witness as it is converted: its method is the obfuscated form of what the plugins make of it; the rest
      is as captured. */
  ghost predicate Prepared(p: Pipeline, w: Info, source: Info) {
    exists ms :: PassesAs(p.plugins, w.proto, ms) && source == w.(proto := p.obfuscate(ms[|p.plugins|]))
  }

  ghost predicate Fits(p: Pipeline, size: nat) {
    p.maxWitnessSize.Some? ==> size <= p.maxWitnessSize.value
  }

  /** The report of a witness: prepared, converted and not too large. */
  ghost predicate IsReportOf(p: Pipeline, w: Info, r: Report) {
    && r.WitnessReport? && Prepared(p, w, r.source)
    && p.convert(r.source) == Some((r.encoding, r.size)) && Fits(p, r.size)
  }

  /** The reports are those of the witnesses that have one, in order and once each. */
  ghost predicate Match(p: Pipeline, ws: seq<Info>, rs: seq<Report>)
    decreases |ws|
  {
    if ws == [] then rs == []
    else
      var before, w := ws[..|ws| - 1], ws[|ws| - 1];
      || (rs != [] && IsReportOf(p, w, rs[|rs| - 1]) && Match(p, before, rs[..|rs| - 1]))
      || ((forall r :: !IsReportOf(p, w, r)) && Match(p, before, rs))
  }

  /** What becomes of a witness, in terms of the plugins, the obfuscation, the conversion and the limit alone. */
  ghost predicate Meant(p: Pipeline, w: Info, fate: Fate) {
    match fate
    case Rejected => exists ms :: RefusedAs(p.plugins, w.proto, ms)
    case Unconvertible => exists source :: Prepared(p, w, source) && p.convert(source).None?
    case Oversized =>
      exists source :: Prepared(p, w, source) && p.convert(source).Some? && !Fits(p, p.convert(source).value.1)
    case Accepted(r) => IsReportOf(p, w, r)
  }

  /** The judgement on a witness is what is meant, and nothing else is meant. */
  lemma JudgeMeans(p: Pipeline, w: Info, fate: Fate)
    ensures Meant(p, w, fate) <==> fate == Judge(p, w)
  {
    var ms := PluginsSettle(p.plugins, w.proto);
    if PassesAs(p.plugins, w.proto, ms) {
      var source := w.(proto := p.obfuscate(ms[|p.plugins|]));
      forall other | Prepared(p, w, other) ensures other == source {
        var ns :| PassesAs(p.plugins, w.proto, ns) && other == w.(proto := p.obfuscate(ns[|p.plugins|]));
        PluginsSettleOnce(p.plugins, w.proto, ms, ns);
      }
      assert Prepared(p, w, source);
      if ns :| RefusedAs(p.plugins, w.proto, ns) {
        PluginsSettleOnce(p.plugins, w.proto, ms, ns);
      }
    } else {
      forall other ensures !Prepared(p, w, other) {
        if ns :| PassesAs(p.plugins, w.proto, ns) && other == w.(proto := p.obfuscate(ns[|p.plugins|])) {
          PluginsSettleOnce(p.plugins, w.proto, ns, ms);
        }
      }
    }
  }

  function OfWitnesses(rs: seq<Report>): seq<Report>
    decreases |rs|
  {
    if rs == [] then []
    else OfWitnesses(rs[..|rs| - 1]) + if rs[|rs| - 1].WitnessReport? then [rs[|rs| - 1]] else []
  }

  lemma OfWitnessesPush(rs: seq<Report>, r: Report)
    ensures OfWitnesses(rs + [r]) == if r.WitnessReport? then OfWitnesses(rs) + [r] else OfWitnesses(rs)
  {
    assert (rs + [r])[..|rs|] == rs;
  }

  lemma AcceptedIsReport(p: Pipeline, w: Info)
    requires Judge(p, w).Accepted?
    ensures Judge(p, w).report.WitnessReport?
  {
    JudgeMeans(p, w, Judge(p, w));
  }

  lemma MatchPush(p: Pipeline, ws: seq<Info>, rs: seq<Report>, w: Info)
    requires Match(p, ws, rs)
    ensures Judge(p, w).Accepted? ==> Match(p, ws + [w], rs + [Judge(p, w).report]) && Judge(p, w).report.WitnessReport?
    ensures !Judge(p, w).Accepted? ==> Match(p, ws + [w], rs)
  {
    hide Judge, IsReportOf;
    assert (ws + [w])[..|ws|] == ws;
    if Judge(p, w).Accepted? {
      var r := Judge(p, w).report;
      JudgeMeans(p, w, Judge(p, w));
      assert (rs + [r])[..|rs|] == rs;
      AcceptedIsReport(p, w);
    } else {
      forall r ensures !IsReportOf(p, w, r) {
        JudgeMeans(p, w, Accepted(r));
      }
    }
  }

  lemma {:induction false} DueMatches(p: Pipeline, inputs: seq<Input>)
    ensures Match(p, Queued(inputs), OfWitnesses(Due(p, inputs)))
    decreases |inputs|
  {
    if inputs == [] {
    } else {
      var before, last := inputs[..|inputs| - 1], inputs[|inputs| - 1];
      DueMatches(p, before);
      assert inputs == before + [last];
      DueOfPush(p, before, last);
      hide Judge, Due, Match;
      var due := Due(p, before);
      assert due + [] == due && Queued(before) + [] == Queued(before);
      match last
      case Timer =>
      case Connect(connection) => OfWitnessesPush(due, ConnectionReport(connection));
      case Queue(w) =>
        MatchPush(p, Queued(before), OfWitnesses(due), w);
        if Judge(p, w).Accepted? {
          OfWitnessesPush(due, Judge(p, w).report);
        }
    }
  }

  /** After closing, the witness reports sent are those of the queued witnesses that the plugins let through and
      that convert to a small enough encoding, in order and once each: with the obfuscated form of what the
      plugins made of the method, and everything else as captured. */
  lemma SentAsMeant(p: Pipeline, inputs: seq<Input>)
    ensures Match(p, Queued(inputs), OfWitnesses(Uploaded(Close(p, TakeAll(p, inputs)).uploads)))
  {
    hide Close, TakeAll, Uploaded, Due, Match;
    ClosedAccounts(p, inputs);
    DueMatches(p, inputs);
  }

  lemma {:induction false} MatchedReport(p: Pipeline, ws: seq<Info>, rs: seq<Report>, i: nat) returns (j: nat)
    requires Match(p, ws, rs) && i < |rs|
    ensures j < |ws| && IsReportOf(p, ws[j], rs[i])
    decreases |ws|
  {
    var before, w := ws[..|ws| - 1], ws[|ws| - 1];
    if rs != [] && IsReportOf(p, w, rs[|rs| - 1]) && Match(p, before, rs[..|rs| - 1]) {
      if i == |rs| - 1 {
        j := |ws| - 1;
      } else {
        j := MatchedReport(p, before, rs[..|rs| - 1], i);
      }
    } else {
      j := MatchedReport(p, before, rs, i);
    }
  }

  lemma {:induction false} OfWitnessesHas(rs: seq<Report>, r: Report)
    ensures r in OfWitnesses(rs) <==> r in rs && r.WitnessReport?
    decreases |rs|
  {
    if rs == [] {
    } else {
      assert rs == rs[..|rs| - 1] + [rs[|rs| - 1]];
      OfWitnessesHas(rs[..|rs| - 1], r);
    }
  }

  /** In particular, nothing leaves in the clear: every witness sent has a method that went through the
      obfuscation. */
  lemma SentIsObfuscated(p: Pipeline, inputs: seq<Input>, r: Report)
    requires r in Uploaded(Close(p, TakeAll(p, inputs)).uploads) && r.WitnessReport?
    ensures exists w :: w in Queued(inputs) && IsReportOf(p, w, r)
    ensures exists x :: r.source.proto == p.obfuscate(x)
  {
    hide Close, TakeAll, Uploaded, Match;
    var rs := Uploaded(Close(p, TakeAll(p, inputs)).uploads);
    SentAsMeant(p, inputs);
    OfWitnessesHas(rs, r);
    var i :| 0 <= i < |OfWitnesses(rs)| && OfWitnesses(rs)[i] == r;
    var j := MatchedReport(p, Queued(inputs), OfWitnesses(rs), i);
    assert Queued(inputs)[j] in Queued(inputs);
    var ms :| PassesAs(p.plugins, Queued(inputs)[j].proto, ms)
              && r.source == Queued(inputs)[j].(proto := p.obfuscate(ms[|p.plugins|]));
  }

  // ---- When batches are sent ----

  /** A batch is full when its size has reached the limit. */
  ghost predicate Full(p: Pipeline, reports: seq<Report>) {
    p.sizeInBytes(reports) >= p.maxSize
  }

  ghost predicate AllFull(p: Pipeline, uploads: seq<Upload>) {
    forall i :: 0 <= i < |uploads| ==> Full(p, uploads[i].reports)
  }

  ghost predicate Untimed(inputs: seq<Input>) {
    forall i :: 0 <= i < |inputs| ==> !inputs[i].Timer?
  }

  /** Upload number i got through as p says, and is not empty. */
  ghost predicate Numbered(p: Pipeline, uploads: seq<Upload>) {
    forall i :: 0 <= i < |uploads| ==> uploads[i].delivered == p.delivers(i) && uploads[i].reports != []
  }

  lemma FlushKeepsNumbers(p: Pipeline, b: Buffer)
    requires Numbered(p, b.uploads)
    ensures Numbered(p, RB.Flush(p, b).uploads)
  {
  }

  lemma SettleSends(p: Pipeline, b: Buffer)
    ensures var c := Settle(p, b); c.pending == [] || !Full(p, c.pending)
    ensures AllFull(p, b.uploads) ==> AllFull(p, Settle(p, b).uploads)
    ensures Numbered(p, b.uploads) ==> Numbered(p, Settle(p, b).uploads)
  {
    if Numbered(p, b.uploads) {
      FlushKeepsNumbers(p, b);
    }
  }

  lemma TakeSends(p: Pipeline, b: Buffer, input: Input)
    requires b.pending == [] || !Full(p, b.pending)
    ensures var c := Take(p, b, input); c.pending == [] || !Full(p, c.pending)
    ensures AllFull(p, b.uploads) && !input.Timer? ==> AllFull(p, Take(p, b, input).uploads)
    ensures Numbered(p, b.uploads) ==> Numbered(p, Take(p, b, input).uploads)
  {
    hide Judge, Settle, AllFull, Numbered, Full;
    match input
    case Timer =>
      FlushKeepsReports(p, b);
      if Numbered(p, b.uploads) {
        FlushKeepsNumbers(p, b);
      }
    case Connect(connection) => SettleSends(p, b.(pending := b.pending + [ConnectionReport(connection)]));
    case Queue(w) =>
      match Judge(p, w)
      case Rejected =>
      case Unconvertible => SettleSends(p, b.(unconvertible := b.unconvertible + 1));
      case Oversized => SettleSends(p, b.(oversized := b.oversized + 1));
      case Accepted(report) => SettleSends(p, b.(pending := b.pending + [report]));
  }

  lemma {:induction false} AllSent(p: Pipeline, inputs: seq<Input>)
    ensures var b := TakeAll(p, inputs);
      && (b.pending == [] || !Full(p, b.pending))
      && (Untimed(inputs) ==> AllFull(p, b.uploads))
      && Numbered(p, b.uploads)
    decreases |inputs|
  {
    if inputs == [] {
    } else {
      hide Take, AllFull, Numbered, Full;
      AllSent(p, inputs[..|inputs| - 1]);
      TakeSends(p, TakeAll(p, inputs[..|inputs| - 1]), inputs[|inputs| - 1]);
    }
  }

  /** A batch is sent as soon as it is full, and not before, unless the timer asks for it; the timer leaves
      nothing behind. No upload is empty, and whether one got through is what its number decided. */
  lemma BatchesSentWhenFull(p: Pipeline, inputs: seq<Input>)
    ensures var b := TakeAll(p, inputs);
      && (b.pending == [] || p.sizeInBytes(b.pending) < p.maxSize)
      && (inputs != [] && inputs[|inputs| - 1].Timer? ==> b.pending == [])
      && (Untimed(inputs) ==> forall i :: 0 <= i < |b.uploads| ==> p.sizeInBytes(b.uploads[i].reports) >= p.maxSize)
      && forall i :: 0 <= i < |b.uploads| ==> b.uploads[i].delivered == p.delivers(i) && b.uploads[i].reports != []
  {
    AllSent(p, inputs);
  }
}
