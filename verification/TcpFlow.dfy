/** One direction of a TCP stream: reassembled bytes go to a parser chosen by the
    factory selector, and whatever cannot be parsed is reported as dropped. */
module TcpFlow {
  import opened Options

  type Byte(==, !new)
  type Content(==, !new)
  type FactoryId(==, !new)

  /** `Unsupported` stands for a decision the flow does not know. */
  datatype Decision = Accept | NeedMoreData | Reject | Unsupported

  datatype Selection = Selection(factory: FactoryId, decision: Decision, discardFront: nat)

  datatype Outcome =
    | More
    | Done(content: Content, unused: nat)
    | Failed(consumed: nat)

  /** The factory selector and the parsers. A parser's answer depends on the factory
      that made it and the inputs fed to it so far. */
  datatype Parsers = Parsers(
    select: (seq<Byte>, bool) -> Selection,
    parse: (FactoryId, seq<seq<Byte>>, seq<Byte>, bool) -> Outcome)

  function Flat(chunks: seq<seq<Byte>>): seq<Byte> {
    if chunks == [] then [] else Flat(chunks[..|chunks| - 1]) + chunks[|chunks| - 1]
  }

  ghost predicate GoodSelection(input: seq<Byte>, s: Selection) {
    && s.discardFront <= |input|
    && (s.decision == Reject ==> s.discardFront == |input|)
  }

  ghost predicate GoodOutcome(fed: seq<seq<Byte>>, input: seq<Byte>, isEnd: bool, o: Outcome) {
    match o
    case More => !(isEnd && input == [])
    case Done(_, unused) => unused <= |input| && unused < |Flat(fed)| + |input|
    case Failed(consumed) => consumed == |Flat(fed)| + |input|
  }

  /** The contract of the selector and the parsers: a rejection discards everything; bytes left
      unused are from the latest input; an error covers everything fed; a parser
      completes only after consuming a byte, and does not ask for more at the end. */
  ghost predicate Valid(p: Parsers) {
    && (forall input, isEnd :: GoodSelection(input, p.select(input, isEnd)))
    && (forall factory, fed, input, isEnd :: GoodOutcome(fed, input, isEnd, p.parse(factory, fed, input, isEnd)))
  }

  datatype Emission = Parsed(content: Content) | Dropped(count: nat)

  /** An emission with the bytes of the stream it accounts for. */
  datatype Emitted = Emitted(what: Emission, span: seq<Byte>)

  /** A parser at work, with the inputs it was fed. */
  datatype Parser = Parser(factory: FactoryId, fed: seq<seq<Byte>>)

  datatype Flow = Flow(parser: Option<Parser>, unusedAcceptBuf: seq<Byte>, out: seq<Emitted>)

  const Fresh := Flow(None, [], [])

  /** What the assembler hands over: kept bytes followed by new ones. `seqOk` says at which
      offsets the assembler context carries TCP sequence information. */
  datatype Delivery = Delivery(all: seq<Byte>, isEnd: bool, seqOk: int -> bool)

  // ---- The reference: one call, as a function ----

  /** handleUnparseable: nothing is sent for zero bytes. */
  ghost function Drop(f: Flow, span: seq<Byte>): Flow {
    if span == [] then f else f.(out := f.out + [Emitted(Dropped(|span|), span)])
  }

  ghost function Held(f: Flow): seq<Byte> {
    if f.parser.None? then [] else Flat(f.parser.value.fed)
  }

  ghost function Activity(f: Flow): nat {
    if Held(f) == [] then 0 else 1
  }

  /** Without a parser, the selector either settles what becomes of the input or
      accepts it for a new parser from some offset on. */
  datatype Routed = Settled(flow: Flow, kept: seq<Byte>) | Accepted(flow: Flow, from: nat)

  ghost function Route(p: Parsers, f: Flow, ignore: nat, d: Delivery): (r: Routed)
    requires Valid(p) && ignore <= |d.all|
    ensures r.Accepted? ==> r.flow.parser.Some? && Held(r.flow) == [] && ignore <= r.from <= |d.all|
  {
    var input := d.all[ignore..];
    var s := p.select(input, d.isEnd);
    assert GoodSelection(input, s);
    var rest := input[s.discardFront..];
    var g := Drop(f, input[..s.discardFront]).(parser := None);
    match s.decision
    case NeedMoreData => Settled(g.(unusedAcceptBuf := rest), rest)
    case Reject => Settled(g.(unusedAcceptBuf := []), [])
    case Unsupported => Settled(Drop(g, rest), [])
    case Accept =>
      var h := g.(unusedAcceptBuf := []);
      if d.seqOk(ignore + s.discardFront) then
        Accepted(h.(parser := Some(Parser(s.factory, []))), ignore + s.discardFront)
      else
        Settled(Drop(h, rest), [])
  }

  /** The flow after a call, and the bytes the assembler is told to keep for the next one. */
  ghost function Reassembled(p: Parsers, f: Flow, ignore: nat, d: Delivery): (Flow, seq<Byte>)
    requires Valid(p) && ignore <= |d.all|
    decreases |d.all| - ignore, Activity(f), 1
  {
    if f.parser.Some? then
      Parse(p, f, ignore, d)
    else
      match Route(p, f, ignore, d)
      case Settled(g, kept) => (g, kept)
      case Accepted(g, from) => Parse(p, g, from, d)
  }

  ghost function Parse(p: Parsers, f: Flow, from: nat, d: Delivery): (Flow, seq<Byte>)
    requires Valid(p) && from <= |d.all| && f.parser.Some?
    decreases |d.all| - from, Activity(f), 0
  {
    var parser, input := f.parser.value, d.all[from..];
    var o := p.parse(parser.factory, parser.fed, input, d.isEnd);
    assert GoodOutcome(parser.fed, input, d.isEnd, o);
    match o
    case Failed(_) => (Drop(f, Flat(parser.fed) + input).(parser := None), [])
    case More => (f.(parser := Some(Parser(parser.factory, parser.fed + [input]))), [])
    case Done(content, unused) =>
      var fed := Flat(parser.fed) + input;
      var g := f.(parser := None, out := f.out + [Emitted(Parsed(content), fed[..|fed| - unused])]);
      if unused > 0 && d.isEnd then Reassembled(p, g, |d.all| - unused, d)
      else (g, d.all[|d.all| - unused..])
  }

  ghost function Complete(p: Parsers, f: Flow): Flow
    requires Valid(p)
  {
    if f.parser.Some? then
      var parser := f.parser.value;
      var o := p.parse(parser.factory, parser.fed, [], true);
      assert GoodOutcome(parser.fed, [], true, o);
      match o
      case Failed(_) => Drop(f, Flat(parser.fed)).(parser := None)
      case Done(content, _) =>
        f.(parser := None, out := f.out + [Emitted(Parsed(content), Flat(parser.fed))])
    else
      Drop(f, f.unusedAcceptBuf)
  }

  // ---- Accounting for every byte ----

  ghost function Covered(out: seq<Emitted>): seq<Byte> {
    if out == [] then [] else Covered(out[..|out| - 1]) + out[|out| - 1].span
  }

  lemma CoveredPush(out: seq<Emitted>, e: Emitted)
    ensures Covered(out + [e]) == Covered(out) + e.span
  {
    assert (out + [e])[..|out|] == out;
  }

  lemma FlatPush(chunks: seq<seq<Byte>>, x: seq<Byte>)
    ensures Flat(chunks + [x]) == Flat(chunks) + x
  {
    assert (chunks + [x])[..|chunks|] == chunks;
  }

  lemma ParserKeepsContract(p: Parsers, parser: Parser, input: seq<Byte>, isEnd: bool)
    requires Valid(p)
    ensures GoodOutcome(parser.fed, input, isEnd, p.parse(parser.factory, parser.fed, input, isEnd))
  {
  }

  lemma SelectorKeepsContract(p: Parsers, input: seq<Byte>, isEnd: bool)
    requires Valid(p)
    ensures GoodSelection(input, p.select(input, isEnd))
  {
  }

  lemma DropCovers(f: Flow, span: seq<Byte>)
    ensures Covered(Drop(f, span).out) == Covered(f.out) + span
    ensures f.out <= Drop(f, span).out
  {
    if span != [] {
      CoveredPush(f.out, Emitted(Dropped(|span|), span));
    }
  }

  lemma Regroup(a: seq<Byte>, b: seq<Byte>, c: seq<Byte>)
    ensures (a + b) + c == a + (b + c)
    ensures a + [] == a
  {
  }

  /** Emitted, held and kept bytes, in stream order. */
  ghost function Account(f: Flow, kept: seq<Byte>): seq<Byte> {
    Covered(f.out) + (Held(f) + kept)
  }

  /** The account does not depend on the accept buffer, nor on a parser that was fed nothing. */
  lemma SameAccount(f: Flow, g: Flow, kept: seq<Byte>)
    ensures f.out == g.out && Held(f) == Held(g) ==> Account(f, kept) == Account(g, kept)
  {
  }

  lemma DropAccounts(f: Flow, span: seq<Byte>, kept: seq<Byte>)
    requires f.parser.None?
    ensures Drop(f, span).parser.None? && f.out <= Drop(f, span).out
    ensures Account(Drop(f, span), kept) == Account(f, span + kept)
  {
    DropCovers(f, span);
    Regroup(Covered(f.out), span, kept);
    assert [] + kept == kept && [] + (span + kept) == span + kept;
  }

  lemma RouteConserves(p: Parsers, f: Flow, ignore: nat, d: Delivery)
    requires Valid(p) && ignore <= |d.all| && f.parser.None?
    ensures var r := Route(p, f, ignore, d);
      && f.out <= r.flow.out
      && Account(r.flow, if r.Settled? then r.kept else d.all[r.from..]) == Account(f, d.all[ignore..])
  {
    hide Valid, Drop, Account;
    var input := d.all[ignore..];
    var s := p.select(input, d.isEnd);
    SelectorKeepsContract(p, input, d.isEnd);
    var pre, rest := input[..s.discardFront], input[s.discardFront..];
    assert rest == d.all[ignore + s.discardFront..] && input == pre + rest && rest + [] == rest;
    var g := Drop(f, pre);
    DropAccounts(f, pre, rest);
    DropAccounts(g, rest, []);
    match s.decision
    case NeedMoreData => SameAccount(g, g.(parser := None, unusedAcceptBuf := rest), rest);
    case Reject => SameAccount(g, g.(parser := None, unusedAcceptBuf := []), rest);
    case Unsupported => SameAccount(g, g.(parser := None), rest);
    case Accept =>
      var h := g.(parser := None, unusedAcceptBuf := []);
      SameAccount(g, h, rest);
      DropAccounts(h, rest, []);
      SameAccount(h, h.(parser := Some(Parser(s.factory, []))), rest);
  }

  /** A call emits, hands to the parser or keeps exactly the bytes it was given, in order,
      and takes nothing back. */
  lemma {:induction false} CallConserves(p: Parsers, f: Flow, ignore: nat, d: Delivery)
    requires Valid(p) && ignore <= |d.all|
    ensures var (g, kept) := Reassembled(p, f, ignore, d);
      Account(g, kept) == Account(f, d.all[ignore..]) && f.out <= g.out
    decreases |d.all| - ignore, Activity(f), 1
  {
    if f.parser.Some? {
      ParseConserves(p, f, ignore, d);
    } else {
      RouteConserves(p, f, ignore, d);
      var r := Route(p, f, ignore, d);
      if r.Accepted? {
        ParseConserves(p, r.flow, r.from, d);
      }
    }
  }

  lemma FailedAccounts(f: Flow, input: seq<Byte>, fed: seq<Byte>)
    requires Account(f, input) == Covered(f.out) + fed
    ensures Account(Drop(f, fed).(parser := None), []) == Account(f, input)
    ensures f.out <= Drop(f, fed).out
  {
    DropCovers(f, fed);
    Regroup(Covered(f.out) + fed, [], []);
  }

  lemma MoreAccounts(f: Flow, input: seq<Byte>)
    requires f.parser.Some?
    ensures Account(f.(parser := Some(Parser(f.parser.value.factory, f.parser.value.fed + [input]))), []) ==
            Account(f, input)
  {
    FlatPush(f.parser.value.fed, input);
    Regroup(Held(f) + input, [], []);
  }

  lemma DoneAccounts(f: Flow, input: seq<Byte>, fed: seq<Byte>, e: Emitted, unused: nat)
    requires Account(f, input) == Covered(f.out) + fed
    requires unused <= |input| <= |fed| && fed[|fed| - |input|..] == input && e.span == fed[..|fed| - unused]
    ensures Account(f.(parser := None, out := f.out + [e]), input[|input| - unused..]) == Account(f, input)
    ensures f.out <= f.out + [e]
  {
    var tail := input[|input| - unused..];
    CoveredPush(f.out, e);
    assert fed == e.span + tail;
    Regroup(Covered(f.out), e.span, tail);
    assert [] + tail == tail;
  }

  lemma {:induction false} ParseConserves(p: Parsers, f: Flow, from: nat, d: Delivery)
    requires Valid(p) && from <= |d.all| && f.parser.Some?
    ensures var (g, kept) := Parse(p, f, from, d);
      Account(g, kept) == Account(f, d.all[from..]) && f.out <= g.out
    decreases |d.all| - from, Activity(f), 0
  {
    hide Valid, Reassembled, Route, Covered, Flat, Drop;
    var parser, input := f.parser.value, d.all[from..];
    var o := p.parse(parser.factory, parser.fed, input, d.isEnd);
    ParserKeepsContract(p, parser, input, d.isEnd);
    var fed := Flat(parser.fed) + input;
    assert Account(f, input) == Covered(f.out) + fed;
    hide Account;
    match o
    case Failed(_) =>
      FailedAccounts(f, input, fed);
    case More =>
      MoreAccounts(f, input);
    case Done(content, unused) =>
      var e := Emitted(Parsed(content), fed[..|fed| - unused]);
      var g := f.(parser := None, out := f.out + [e]);
      DoneAccounts(f, input, fed, e, unused);
      assert input[|input| - unused..] == d.all[|d.all| - unused..];
      if unused > 0 && d.isEnd {
        CallConserves(p, g, |d.all| - unused, d);
      }
  }

  // ---- Whole streams ----

  datatype Call = Call(bytes: seq<Byte>, isEnd: bool, seqOk: int -> bool)

  ghost function Delivered(calls: seq<Call>): seq<Byte> {
    if calls == [] then [] else Delivered(calls[..|calls| - 1]) + calls[|calls| - 1].bytes
  }

  /** The flow and the bytes kept by the assembler after a sequence of calls. */
  ghost function Feed(p: Parsers, calls: seq<Call>): (Flow, seq<Byte>)
    requires Valid(p)
    decreases |calls|
  {
    if calls == [] then (Fresh, [])
    else
      var (f, kept) := Feed(p, calls[..|calls| - 1]);
      var c := calls[|calls| - 1];
      Reassembled(p, f, 0, Delivery(kept + c.bytes, c.isEnd, c.seqOk))
  }

  lemma FeedPush(p: Parsers, calls: seq<Call>, c: Call)
    requires Valid(p)
    ensures var (f, kept) := Feed(p, calls);
      Feed(p, calls + [c]) == Reassembled(p, f, 0, Delivery(kept + c.bytes, c.isEnd, c.seqOk))
    ensures Delivered(calls + [c]) == Delivered(calls) + c.bytes
  {
    hide Valid, Reassembled;
    assert (calls + [c])[..|calls|] == calls;
  }

  lemma NothingFed(p: Parsers)
    requires Valid(p)
    ensures Feed(p, []) == (Fresh, []) && Delivered([]) == [] && Covered([]) == []
  {
  }

  /** After every call: emitted, held by the parser and kept for redelivery are, in this
      order, exactly what was delivered. */
  lemma {:induction false} StreamConserved(p: Parsers, calls: seq<Call>)
    requires Valid(p)
    ensures var (f, kept) := Feed(p, calls); Account(f, kept) == Delivered(calls)
    decreases |calls|
  {
    if calls == [] {
    } else {
      var before := calls[..|calls| - 1];
      StreamConserved(p, before);
      var (f, kept) := Feed(p, before);
      var c := calls[|calls| - 1];
      CallConserves(p, f, 0, Delivery(kept + c.bytes, c.isEnd, c.seqOk));
      assert (kept + c.bytes)[0..] == kept + c.bytes;
      Regroup(Held(f), kept, c.bytes);
      Regroup(Covered(f.out), Held(f) + kept, c.bytes);
    }
  }

  /** While a parser is at work nothing is kept and the accept buffer is empty. */
  ghost predicate Tidy(f: Flow, kept: seq<Byte>) {
    f.parser.Some? ==> kept == [] && f.unusedAcceptBuf == []
  }

  lemma {:induction false} CallKeepsTidy(p: Parsers, f: Flow, ignore: nat, d: Delivery)
    requires Valid(p) && ignore <= |d.all| && (f.parser.Some? ==> f.unusedAcceptBuf == [])
    ensures var (g, kept) := Reassembled(p, f, ignore, d); Tidy(g, kept)
    decreases |d.all| - ignore, Activity(f), 1
  {
    if f.parser.Some? {
      ParseKeepsTidy(p, f, ignore, d);
    } else {
      var r := Route(p, f, ignore, d);
      if r.Accepted? {
        ParseKeepsTidy(p, r.flow, r.from, d);
      }
    }
  }

  lemma {:induction false} ParseKeepsTidy(p: Parsers, f: Flow, from: nat, d: Delivery)
    requires Valid(p) && from <= |d.all| && f.parser.Some? && f.unusedAcceptBuf == []
    ensures var (g, kept) := Parse(p, f, from, d); Tidy(g, kept)
    decreases |d.all| - from, Activity(f), 0
  {
    var parser, input := f.parser.value, d.all[from..];
    var o := p.parse(parser.factory, parser.fed, input, d.isEnd);
    hide Valid;
    ParserKeepsContract(p, parser, input, d.isEnd);
    if o.Done? && o.unused > 0 && d.isEnd {
      var fed := Flat(parser.fed) + input;
      var e := Emitted(Parsed(o.content), fed[..|fed| - o.unused]);
      CallKeepsTidy(p, f.(parser := None, out := f.out + [e]), |d.all| - o.unused, d);
    }
  }

  lemma {:induction false} StreamTidy(p: Parsers, calls: seq<Call>)
    requires Valid(p)
    ensures var (f, kept) := Feed(p, calls); Tidy(f, kept)
    decreases |calls|
  {
    if calls == [] {
    } else {
      StreamTidy(p, calls[..|calls| - 1]);
      var (f, kept) := Feed(p, calls[..|calls| - 1]);
      var c := calls[|calls| - 1];
      CallKeepsTidy(p, f, 0, Delivery(kept + c.bytes, c.isEnd, c.seqOk));
    }
  }

  /** Completing the flow flushes the parser, or else the accept buffer. */
  lemma CompleteCovers(p: Parsers, f: Flow)
    requires Valid(p)
    ensures Complete(p, f).parser.None?
    ensures f.out <= Complete(p, f).out
    ensures Covered(Complete(p, f).out) ==
            Covered(f.out) + if f.parser.Some? then Held(f) else f.unusedAcceptBuf
  {
    if f.parser.Some? {
      var parser := f.parser.value;
      var o := p.parse(parser.factory, parser.fed, [], true);
      assert GoodOutcome(parser.fed, [], true, o);
      DropCovers(f, Flat(parser.fed));
      if o.Done? {
        CoveredPush(f.out, Emitted(Parsed(o.content), Flat(parser.fed)));
      }
    } else {
      DropCovers(f, f.unusedAcceptBuf);
    }
  }

  /** The exact condition for the emissions of a completed flow to tile the stream: a parser was
      still at work, or the accept buffer holds just the bytes kept for redelivery. */
  lemma TilesExactlyWhen(p: Parsers, calls: seq<Call>)
    requires Valid(p)
    ensures var (f, kept) := Feed(p, calls);
      Covered(Complete(p, f).out) == Delivered(calls) <==> f.parser.Some? || f.unusedAcceptBuf == kept
  {
    StreamConserved(p, calls);
    StreamTidy(p, calls);
    var (f, kept) := Feed(p, calls);
    CompleteCovers(p, f);
    assert Held(f) + [] == Held(f) && [] + kept == kept;
    if f.parser.None? && Covered(Complete(p, f).out) == Delivered(calls) {
      var n := |Covered(f.out)|;
      assert (Covered(f.out) + f.unusedAcceptBuf)[n..] == f.unusedAcceptBuf;
      assert (Covered(f.out) + kept)[n..] == kept;
    }
  }

  /** The selector only makes decisions the flow knows. */
  ghost predicate Supported(p: Parsers) {
    forall input, isEnd :: p.select(input, isEnd).decision != Unsupported
  }

  lemma {:induction false} EndSettles(p: Parsers, f: Flow, ignore: nat, d: Delivery)
    requires Valid(p) && Supported(p) && ignore <= |d.all| && d.isEnd
    requires f.parser.Some? ==> f.unusedAcceptBuf == []
    ensures var (g, kept) := Reassembled(p, f, ignore, d); g.parser.Some? || g.unusedAcceptBuf == kept
    decreases |d.all| - ignore, Activity(f), 1
  {
    if f.parser.Some? {
      ParseSettles(p, f, ignore, d);
    } else {
      var r := Route(p, f, ignore, d);
      if r.Accepted? {
        ParseSettles(p, r.flow, r.from, d);
      }
    }
  }

  lemma {:induction false} ParseSettles(p: Parsers, f: Flow, from: nat, d: Delivery)
    requires Valid(p) && Supported(p) && from <= |d.all| && d.isEnd
    requires f.parser.Some? && f.unusedAcceptBuf == []
    ensures var (g, kept) := Parse(p, f, from, d); g.parser.Some? || g.unusedAcceptBuf == kept
    decreases |d.all| - from, Activity(f), 0
  {
    var parser, input := f.parser.value, d.all[from..];
    var o := p.parse(parser.factory, parser.fed, input, d.isEnd);
    hide Valid;
    ParserKeepsContract(p, parser, input, d.isEnd);
    if o.Done? && o.unused > 0 {
      var fed := Flat(parser.fed) + input;
      var e := Emitted(Parsed(o.content), fed[..|fed| - o.unused]);
      EndSettles(p, f.(parser := None, out := f.out + [e]), |d.all| - o.unused, d);
    }
  }

  /** When the last call is the end of the stream, the emissions of the completed flow tile
      the whole stream: no byte is lost and none is counted twice. */
  lemma EndedStreamTiles(p: Parsers, calls: seq<Call>)
    requires Valid(p) && Supported(p)
    requires calls != [] && calls[|calls| - 1].isEnd
    ensures Covered(Complete(p, Feed(p, calls).0).out) == Delivered(calls)
  {
    StreamTidy(p, calls[..|calls| - 1]);
    var (f, kept) := Feed(p, calls[..|calls| - 1]);
    var c := calls[|calls| - 1];
    EndSettles(p, f, 0, Delivery(kept + c.bytes, c.isEnd, c.seqOk));
    TilesExactlyWhen(p, calls);
  }

  // ---- What the emissions say ----

  /** A dropped-bytes report counts its bytes; a parsed message is what a parser
      returned on being fed its bytes, and possibly some it did not use. */
  ghost predicate Faithful(p: Parsers, e: Emitted) {
    match e.what
    case Dropped(count) => count == |e.span| && count > 0
    case Parsed(content) =>
      exists factory, fed, input, isEnd, unused: nat ::
        && p.parse(factory, fed, input, isEnd) == Done(content, unused)
        && unused <= |Flat(fed) + input|
        && e.span == (Flat(fed) + input)[..|Flat(fed) + input| - unused]
  }

  ghost predicate AllFaithful(p: Parsers, out: seq<Emitted>) {
    forall i :: 0 <= i < |out| ==> Faithful(p, out[i])
  }

  lemma {:induction false} CallFaithful(p: Parsers, f: Flow, ignore: nat, d: Delivery)
    requires Valid(p) && ignore <= |d.all| && AllFaithful(p, f.out)
    ensures AllFaithful(p, Reassembled(p, f, ignore, d).0.out)
    decreases |d.all| - ignore, Activity(f), 1
  {
    if f.parser.Some? {
      ParseFaithful(p, f, ignore, d);
    } else {
      var r := Route(p, f, ignore, d);
      if r.Accepted? {
        ParseFaithful(p, r.flow, r.from, d);
      }
    }
  }

  lemma {:induction false} ParseFaithful(p: Parsers, f: Flow, from: nat, d: Delivery)
    requires Valid(p) && from <= |d.all| && f.parser.Some? && AllFaithful(p, f.out)
    ensures AllFaithful(p, Parse(p, f, from, d).0.out)
    decreases |d.all| - from, Activity(f), 0
  {
    var parser, input := f.parser.value, d.all[from..];
    var o := p.parse(parser.factory, parser.fed, input, d.isEnd);
    hide Valid;
    ParserKeepsContract(p, parser, input, d.isEnd);
    if o.Done? {
      var fed := Flat(parser.fed) + input;
      var e := Emitted(Parsed(o.content), fed[..|fed| - o.unused]);
      assert Faithful(p, e);
      if o.unused > 0 && d.isEnd {
        CallFaithful(p, f.(parser := None, out := f.out + [e]), |d.all| - o.unused, d);
      }
    }
  }

  /** Every emission of a stream is faithful, before and after completion. */
  lemma {:induction false} StreamFaithful(p: Parsers, calls: seq<Call>)
    requires Valid(p)
    ensures AllFaithful(p, Feed(p, calls).0.out)
    ensures AllFaithful(p, Complete(p, Feed(p, calls).0).out)
    decreases |calls|
  {
    if calls == [] {
    } else {
      StreamFaithful(p, calls[..|calls| - 1]);
      var (f, kept) := Feed(p, calls[..|calls| - 1]);
      var c := calls[|calls| - 1];
      CallFaithful(p, f, 0, Delivery(kept + c.bytes, c.isEnd, c.seqOk));
    }
    var f := Feed(p, calls).0;
    if f.parser.Some? {
      var parser := f.parser.value;
      var o := p.parse(parser.factory, parser.fed, [], true);
      assert GoodOutcome(parser.fed, [], true, o);
      if o.Done? {
        assert Flat(parser.fed) + [] == Flat(parser.fed);
        assert Faithful(p, Emitted(Parsed(o.content), Flat(parser.fed)));
      }
    }
  }

  // ---- Recursion at the end of the stream ----

  /** The recursive call at the end of the stream stays within the available bytes, and either
      skips at least one byte more or leaves behind a parser that already held some. */
  lemma EndRecursionShrinks(p: Parsers, f: Flow, from: nat, d: Delivery)
    requires Valid(p) && from <= |d.all| && f.parser.Some?
    ensures var o := p.parse(f.parser.value.factory, f.parser.value.fed, d.all[from..], d.isEnd);
      o.Done? ==>
        && from <= |d.all| - o.unused <= |d.all|
        && (|d.all| - o.unused > from || Held(f) != [])
  {
    var parser, input := f.parser.value, d.all[from..];
    assert GoodOutcome(parser.fed, input, d.isEnd, p.parse(parser.factory, parser.fed, input, d.isEnd));
  }

  // ---- Where bytes are lost or counted twice ----

  predicate SeqAlwaysOk(offset: int) {
    true
  }

  /** Completes a message with every byte it is fed. */
  function OneByteParsers(factory: FactoryId, content: Content): Parsers {
    Parsers((input, isEnd) => Selection(factory, Accept, 0),
            (f, fed, input, isEnd) =>
              if Flat(fed) == [] && input != [] then Done(content, |input| - 1) else Failed(|Flat(fed)| + |input|))
  }

  lemma OneByteCall(factory: FactoryId, content: Content, a: Byte, b: Byte)
    ensures var p := OneByteParsers(factory, content);
      && Valid(p) && Supported(p)
      && Reassembled(p, Fresh, 0, Delivery([a, b], false, SeqAlwaysOk))
         == (Flow(None, [], [Emitted(Parsed(content), [a])]), [b])
  {
    var p := OneByteParsers(factory, content);
    var d := Delivery([a, b], false, SeqAlwaysOk);
    var e := Emitted(Parsed(content), [a]);
    assert [a, b][0..] == [a, b] && [] + [a, b] == [a, b] && [a, b][..0] == [];
    assert Flat([]) + [a, b] == [a, b];
    assert p.parse(factory, [], [a, b], false) == Done(content, 1);
    assert [a, b][..1] == [a] && [] + [e] == [e] && [a, b][1..] == [b];
    var g := Fresh.(parser := Some(Parser(factory, [])));
    assert Route(p, Fresh, 0, d) == Accepted(g, 0);
    assert Parse(p, g, 0, d) == (Flow(None, [], [e]), [b]);
  }

  /** Bytes left over by a completed message are kept for redelivery but not in the accept buffer, so
      when no further call comes before completion they are lost. */
  lemma LeftoverIsLost(factory: FactoryId, content: Content, a: Byte, b: Byte)
    ensures var p := OneByteParsers(factory, content);
      var calls := [Call([a, b], false, SeqAlwaysOk)];
      && Valid(p) && Supported(p)
      && Covered(Complete(p, Feed(p, calls).0).out) == [a]
      && Delivered(calls) == [a, b]
  {
    var p := OneByteParsers(factory, content);
    var c := Call([a, b], false, SeqAlwaysOk);
    var e := Emitted(Parsed(content), [a]);
    OneByteCall(factory, content, a, b);
    hide Valid, Supported, Reassembled, Feed, Covered, Delivered;
    NothingFed(p);
    FeedPush(p, [], c);
    assert [] + [c] == [c] && [] + [a, b] == [a, b] && [] + [a] == [a];
    assert Feed(p, [c]) == (Flow(None, [], [e]), [b]);
    CoveredPush([], e);
    assert [] + [e] == [e];
  }

  /** Waits for a second byte, then makes a decision the flow does not know. */
  function OddParsers(factory: FactoryId): Parsers {
    Parsers((input, isEnd) => Selection(factory, if |input| < 2 then NeedMoreData else Unsupported, 0),
            (f, fed, input, isEnd) => Failed(|Flat(fed)| + |input|))
  }

  lemma OddFirst(factory: FactoryId, a: Byte, seqOk: int -> bool)
    ensures Valid(OddParsers(factory))
    ensures Reassembled(OddParsers(factory), Fresh, 0, Delivery([a], false, seqOk)) == (Flow(None, [a], []), [a])
  {
    assert [a][0..] == [a] && [a][..0] == [];
  }

  lemma OddSecond(factory: FactoryId, a: Byte, b: Byte, seqOk: int -> bool)
    ensures Valid(OddParsers(factory))
    ensures Reassembled(OddParsers(factory), Flow(None, [a], []), 0, Delivery([a, b], true, seqOk))
         == (Flow(None, [a], [Emitted(Dropped(2), [a, b])]), [])
  {
    var two := Emitted(Dropped(2), [a, b]);
    assert [a, b][0..] == [a, b] && [a, b][..0] == [] && [] + [two] == [two];
  }

  /** An unknown decision does not clear the accept buffer, whose bytes are then counted again. */
  lemma UnknownDecisionCountsTwice(factory: FactoryId, a: Byte, b: Byte)
    ensures var p := OddParsers(factory);
      var calls := [Call([a], false, SeqAlwaysOk), Call([b], true, SeqAlwaysOk)];
      && Valid(p)
      && Covered(Complete(p, Feed(p, calls).0).out) == [a, b, a]
      && Delivered(calls) == [a, b]
  {
    var p := OddParsers(factory);
    var first, second := Call([a], false, SeqAlwaysOk), Call([b], true, SeqAlwaysOk);
    var two, one := Emitted(Dropped(2), [a, b]), Emitted(Dropped(1), [a]);
    OddFirst(factory, a, SeqAlwaysOk);
    OddSecond(factory, a, b, SeqAlwaysOk);
    hide Valid, Reassembled, Feed, Covered, Delivered;
    NothingFed(p);
    FeedPush(p, [], first);
    FeedPush(p, [first], second);
    assert [] + [first] == [first] && [first] + [second] == [first, second];
    assert [] + [a] == [a] && [a] + [b] == [a, b];
    assert Feed(p, [first]) == (Flow(None, [a], []), [a]);
    assert Feed(p, [first, second]) == (Flow(None, [a], [two]), []);
    CoveredPush([], two);
    CoveredPush([two], one);
    assert [] + [two] == [two] && [] + [a, b] == [a, b] && [a, b] + [a] == [a, b, a];
  }

  // ---- The flow, updated in place ----

  /** The assembler's view of one call: saved bytes and new ones, and what to keep. */
  class ScatterGather {
    const delivery: Delivery
    var keepFrom: int

    constructor (saved: seq<Byte>, data: seq<Byte>, isEnd: bool, seqOk: int -> bool)
      ensures delivery == Delivery(saved + data, isEnd, seqOk) && keepFrom == -1
    {
      delivery := Delivery(saved + data, isEnd, seqOk);
      keepFrom := -1;
    }

    /** The saved bytes of the next call. */
    function Kept(): seq<Byte>
      reads this
    {
      if 0 <= keepFrom <= |delivery.all| then delivery.all[keepFrom..] else []
    }

    method KeepFrom(offset: nat)
      modifies this
      ensures keepFrom == offset
    {
      keepFrom := offset;
    }
  }

  class TcpFlow {
    const parsers: Parsers
    var currentParser: Option<Parser>
    var unusedAcceptBuf: seq<Byte>
    var outChan: seq<Emission>

    // The bytes each emission accounts for.
    ghost var spans: seq<seq<Byte>>

    ghost predicate Sound()
      reads this
    {
      Valid(parsers) && |spans| == |outChan|
    }

    static ghost function Zip(out: seq<Emission>, spans: seq<seq<Byte>>): seq<Emitted>
      requires |out| == |spans|
    {
      seq(|out|, i requires 0 <= i < |out| => Emitted(out[i], spans[i]))
    }

    ghost function View(): Flow
      requires Sound()
      reads this
    {
      Flow(currentParser, unusedAcceptBuf, Zip(outChan, spans))
    }

    constructor (parsers: Parsers)
      requires Valid(parsers)
      ensures Sound() && this.parsers == parsers && View() == Fresh
    {
      this.parsers := parsers;
      currentParser, unusedAcceptBuf, outChan, spans := None, [], [], [];
    }

    method Send(what: Emission, ghost span: seq<Byte>)
      requires Sound()
      modifies this
      ensures Sound()
      ensures View() == old(View()).(out := old(View()).out + [Emitted(what, span)])
    {
      ghost var before := Zip(outChan, spans);
      outChan := outChan + [what];
      spans := spans + [span];
      assert Zip(outChan, spans) == before + [Emitted(what, span)];
    }

    method HandleUnparseable(size: nat, ghost span: seq<Byte>)
      requires Sound() && size == |span|
      modifies this
      ensures Sound() && View() == Drop(old(View()), span)
    {
      if size > 0 {
        Send(Dropped(size), span);
      }
    }

    /** Ignores leading bytes from sg. */
    method ReassembledWithIgnore(ignoreCount: nat, sg: ScatterGather)
      requires Sound() && ignoreCount <= |sg.delivery.all| && sg.keepFrom == -1
      modifies this, sg
      ensures Sound()
      ensures (View(), sg.Kept()) == Reassembled(parsers, old(View()), ignoreCount, sg.delivery)
      decreases |sg.delivery.all| - ignoreCount, Activity(View()), 1
    {
      hide Valid;
      var d := sg.delivery;
      var pktData := d.all[ignoreCount..];
      if currentParser.None? {
        var selection := parsers.select(pktData, d.isEnd);
        SelectorKeepsContract(parsers, pktData, d.isEnd);
        var discardFront := selection.discardFront;
        HandleUnparseable(discardFront, pktData[..discardFront]);
        pktData := pktData[discardFront..];
        match selection.decision {
          case NeedMoreData =>
            sg.KeepFrom(ignoreCount + discardFront);
            unusedAcceptBuf := pktData;
            return;
          case Reject =>
            unusedAcceptBuf := [];
            return;
          case Accept =>
            unusedAcceptBuf := [];
            if !d.seqOk(ignoreCount + discardFront) {
              HandleUnparseable(|pktData|, pktData);
              return;
            }
            currentParser := Some(Parser(selection.factory, []));
            ParseInput(ignoreCount + discardFront, sg);
          case Unsupported =>
            HandleUnparseable(|pktData|, pktData);
            return;
        }
      } else {
        ParseInput(ignoreCount, sg);
      }
    }

    method ParseInput(from: nat, sg: ScatterGather)
      requires Sound() && from <= |sg.delivery.all| && sg.keepFrom == -1 && currentParser.Some?
      modifies this, sg
      ensures Sound()
      ensures (View(), sg.Kept()) == Parse(parsers, old(View()), from, sg.delivery)
      decreases |sg.delivery.all| - from, Activity(View()), 0
    {
      hide Valid;
      var d, parser := sg.delivery, currentParser.value;
      var pktData := d.all[from..];
      var outcome := parsers.parse(parser.factory, parser.fed, pktData, d.isEnd);
      ParserKeepsContract(parsers, parser, pktData, d.isEnd);
      ghost var fed := Flat(parser.fed) + pktData;
      match outcome {
        case Failed(numBytesConsumed) =>
          HandleUnparseable(numBytesConsumed, fed);
          currentParser := None;
        case Done(content, unused) =>
          Send(Parsed(content), fed[..|fed| - unused]);
          currentParser := None;
          assert d.all[|d.all|..] == [];
          if unused > 0 {
            if d.isEnd {
              ReassembledWithIgnore(|d.all| - unused, sg);
            } else {
              sg.KeepFrom(|d.all| - unused);
            }
          }
        case More =>
          currentParser := Some(Parser(parser.factory, parser.fed + [pktData]));
      }
    }

    /** Marks this flow as finished. */
    method ReassemblyComplete()
      requires Sound()
      modifies this
      ensures Sound()
      ensures View() == Complete(parsers, old(View()))
    {
      if currentParser.Some? {
        var parser := currentParser.value;
        var outcome := parsers.parse(parser.factory, parser.fed, [], true);
        hide Valid;
        ParserKeepsContract(parsers, parser, [], true);
        match outcome {
          case Failed(numBytesConsumed) =>
            HandleUnparseable(numBytesConsumed, Flat(parser.fed));
          case Done(content, unused) =>
            Send(Parsed(content), Flat(parser.fed));
            HandleUnparseable(unused, []);
          case More =>
            assert false;
        }
        currentParser := None;
      } else if |unusedAcceptBuf| > 0 {
        Send(Dropped(|unusedAcceptBuf|), unusedAcceptBuf);
      }
    }
  }
}
