/** Which messages a TCP flow finds: what the selector and the parsers say about the bytes of a stream
    decides the emissions, however the bytes are cut into calls. */
module TcpMessages {
  import opened Options
  import opened TcpFlow

  /** A message with the bytes the selector discards before it. */
  datatype Piece = Piece(skipped: seq<Byte>, content: Content, span: seq<Byte>)

  /** The report of bytes that are no message; there is none for no bytes. */
  ghost function Junk(span: seq<Byte>): seq<Emitted> {
    if span == [] then [] else [Emitted(Dropped(|span|), span)]
  }

  ghost function Message(content: Content, span: seq<Byte>): seq<Emitted> {
    [Emitted(Parsed(content), span)]
  }

  ghost function Emissions(pieces: seq<Piece>): seq<Emitted>
    decreases |pieces|
  {
    if pieces == [] then []
    else Junk(pieces[0].skipped) + Message(pieces[0].content, pieces[0].span) + Emissions(pieces[1..])
  }

  // ---- The last bytes of a stream ----

  /** The selector accepts the input at its end, discarding some bytes first, and the position can be told. */
  ghost predicate Accepts(p: Parsers, input: seq<Byte>, isEnd: bool, from: nat, seqOk: int -> bool, skip: nat) {
    && skip <= |input|
    && p.select(input, isEnd).decision.Accept? && p.select(input, isEnd).discardFront == skip
    && seqOk(from + skip)
  }

  /** No message begins: nothing is left, or the selector rejects it, or accepts what cannot be placed, or the
      parser fails. */
  ghost predicate Unparsable(p: Parsers, tail: seq<Byte>, from: nat, seqOk: int -> bool) {
    tail == []
    || var s := p.select(tail, true);
       s.discardFront <= |tail|
       && (s.decision.Reject?
           || (s.decision.Accept?
               && (!seqOk(from + s.discardFront) || p.parse(s.factory, [], tail[s.discardFront..], true).Failed?)))
  }

  ghost function TailEmissions(p: Parsers, tail: seq<Byte>): seq<Emitted> {
    var skip := p.select(tail, true).discardFront;
    if tail == [] || skip > |tail| then [] else Junk(tail[..skip]) + Junk(tail[skip..])
  }

  /** The input is messages one after the other, as the selector and fresh parsers see it, and then a tail that
      is none. */
  ghost predicate Splits(p: Parsers, input: seq<Byte>, from: nat, seqOk: int -> bool, pieces: seq<Piece>,
                         tail: seq<Byte>)
    decreases |pieces|
  {
    if pieces == [] then input == tail && Unparsable(p, tail, from, seqOk)
    else
      var m := pieces[0];
      var skip, n := |m.skipped|, |m.skipped| + |m.span|;
      && n <= |input| && m.skipped + m.span == input[..n]
      && Accepts(p, input, true, from, seqOk, skip)
      && p.parse(p.select(input, true).factory, [], input[skip..], true) == Done(m.content, |input| - n)
      && Splits(p, input[n..], from + n, seqOk, pieces[1..], tail)
  }

  lemma DropJunk(f: Flow, span: seq<Byte>)
    ensures Drop(f, span) == f.(out := f.out + Junk(span))
  {
    assert f.out + [] == f.out;
  }

  lemma RouteAccepts(p: Parsers, f: Flow, ignore: nat, d: Delivery, skip: nat)
    requires Valid(p) && ignore <= |d.all| && f.parser.None?
    requires Accepts(p, d.all[ignore..], d.isEnd, ignore, d.seqOk, skip)
    ensures var input := d.all[ignore..];
      Route(p, f, ignore, d) ==
      Accepted(Flow(Some(Parser(p.select(input, d.isEnd).factory, [])), [], f.out + Junk(input[..skip])), ignore + skip)
  {
    hide Valid, Drop;
    DropJunk(f, d.all[ignore..][..skip]);
  }

  /** A flow without a parser hands accepted input to a new one. */
  lemma NewParserAsked(p: Parsers, f: Flow, ignore: nat, d: Delivery, skip: nat)
    requires Valid(p) && ignore <= |d.all| && f.parser.None?
    requires Accepts(p, d.all[ignore..], d.isEnd, ignore, d.seqOk, skip)
    ensures var input := d.all[ignore..];
      && ignore + skip <= |d.all|
      && Reassembled(p, f, ignore, d) ==
         Parse(p, Flow(Some(Parser(p.select(input, d.isEnd).factory, [])), [], f.out + Junk(input[..skip])),
               ignore + skip, d)
  {
    hide Valid, Parse, Route, Junk;
    RouteAccepts(p, f, ignore, d, skip);
  }

  lemma BlindTailSettles(p: Parsers, f: Flow, ignore: nat, d: Delivery)
    requires Valid(p) && ignore < |d.all| && f.parser.None? && d.isEnd
    requires var s := p.select(d.all[ignore..], true);
      s.decision.Reject? || (s.decision.Accept? && !d.seqOk(ignore + s.discardFront))
    ensures Reassembled(p, f, ignore, d) == (Flow(None, [], f.out + TailEmissions(p, d.all[ignore..])), [])
  {
    var tail := d.all[ignore..];
    var s := p.select(tail, true);
    SelectorKeepsContract(p, tail, true);
    hide Valid, Drop, Parse;
    var front, rest := tail[..s.discardFront], tail[s.discardFront..];
    DropJunk(f, front);
    var g := f.(out := f.out + Junk(front));
    DropJunk(g, rest);
    DropJunk(g.(unusedAcceptBuf := []), rest);
    assert f.out + (Junk(front) + Junk(rest)) == g.out + Junk(rest);
    assert s.decision.Reject? ==> Junk(rest) == [] && g.out + [] == g.out;
  }

  lemma TailSettles(p: Parsers, f: Flow, ignore: nat, d: Delivery)
    requires Valid(p) && ignore < |d.all| && f.parser.None? && d.isEnd
    requires Unparsable(p, d.all[ignore..], ignore, d.seqOk)
    ensures Reassembled(p, f, ignore, d) == (Flow(None, [], f.out + TailEmissions(p, d.all[ignore..])), [])
  {
    hide Valid, Drop, Reassembled;
    var tail := d.all[ignore..];
    var s := p.select(tail, true);
    if s.decision.Accept? && d.seqOk(ignore + s.discardFront) {
      var front, rest := tail[..s.discardFront], tail[s.discardFront..];
      NewParserAsked(p, f, ignore, d, s.discardFront);
      assert d.all[ignore + s.discardFront..] == rest && Flat([]) + rest == rest;
      var g := Flow(Some(Parser(s.factory, [])), [], f.out + Junk(front));
      DropJunk(g, rest);
      assert f.out + (Junk(front) + Junk(rest)) == g.out + Junk(rest);
    } else {
      BlindTailSettles(p, f, ignore, d);
    }
  }

  /** A fresh parser that finds a message leaves the rest of the last bytes to the next one. */
  lemma MessageSettles(p: Parsers, f: Flow, ignore: nat, d: Delivery, m: Piece)
    requires Valid(p) && ignore < |d.all| && f.parser.None? && d.isEnd
    requires var input := d.all[ignore..]; var skip, n := |m.skipped|, |m.skipped| + |m.span|;
      && n <= |input| && m.skipped + m.span == input[..n]
      && Accepts(p, input, true, ignore, d.seqOk, skip)
      && p.parse(p.select(input, true).factory, [], input[skip..], true) == Done(m.content, |input| - n)
    ensures var n := ignore + |m.skipped| + |m.span|;
      var g := Flow(None, [], f.out + Junk(m.skipped) + Message(m.content, m.span));
      Reassembled(p, f, ignore, d) == if n < |d.all| then Reassembled(p, g, n, d) else (g, [])
  {
    hide Valid, Drop, Reassembled, Junk, Route;
    var input := d.all[ignore..];
    var skip, n := |m.skipped|, |m.skipped| + |m.span|;
    assert input[..skip] == m.skipped && input[skip..n] == m.span by {
      assert input[..n][..skip] == input[..skip] && input[..n][skip..] == input[skip..n];
    }
    NewParserAsked(p, f, ignore, d, skip);
    assert d.all[ignore + skip..] == input[skip..];
    assert Flat([]) + input[skip..] == input[skip..] && input[skip..][..|m.span|] == m.span;
    assert |d.all| - (|input| - n) == ignore + n && d.all[|d.all|..] == [];
  }

  lemma Regroup5(a: seq<Emitted>, b: seq<Emitted>, c: seq<Emitted>, d: seq<Emitted>, e: seq<Emitted>)
    ensures a + (b + c + d + e) == (a + b + c) + (d + e)
  {
  }

  lemma EmissionsStep(out: seq<Emitted>, pieces: seq<Piece>, more: seq<Emitted>)
    requires pieces != []
    ensures var m := pieces[0];
      out + (Emissions(pieces) + more) ==
      (out + Junk(m.skipped) + Message(m.content, m.span)) + (Emissions(pieces[1..]) + more)
  {
    hide Junk, Message;
    var m := pieces[0];
    Regroup5(out, Junk(m.skipped), Message(m.content, m.span), Emissions(pieces[1..]), more);
  }

  lemma NothingEmitted()
    ensures Emissions([]) == []
  {
  }

  lemma NoTail(p: Parsers)
    ensures TailEmissions(p, []) == []
  {
  }

  lemma SplitsEnd(p: Parsers, input: seq<Byte>, from: nat, seqOk: int -> bool, tail: seq<Byte>)
    requires Splits(p, input, from, seqOk, [], tail)
    ensures input == tail && Unparsable(p, input, from, seqOk)
  {
  }

  lemma SplitsStep(p: Parsers, input: seq<Byte>, from: nat, seqOk: int -> bool, pieces: seq<Piece>, tail: seq<Byte>)
    requires Splits(p, input, from, seqOk, pieces, tail) && pieces != []
    ensures var m := pieces[0];
      var skip, n := |m.skipped|, |m.skipped| + |m.span|;
      && n <= |input| && m.skipped + m.span == input[..n]
      && Accepts(p, input, true, from, seqOk, skip)
      && p.parse(p.select(input, true).factory, [], input[skip..], true) == Done(m.content, |input| - n)
      && Splits(p, input[n..], from + n, seqOk, pieces[1..], tail)
  {
  }

  lemma NoMessageInNothing(p: Parsers, from: nat, seqOk: int -> bool, pieces: seq<Piece>, tail: seq<Byte>)
    requires Valid(p) && Splits(p, [], from, seqOk, pieces, tail)
    ensures pieces == [] && tail == []
  {
    if pieces != [] {
      ParserKeepsContract(p, Parser(p.select([], true).factory, []), [], true);
      assert false;
    }
  }

  /** At the end of a stream every message that was delivered together with others is parsed, in order, and only
      what is no message is dropped. */
  lemma {:induction false} EndFindsMessages(p: Parsers, f: Flow, ignore: nat, d: Delivery, pieces: seq<Piece>,
                                            tail: seq<Byte>)
    requires Valid(p) && ignore < |d.all| && f.parser.None? && d.isEnd
    requires Splits(p, d.all[ignore..], ignore, d.seqOk, pieces, tail)
    ensures Reassembled(p, f, ignore, d) ==
            (Flow(None, [], f.out + (Emissions(pieces) + TailEmissions(p, tail))), [])
    decreases |pieces|
  {
    hide Valid, Reassembled, Unparsable, TailEmissions, Junk, Splits, Accepts, Emissions, Message;
    var input := d.all[ignore..];
    if pieces == [] {
      SplitsEnd(p, input, ignore, d.seqOk, tail);
      NothingEmitted();
      TailSettles(p, f, ignore, d);
      assert [] + TailEmissions(p, tail) == TailEmissions(p, tail);
    } else {
      var m := pieces[0];
      var n := |m.skipped| + |m.span|;
      SplitsStep(p, input, ignore, d.seqOk, pieces, tail);
      MessageSettles(p, f, ignore, d, m);
      assert d.all[ignore + n..] == input[n..];
      var g := Flow(None, [], f.out + Junk(m.skipped) + Message(m.content, m.span));
      EmissionsStep(f.out, pieces, TailEmissions(p, tail));
      if n < |input| {
        EndFindsMessages(p, g, ignore + n, d, pieces[1..], tail);
      } else {
        NoMessageInNothing(p, ignore + n, d.seqOk, pieces[1..], tail);
        NothingEmitted();
        NoTail(p);
        assert g.out + ([] + []) == g.out;
      }
    }
  }

  /** If the bytes of a last call, with those kept from before, are messages one after the other and perhaps a
      tail that is none, then exactly these messages are emitted for it, and the tail is dropped; nothing is
      left behind. */
  lemma LastCallFindsMessages(p: Parsers, before: seq<Call>, c: Call, pieces: seq<Piece>, tail: seq<Byte>)
    requires Valid(p) && Feed(p, before).0.parser.None? && c.isEnd
    requires var input := Feed(p, before).1 + c.bytes;
      input != [] && Splits(p, input, 0, c.seqOk, pieces, tail)
    ensures Feed(p, before + [c]) ==
            (Flow(None, [], Feed(p, before).0.out + (Emissions(pieces) + TailEmissions(p, tail))), [])
  {
    hide Valid, Feed, Reassembled, Splits, Emissions, TailEmissions;
    var (f, kept) := Feed(p, before);
    FeedPush(p, before, c);
    assert (kept + c.bytes)[0..] == kept + c.bytes;
    EndFindsMessages(p, f, 0, Delivery(kept + c.bytes, c.isEnd, c.seqOk), pieces, tail);
  }

  // ---- A message in any number of calls ----

  /** The bytes a parser is fed: those of the first call from some offset on, then those of the others. */
  ghost function Chunks(first: seq<Byte>, rest: seq<Call>): (chunks: seq<seq<Byte>>)
    ensures |chunks| == |rest| + 1
  {
    [first] + seq(|rest|, i requires 0 <= i < |rest| => rest[i].bytes)
  }

  /** The parser asks for more after each of the chunks. */
  ghost predicate AsksForMore(p: Parsers, factory: FactoryId, chunks: seq<seq<Byte>>, calls: seq<Call>)
    requires |chunks| == |calls|
  {
    forall i :: 0 <= i < |chunks| ==> p.parse(factory, chunks[..i], chunks[i], calls[i].isEnd) == More
  }

  /** A flow with a parser feeds it the whole input. */
  lemma HeldAsked(p: Parsers, f: Flow, c: Call)
    requires Valid(p) && f.parser.Some?
    ensures Reassembled(p, f, 0, Delivery([] + c.bytes, c.isEnd, c.seqOk)) ==
            Parse(p, f, 0, Delivery(c.bytes, c.isEnd, c.seqOk))
  {
    hide Parse, Valid;
    assert [] + c.bytes == c.bytes;
  }

  lemma OneMoreCall(before: seq<Call>, start: seq<Call>, last: Call)
    ensures before + (start + [last]) == (before + start) + [last]
  {
  }

  /** While a parser asks for more, it is fed all bytes, and nothing but the bytes before it has been emitted. */
  lemma {:induction false} ParserHolds(p: Parsers, before: seq<Call>, c: Call, rest: seq<Call>, skip: nat)
    requires Valid(p) && Feed(p, before).0.parser.None?
    requires var input := Feed(p, before).1 + c.bytes;
      && Accepts(p, input, c.isEnd, 0, c.seqOk, skip)
      && AsksForMore(p, p.select(input, c.isEnd).factory, Chunks(input[skip..], rest), [c] + rest)
    ensures var (f, kept) := Feed(p, before); var input := kept + c.bytes;
      Feed(p, before + [c] + rest) ==
      (Flow(Some(Parser(p.select(input, c.isEnd).factory, Chunks(input[skip..], rest))), [],
            f.out + Junk(input[..skip])), [])
    decreases |rest|
  {
    hide Valid, Reassembled, Feed;
    var (f, kept) := Feed(p, before);
    var input := kept + c.bytes;
    var factory, chunks := p.select(input, c.isEnd).factory, Chunks(input[skip..], rest);
    if rest == [] {
      FeedPush(p, before, c);
      assert before + [c] + rest == before + [c] && input[0..] == input && chunks == [input[skip..]];
      NewParserAsked(p, f, 0, Delivery(input, c.isEnd, c.seqOk), skip);
      assert chunks[..0] == [] && [] + [input[skip..]] == chunks && ([c] + rest)[0] == c;
      assert p.parse(factory, chunks[..0], chunks[0], c.isEnd) == More;
    } else {
      var n := |rest| - 1;
      var start, last := rest[..n], rest[n];
      var fed := Chunks(input[skip..], start);
      assert chunks == fed + [last.bytes] && chunks[..n + 1] == fed;
      assert AsksForMore(p, factory, fed, [c] + start) by {
        forall i | 0 <= i < |fed| ensures p.parse(factory, fed[..i], fed[i], ([c] + start)[i].isEnd) == More {
          assert chunks[..i] == fed[..i] && chunks[i] == fed[i] && ([c] + start)[i] == ([c] + rest)[i];
        }
      }
      ParserHolds(p, before, c, start, skip);
      assert rest == start + [last];
      OneMoreCall(before + [c], start, last);
      FeedPush(p, before + [c] + start, last);
      assert p.parse(factory, chunks[..n + 1], chunks[n + 1], ([c] + rest)[n + 1].isEnd) == More;
      HeldAsked(p, Flow(Some(Parser(factory, fed)), [], f.out + Junk(input[..skip])), last);
    }
  }

  /** What becomes of the bytes `all`, fed to one parser from the first on, by its last answer, on delivery d.
      `out` are the emissions before. What the parser did not use is kept, to be delivered again with the next
      call; but at the end of the stream the messages in it are found at once. */
  ghost predicate Concluded(p: Parsers, g: (Flow, seq<Byte>), out: seq<Emitted>, all: seq<Byte>, o: Outcome,
                            d: Delivery, pieces: seq<Piece>, tail: seq<Byte>)
  {
    match o
    case More => true
    case Failed(_) => g == (Flow(None, [], out + Junk(all)), [])
    case Done(content, unused) =>
      && unused <= |d.all| && unused <= |all|
      && var found := out + Message(content, all[..|all| - unused]);
         var rest := all[|all| - unused..];
         if unused == 0 || !d.isEnd then
           g == (Flow(None, [], found), rest)
         else if Splits(p, rest, |d.all| - unused, d.seqOk, pieces, tail) then
           g == (Flow(None, [], found + (Emissions(pieces) + TailEmissions(p, tail))), [])
         else
           true
  }

  lemma ParserFinds(p: Parsers, f: Flow, from: nat, d: Delivery)
    requires Valid(p) && f.parser.Some? && f.unusedAcceptBuf == [] && from <= |d.all|
    ensures var parser, input := f.parser.value, d.all[from..];
      var all := Flat(parser.fed) + input;
      match p.parse(parser.factory, parser.fed, input, d.isEnd)
      case More => true
      case Failed(_) => Parse(p, f, from, d) == (Flow(None, [], f.out + Junk(all)), [])
      case Done(content, unused) =>
        && unused <= |input|
        && all[|all| - unused..] == d.all[|d.all| - unused..]
        && var g := Flow(None, [], f.out + Message(content, all[..|all| - unused]));
           Parse(p, f, from, d) ==
           if unused == 0 || !d.isEnd then (g, d.all[|d.all| - unused..]) else Reassembled(p, g, |d.all| - unused, d)
  {
    var parser, input := f.parser.value, d.all[from..];
    ParserKeepsContract(p, parser, input, d.isEnd);
    hide Valid, Reassembled, Drop, Junk;
    DropJunk(f, Flat(parser.fed) + input);
  }

  lemma ParseConcludes(p: Parsers, f: Flow, from: nat, d: Delivery, pieces: seq<Piece>, tail: seq<Byte>)
    requires Valid(p) && f.parser.Some? && f.unusedAcceptBuf == [] && from <= |d.all|
    ensures var parser := f.parser.value;
      Concluded(p, Parse(p, f, from, d), f.out, Flat(parser.fed) + d.all[from..],
                p.parse(parser.factory, parser.fed, d.all[from..], d.isEnd), d, pieces, tail)
  {
    hide Valid, Parse, Reassembled, Splits, Junk, TailEmissions, Emissions;
    ParserFinds(p, f, from, d);
    var parser, input := f.parser.value, d.all[from..];
    var all := Flat(parser.fed) + input;
    var o := p.parse(parser.factory, parser.fed, input, d.isEnd);
    if o.Done? && o.unused > 0 && d.isEnd
       && Splits(p, all[|all| - o.unused..], |d.all| - o.unused, d.seqOk, pieces, tail)
    {
      var found := f.out + Message(o.content, all[..|all| - o.unused]);
      EndFindsMessages(p, Flow(None, [], found), |d.all| - o.unused, d, pieces, tail);
    }
  }

  /** The bytes of the chunks, one after the other. */
  lemma {:induction false} ChunksDelivered(first: seq<Byte>, rest: seq<Call>)
    ensures Flat(Chunks(first, rest)) == first + Delivered(rest)
    decreases |rest|
  {
    var chunks := Chunks(first, rest);
    if rest == [] {
      assert chunks == [first] && [first][..0] == [] && Flat([]) + first == first && first + [] == first;
    } else {
      var n := |rest| - 1;
      ChunksDelivered(first, rest[..n]);
      assert chunks[..|chunks| - 1] == Chunks(first, rest[..n]);
      assert first + Delivered(rest) == first + Delivered(rest[..n]) + rest[n].bytes;
    }
  }

  lemma FirstCallConcludes(p: Parsers, before: seq<Call>, c: Call, skip: nat, pieces: seq<Piece>, tail: seq<Byte>)
    requires Valid(p) && Feed(p, before).0.parser.None?
    requires Accepts(p, Feed(p, before).1 + c.bytes, c.isEnd, 0, c.seqOk, skip)
    ensures var (f, kept) := Feed(p, before);
      var input := kept + c.bytes;
      Concluded(p, Feed(p, before + [c]), f.out + Junk(input[..skip]), input[skip..],
                p.parse(p.select(input, c.isEnd).factory, [], input[skip..], c.isEnd),
                Delivery(input, c.isEnd, c.seqOk), pieces, tail)
  {
    var (f, kept) := Feed(p, before);
    var input := kept + c.bytes;
    var factory, d := p.select(input, c.isEnd).factory, Delivery(input, c.isEnd, c.seqOk);
    assert skip <= |input|;
    FeedPush(p, before, c);
    assert input[0..] == input;
    NewParserAsked(p, f, 0, d, skip);
    hide Valid, Parse, Reassembled, Feed, Concluded, Junk, Accepts;
    assert Flat([]) + input[skip..] == input[skip..];
    ParseConcludes(p, Flow(Some(Parser(factory, [])), [], f.out + Junk(input[..skip])), skip, d, pieces, tail);
  }

  lemma LastCallConcludes(p: Parsers, before: seq<Call>, last: Call, pieces: seq<Piece>, tail: seq<Byte>)
    requires Valid(p) && Feed(p, before).0.parser.Some? && Feed(p, before).0.unusedAcceptBuf == []
    requires Feed(p, before).1 == []
    ensures var f := Feed(p, before).0;
      var parser := f.parser.value;
      Concluded(p, Feed(p, before + [last]), f.out, Flat(parser.fed) + last.bytes,
                p.parse(parser.factory, parser.fed, last.bytes, last.isEnd),
                Delivery(last.bytes, last.isEnd, last.seqOk), pieces, tail)
  {
    hide Valid, Parse, Reassembled, Feed, Concluded, Flat;
    var f := Feed(p, before).0;
    FeedPush(p, before, last);
    HeldAsked(p, f, last);
    assert last.bytes[0..] == last.bytes;
    ParseConcludes(p, f, 0, Delivery(last.bytes, last.isEnd, last.seqOk), pieces, tail);
  }

  lemma NothingDelivered()
    ensures Delivered([]) == []
  {
  }

  lemma DeliveredPush(calls: seq<Call>, c: Call)
    ensures Delivered(calls + [c]) == Delivered(calls) + c.bytes
  {
    assert (calls + [c])[..|calls|] == calls;
  }

  lemma ChunksPush(first: seq<Byte>, start: seq<Call>, last: Call)
    ensures Chunks(first, start + [last]) == Chunks(first, start) + [last.bytes]
  {
  }

  lemma LaterCallConcludes(p: Parsers, before: seq<Call>, c: Call, start: seq<Call>, last: Call, skip: nat,
                           pieces: seq<Piece>, tail: seq<Byte>)
    requires Valid(p) && Feed(p, before).0.parser.None?
    requires var input := Feed(p, before).1 + c.bytes;
      && Accepts(p, input, c.isEnd, 0, c.seqOk, skip)
      && AsksForMore(p, p.select(input, c.isEnd).factory, Chunks(input[skip..], start), [c] + start)
    ensures var (f, kept) := Feed(p, before);
      var input := kept + c.bytes;
      Concluded(p, Feed(p, before + [c] + (start + [last])), f.out + Junk(input[..skip]),
                input[skip..] + Delivered(start + [last]),
                p.parse(p.select(input, c.isEnd).factory, Chunks(input[skip..], start), last.bytes, last.isEnd),
                Delivery(last.bytes, last.isEnd, last.seqOk), pieces, tail)
  {
    var (f, kept) := Feed(p, before);
    var input := kept + c.bytes;
    assert skip <= |input|;
    hide Valid, Feed, Concluded, Junk, Accepts, AsksForMore, Flat, Delivered, Chunks;
    OneMoreCall(before + [c], start, last);
    ParserHolds(p, before, c, start, skip);
    ChunksDelivered(input[skip..], start);
    DeliveredPush(start, last);
    Regroup(input[skip..], Delivered(start), last.bytes);
    LastCallConcludes(p, before + [c] + start, last, pieces, tail);
  }

  /** Without a parser at work, when the selector accepts the first of some calls and the parser it asks for
      wants more after each but the last, the calls make up one message, however its bytes are cut: by the
      parser's last answer all bytes are the message but what it did not use, or they are reported as dropped. */
  lemma MessageInChunks(p: Parsers, before: seq<Call>, c: Call, rest: seq<Call>, skip: nat,
                        pieces: seq<Piece>, tail: seq<Byte>)
    requires Valid(p) && Feed(p, before).0.parser.None?
    requires var input := Feed(p, before).1 + c.bytes; var factory := p.select(input, c.isEnd).factory;
      && Accepts(p, input, c.isEnd, 0, c.seqOk, skip)
      && (rest != [] ==>
            AsksForMore(p, factory, Chunks(input[skip..], rest[..|rest| - 1]), [c] + rest[..|rest| - 1]))
    ensures var (f, kept) := Feed(p, before);
      var input := kept + c.bytes;
      var chunks, last := Chunks(input[skip..], rest), if rest == [] then c else rest[|rest| - 1];
      var d := Delivery(if rest == [] then input else last.bytes, last.isEnd, last.seqOk);
      Concluded(p, Feed(p, before + [c] + rest), f.out + Junk(input[..skip]), input[skip..] + Delivered(rest),
                p.parse(p.select(input, c.isEnd).factory, chunks[..|rest|], chunks[|rest|], last.isEnd), d,
                pieces, tail)
  {
    var (f, kept) := Feed(p, before);
    var input := kept + c.bytes;
    assert skip <= |input|;
    hide Valid, Feed, Concluded, Junk, Accepts, AsksForMore, Flat, Delivered;
    var chunks := Chunks(input[skip..], rest);
    if rest == [] {
      NothingDelivered();
      assert before + [c] + rest == before + [c] && chunks == [input[skip..]] && chunks[..0] == [];
      assert input[skip..] + [] == input[skip..];
      FirstCallConcludes(p, before, c, skip, pieces, tail);
    } else {
      hide Chunks;
      var n := |rest| - 1;
      assert rest == rest[..n] + [rest[n]];
      LaterCallConcludes(p, before, c, rest[..n], rest[n], skip, pieces, tail);
      ChunksPush(input[skip..], rest[..n], rest[n]);
      assert chunks[..|rest|] == Chunks(input[skip..], rest[..n]) && chunks[|rest|] == rest[n].bytes;
    }
  }

  /** A stream may end while a parser wants more: it is asked once more, and its answer decides. */
  lemma CompletionAsks(p: Parsers, before: seq<Call>, c: Call, rest: seq<Call>, skip: nat)
    requires Valid(p) && Feed(p, before).0.parser.None?
    requires var input := Feed(p, before).1 + c.bytes;
      && Accepts(p, input, c.isEnd, 0, c.seqOk, skip)
      && AsksForMore(p, p.select(input, c.isEnd).factory, Chunks(input[skip..], rest), [c] + rest)
    ensures var (f, kept) := Feed(p, before);
      var input := kept + c.bytes;
      var all := input[skip..] + Delivered(rest);
      var o := p.parse(p.select(input, c.isEnd).factory, Chunks(input[skip..], rest), [], true);
      Complete(p, Feed(p, before + [c] + rest).0).out ==
      f.out + Junk(input[..skip]) + if o.Done? then Message(o.content, all) else Junk(all)
  {
    var (f, kept) := Feed(p, before);
    var input := kept + c.bytes;
    var g := f.out + Junk(input[..skip]);
    ParserHolds(p, before, c, rest, skip);
    ChunksDelivered(input[skip..], rest);
    var parser := Parser(p.select(input, c.isEnd).factory, Chunks(input[skip..], rest));
    ParserKeepsContract(p, parser, [], true);
    hide Valid, Feed, Drop, Junk;
    DropJunk(Flow(Some(parser), [], g), Flat(parser.fed));
  }

  // ---- Bytes before a message ----

  /** What the selector does not accept for a parser is kept until there is more, or dropped. */
  lemma SelectorDecides(p: Parsers, before: seq<Call>, c: Call)
    requires Valid(p) && Feed(p, before).0.parser.None?
    requires var (_, kept) := Feed(p, before);
      var s := p.select(kept + c.bytes, c.isEnd);
      s.decision.NeedMoreData? || s.decision.Reject? || (s.decision.Accept? && !c.seqOk(s.discardFront))
    ensures var (f, kept) := Feed(p, before);
      var input := kept + c.bytes;
      var s := p.select(input, c.isEnd);
      && s.discardFront <= |input|
      && var front, rest := input[..s.discardFront], input[s.discardFront..];
         Feed(p, before + [c]) ==
         if s.decision.NeedMoreData? then (Flow(None, rest, f.out + Junk(front)), rest)
         else (Flow(None, [], f.out + Junk(front) + Junk(rest)), [])
  {
    var (f, kept) := Feed(p, before);
    var input := kept + c.bytes;
    var s := p.select(input, c.isEnd);
    SelectorKeepsContract(p, input, c.isEnd);
    FeedPush(p, before, c);
    hide Valid, Drop, Parse, Feed;
    assert input[0..] == input;
    var front, rest := input[..s.discardFront], input[s.discardFront..];
    DropJunk(f, front);
    DropJunk(f.(unusedAcceptBuf := [], out := f.out + Junk(front)), rest);
    assert s.decision.Reject? ==> Junk(rest) == [] && f.out + Junk(front) + [] == f.out + Junk(front);
  }

  lemma WaitingKeeps(p: Parsers, before: seq<Call>, c: Call)
    requires Valid(p) && Feed(p, before).0.parser.None?
    requires var s := p.select(Feed(p, before).1 + c.bytes, c.isEnd); s.decision.NeedMoreData? && s.discardFront == 0
    ensures var (f, kept) := Feed(p, before); var input := kept + c.bytes;
      Feed(p, before + [c]) == (Flow(None, input, f.out), input)
  {
    hide Valid, Feed;
    var (f, kept) := Feed(p, before);
    SelectorDecides(p, before, c);
    var input := kept + c.bytes;
    assert input[..0] == [] && input[0..] == input && f.out + [] == f.out;
  }

  /** A call does not depend on the accept buffer, which only completion reads. */
  lemma AcceptBufferUnread(p: Parsers, f: Flow, g: Flow, d: Delivery)
    requires Valid(p) && Supported(p) && f.parser.None? && g.parser.None? && f.out == g.out
    ensures Reassembled(p, f, 0, d) == Reassembled(p, g, 0, d)
  {
    hide Valid, Parse, Junk;
    var input := d.all[0..];
    var s := p.select(input, d.isEnd);
    assert s.decision != Unsupported;
    SelectorKeepsContract(p, input, d.isEnd);
    DropJunk(f, input[..s.discardFront]);
    DropJunk(g, input[..s.discardFront]);
  }

  /** Waiting is transparent: bytes for which the selector wants more are seen again together with those of the next
      call, as if both had come in one. */
  lemma WaitingIsTransparent(p: Parsers, before: seq<Call>, c: Call, next: Call)
    requires Valid(p) && Supported(p) && Feed(p, before).0.parser.None?
    requires var s := p.select(Feed(p, before).1 + c.bytes, c.isEnd); s.decision.NeedMoreData? && s.discardFront == 0
    ensures Feed(p, before + [c, next]) == Feed(p, before + [Call(c.bytes + next.bytes, next.isEnd, next.seqOk)])
  {
    hide Valid, Feed, Reassembled, Supported;
    var (f, kept) := Feed(p, before);
    WaitingKeeps(p, before, c);
    FeedPush(p, before, Call(c.bytes + next.bytes, next.isEnd, next.seqOk));
    assert before + [c, next] == before + [c] + [next];
    FeedPush(p, before + [c], next);
    var input := kept + c.bytes;
    assert kept + (c.bytes + next.bytes) == input + next.bytes;
    AcceptBufferUnread(p, f, Flow(None, input, f.out), Delivery(input + next.bytes, next.isEnd, next.seqOk));
  }
}
