/** The reader that strips control characters from JSON. */
module StripReader {
  import opened Options

  type Byte = b: int | 0 <= b < 0x100

  const Backslash: Byte := 0x5c

  predicate IsControl(c: Byte) {
    c <= 0x1f
  }

  // ---- The reference: what becomes of each byte, judged by the raw input before it ----

  /** The length of the run of backslashes at the end. */
  function TrailingBackslashes(s: seq<Byte>): nat
    decreases |s|
  {
    if s == [] || s[|s| - 1] != Backslash then 0 else 1 + TrailingBackslashes(s[..|s| - 1])
  }

  /** Whether a byte after s would be escaped. */
  predicate Escapes(s: seq<Byte>) {
    TrailingBackslashes(s) % 2 == 1
  }

  /** A control character is replaced by a backslash if it is escaped, and otherwise removed. */
  function Cleaned(s: seq<Byte>): seq<Byte>
    decreases |s|
  {
    if s == [] then []
    else
      var before, c := s[..|s| - 1], s[|s| - 1];
      Cleaned(before) + if !IsControl(c) then [c] else if Escapes(before) then [Backslash] else []
  }

  predicate Clean(s: seq<Byte>) {
    forall i :: 0 <= i < |s| ==> !IsControl(s[i])
  }

  lemma CleanedPush(s: seq<Byte>, c: Byte)
    ensures Cleaned(s + [c]) ==
            Cleaned(s) + if !IsControl(c) then [c] else if Escapes(s) then [Backslash] else []
  {
    hide Escapes;
    assert (s + [c])[..|s|] == s;
  }

  lemma EscapesPush(s: seq<Byte>, c: Byte)
    ensures Escapes(s + [c]) <==> c == Backslash && !Escapes(s)
  {
    assert (s + [c])[..|s|] == s;
  }

  lemma CleanedNothing()
    ensures Cleaned([]) == [] && !Escapes([])
  {
  }

  /** The output has no control characters (section 7 of RFC 8259), and what follows it is escaped
      exactly if it would be after the input. */
  lemma {:induction false} CleanedKeepsEscapes(s: seq<Byte>)
    ensures Clean(Cleaned(s))
    ensures Escapes(Cleaned(s)) <==> Escapes(s)
    decreases |s|
  {
    hide Cleaned, Escapes;
    if s == [] {
      CleanedNothing();
    } else {
      var before, c := s[..|s| - 1], s[|s| - 1];
      assert s == before + [c];
      CleanedKeepsEscapes(before);
      CleanedPush(before, c);
      EscapesPush(before, c);
      EscapesPush(Cleaned(before), c);
      EscapesPush(Cleaned(before), Backslash);
      assert Cleaned(before) + [] == Cleaned(before);
    }
  }

  /** What is clean stays as it is; so cleaning twice is cleaning once. */
  lemma {:induction false} CleanedFixed(s: seq<Byte>)
    ensures Cleaned(s) == s <==> Clean(s)
    decreases |s|
  {
    CleanedKeepsEscapes(s);
    if s == [] {
    } else {
      CleanedFixed(s[..|s| - 1]);
    }
  }

  lemma CleanedTwice(s: seq<Byte>)
    ensures Cleaned(Cleaned(s)) == Cleaned(s)
  {
    CleanedKeepsEscapes(s);
    CleanedFixed(Cleaned(s));
  }

  /** The output for a longer input extends the output for a shorter one: what was returned stands. */
  lemma {:induction false} CleanedExtends(s: seq<Byte>, more: seq<Byte>)
    ensures Cleaned(s) <= Cleaned(s + more)
    ensures |Cleaned(s + more)| <= |Cleaned(s)| + |more|
    decreases |more|
  {
    if more == [] {
      assert s + more == s;
    } else {
      var before, c := more[..|more| - 1], more[|more| - 1];
      assert s + more == (s + before) + [c];
      CleanedExtends(s, before);
      CleanedPush(s + before, c);
    }
  }

  /** A byte of the input that is kept is escaped in the output exactly if it is escaped in the input. */
  lemma KeptByteEscapedAlike(s: seq<Byte>, c: Byte, more: seq<Byte>)
    requires !IsControl(c)
    ensures var at := |Cleaned(s)|; var out := Cleaned(s + [c] + more);
      && at < |out| && out[at] == c
      && (Escapes(out[..at]) <==> Escapes(s))
  {
    CleanedPush(s, c);
    CleanedExtends(s + [c], more);
    CleanedKeepsEscapes(s);
    assert Cleaned(s + [c] + more)[..|Cleaned(s)|] == Cleaned(s);
  }

  /** What comes later depends on what came before only through the output and whether the next byte is escaped. */
  lemma {:induction false} SameLater(s: seq<Byte>, t: seq<Byte>, more: seq<Byte>)
    requires Cleaned(s) == Cleaned(t) && Escapes(s) == Escapes(t)
    ensures Cleaned(s + more) == Cleaned(t + more) && Escapes(s + more) == Escapes(t + more)
    decreases |more|
  {
    hide Cleaned, Escapes;
    if more == [] {
      assert s + more == s && t + more == t;
    } else {
      var before, c := more[..|more| - 1], more[|more| - 1];
      assert s + more == (s + before) + [c] && t + more == (t + before) + [c];
      SameLater(s, t, before);
      CleanedPush(s + before, c);
      CleanedPush(t + before, c);
      EscapesPush(s + before, c);
      EscapesPush(t + before, c);
    }
  }

  /** A control character that is not escaped might as well not be there, and one that is escaped might as well be a
      backslash. */
  lemma ControlsReplaced(s: seq<Byte>, c: Byte, more: seq<Byte>)
    requires IsControl(c)
    ensures Cleaned(s + [c] + more) == Cleaned(if Escapes(s) then s + [Backslash] + more else s + more)
  {
    CleanedPush(s, c);
    EscapesPush(s, c);
    CleanedPush(s, Backslash);
    EscapesPush(s, Backslash);
    hide Cleaned, Escapes;
    if Escapes(s) {
      SameLater(s + [c], s + [Backslash], more);
    } else {
      assert Cleaned(s) + [] == Cleaned(s);
      SameLater(s + [c], s, more);
    }
  }

  // ---- The readers ----

  type Error(==, !new)

  /** One call of the wrapped reader: how much was asked for, what it gave, and its error. */
  datatype Reply = Reply(asked: nat, given: seq<Byte>, err: Option<Error>)

  /** Any reader of finitely many bytes: it may give less than it is asked for, and may give bytes
      together with an error. */
  class Source {
    var rest: seq<Byte>
    ghost var replies: seq<Reply>

    constructor (content: seq<Byte>)
      ensures rest == content && replies == []
    {
      rest, replies := content, [];
    }

    method Read(buf: array<Byte>, size: nat) returns (n: nat, err: Option<Error>)
      requires size <= buf.Length
      modifies this, buf
      ensures n <= size && old(rest) == buf[..n] + rest
      ensures replies == old(replies) + [Reply(size, buf[..n], err)]
    {
      n :| 0 <= n <= size && n <= |rest|;
      err := *;
      for i := 0 to n
        invariant unchanged(this) && buf[..i] == rest[..i]
      {
        buf[i] := rest[i];
      }
      replies := replies + [Reply(size, buf[..n], err)];
      rest := rest[n..];
    }
  }

  ghost predicate Full(r: Reply) {
    r.err.None? && |r.given| == r.asked
  }

  /** What one call of Read got from the wrapped reader: it goes on only after a full reply without error,
      and stops when the output is full or after a short reply or an error, which it returns. */
  ghost predicate Stops(calls: seq<Reply>, n: nat, size: nat, err: Option<Error>) {
    && (forall i :: 0 <= i < |calls| - 1 ==> Full(calls[i]))
    && err == (if calls == [] then None else calls[|calls| - 1].err)
    && (n == size || (calls != [] && !Full(calls[|calls| - 1])))
    && (size == 0 <==> calls == [])
  }

  class StripControlCharactersReader {
    var hasPrecedingBackslash: bool
    const wrapped: Source

    // All that has been read and returned so far.
    ghost var consumed: seq<Byte>
    ghost var produced: seq<Byte>

    ghost predicate Valid()
      reads this
    {
      && produced == Cleaned(consumed)
      && hasPrecedingBackslash == Escapes(consumed)
    }

    constructor (wrapped: Source)
      ensures Valid() && this.wrapped == wrapped && consumed == produced == []
    {
      this.wrapped := wrapped;
      hasPrecedingBackslash := false;
      consumed, produced := [], [];
    }

    method CopyByte(c: Byte, p: array<Byte>, pIdx: nat) returns (next: nat)
      requires Valid() && pIdx < p.Length
      modifies this, p
      ensures Valid() && pIdx <= next <= pIdx + 1
      ensures consumed == old(consumed) + [c] && produced == old(produced) + p[pIdx..next]
      ensures forall j :: 0 <= j < pIdx || next <= j < p.Length ==> p[j] == old(p[j])
    {
      hide Cleaned, Escapes;
      CleanedPush(consumed, c);
      EscapesPush(consumed, c);
      consumed := consumed + [c];
      var toWrite := c;
      if c <= 0x1f {
        if hasPrecedingBackslash {
          // An escaped control character is replaced with a backslash.
          toWrite := Backslash;
        } else {
          // Otherwise, it is removed.
          return pIdx;
        }
      }
      hasPrecedingBackslash := if c == Backslash then !hasPrecedingBackslash else false;
      p[pIdx] := toWrite;
      produced := produced + [toWrite];
      return pIdx + 1;
    }

    /** Copies from buf to p, skipping control characters. */
    method Copy(buf: array<Byte>, bufN: nat, p: array<Byte>, start: nat) returns (pIdx: nat)
      requires Valid() && buf != p && bufN <= buf.Length && start + bufN <= p.Length
      modifies this, p
      ensures Valid() && start <= pIdx <= start + bufN
      ensures consumed == old(consumed) + buf[..bufN]
      ensures produced == old(produced) + p[start..pIdx]
      ensures p[..start] == old(p[..start]) && p[pIdx..] == old(p[pIdx..])
    {
      pIdx := start;
      assert old(consumed) + buf[..0] == consumed && old(produced) + p[start..pIdx] == produced;
      for i := 0 to bufN
        invariant Valid() && start <= pIdx <= start + i
        invariant consumed == old(consumed) + buf[..i]
        invariant produced == old(produced) + p[start..pIdx]
        invariant forall j :: 0 <= j < start || pIdx <= j < p.Length ==> p[j] == old(p[j])
      {
        ghost var written, at := p[start..pIdx], pIdx;
        pIdx := CopyByte(buf[i], p, pIdx);
        assert p[start..pIdx] == written + p[at..pIdx];
        assert buf[..i + 1] == buf[..i] + [buf[i]];
      }
    }

    /** Reads up to p.Length bytes. However the wrapped reader doles out its content, and whatever
        the sizes asked for, all output so far is the cleaned form of all input so far, of which nothing
        is skipped; and the rest of p is not touched. */
    method Read(p: array<Byte>) returns (n: nat, err: Option<Error>)
      requires Valid()
      modifies this, wrapped, p
      ensures Valid() && n <= p.Length
      ensures produced == old(produced) + p[..n]
      ensures consumed + wrapped.rest == old(consumed + wrapped.rest) && old(consumed) <= consumed
      ensures p[n..] == old(p[n..])
      ensures old(wrapped.replies) <= wrapped.replies
      ensures Stops(wrapped.replies[|old(wrapped.replies)|..], n, p.Length, err)
    {
      n, err := 0, None;
      var buf := new Byte[p.Length];
      ghost var start := |wrapped.replies|;
      var done := false;
      while n < p.Length && !done
        invariant Valid() && n <= p.Length
        invariant produced == old(produced) + p[..n]
        invariant consumed + wrapped.rest == old(consumed + wrapped.rest) && old(consumed) <= consumed
        invariant p[n..] == old(p[n..])
        invariant start == |old(wrapped.replies)| <= |wrapped.replies| && old(wrapped.replies) <= wrapped.replies
        invariant done ==> |wrapped.replies| > start && Stops(wrapped.replies[start..], n, p.Length, err)
        invariant !done ==> err.None? && forall i :: start <= i < |wrapped.replies| ==> Full(wrapped.replies[i])
        invariant |wrapped.replies| > start ==> p.Length > 0
        invariant n > 0 ==> |wrapped.replies| > start
        decreases |wrapped.rest|, !done
      {
        var remaining := p.Length - n;
        var bufN;
        bufN, err := wrapped.Read(buf, remaining);
        n := Copy(buf, bufN, p, n);
        // After an error or a short read, do not try to read more.
        if err.Some? || bufN < remaining {
          done := true;
        }
      }
    }
  }
}
