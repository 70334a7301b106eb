/** Counting the elements of a sequence that satisfy a predicate. */
module Counting {

  ghost function Count<T(!new)>(p: T -> bool, s: seq<T>): nat {
    if s == [] then 0 else (if p(s[0]) then 1 else 0) + Count(p, s[1..])
  }

  ghost function Without<T>(s: seq<T>, i: nat): seq<T>
    requires i < |s|
  {
    s[..i] + s[i + 1..]
  }

  lemma {:induction false} CountAppend<T(!new)>(p: T -> bool, s: seq<T>, t: seq<T>)
    ensures Count(p, s + t) == Count(p, s) + Count(p, t)
  {
    if s == [] {
      assert s + t == t;
    } else {
      assert (s + t)[1..] == s[1..] + t;
      CountAppend(p, s[1..], t);
    }
  }

  lemma {:induction false} CountPush<T(!new)>(p: T -> bool, s: seq<T>, x: T)
    ensures Count(p, s + [x]) == Count(p, s) + if p(x) then 1 else 0
  {
    CountAppend(p, s, [x]);
    assert [x][1..] == [];
  }

  lemma {:induction false} CountWithout<T(!new)>(p: T -> bool, s: seq<T>, i: nat)
    requires i < |s|
    ensures Count(p, s) == Count(p, Without(s, i)) + if p(s[i]) then 1 else 0
  {
    assert s == s[..i] + ([s[i]] + s[i + 1..]);
    CountAppend(p, s[..i], [s[i]] + s[i + 1..]);
    CountAppend(p, [s[i]], s[i + 1..]);
    assert [s[i]][1..] == [];
    CountAppend(p, s[..i], s[i + 1..]);
  }

  /** A sequence counts zero exactly when no element satisfies the predicate. */
  lemma {:induction false} CountNone<T(!new)>(p: T -> bool, s: seq<T>)
    ensures Count(p, s) == 0 <==> forall i :: 0 <= i < |s| ==> !p(s[i])
  {
    if s == [] {
    } else {
      CountNone(p, s[1..]);
      assert forall i :: 1 <= i < |s| ==> s[i] == s[1..][i - 1];
      if Count(p, s[1..]) == 0 {
        forall i | 1 <= i < |s| ensures !p(s[i]) {
          assert s[1..][i - 1] == s[i];
        }
      }
    }
  }

  /** When at most one element satisfies the predicate, two that do are the same one. */
  lemma {:induction false} CountTwo<T(!new)>(p: T -> bool, s: seq<T>, i: nat, j: nat)
    requires i < |s| && j < |s| && p(s[i]) && p(s[j]) && i != j
    ensures Count(p, s) >= 2
  {
    CountWithout(p, s, i);
    var r := Without(s, i);
    var k := if j < i then j else j - 1;
    assert r[k] == s[j];
    CountNone(p, r);
  }
}
