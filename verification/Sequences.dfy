// Sequences up to order: removing an element, repetitions, and matching two sequences element by element.
module Sequences {

  function Without<X>(s: seq<X>, j: nat): (r: seq<X>)
    requires j < |s|
    ensures |r| == |s| - 1 && forall k :: 0 <= k < |r| ==> r[k] == s[if k < j then k else k + 1]
    ensures multiset(s) == multiset{s[j]} + multiset(r)
  {
    assert s == s[..j] + [s[j]] + s[j + 1..];
    s[..j] + s[j + 1..]
  }

  lemma WithoutSplit<X>(s: seq<X>, j: nat)
    requires j < |s|
    ensures Without(s, j) == s[..j] + s[j + 1..] && s == (s[..j] + [s[j]]) + s[j + 1..]
  {}

  ghost predicate Forces<X, Y>(xs: seq<X>, xt: seq<X>, ys: seq<Y>, yt: seq<Y>) {
    |xs| == |ys| && |xt| == |yt| &&
    forall i, j :: 0 <= i < |xs| && 0 <= j < |xt| && xs[i] == xt[j] ==> ys[i] == yt[j]
  }

  lemma ForcesWithout<X, Y>(xs: seq<X>, xt: seq<X>, ys: seq<Y>, yt: seq<Y>, j: nat)
    requires Forces(xs, xt, ys, yt) && xs != [] && j < |xt|
    ensures Forces(Without(xs, 0), Without(xt, j), Without(ys, 0), Without(yt, j))
  {}

  // If equal x-values force equal y-values, equal multisets of x-values force equal multisets of y-values.
  lemma {:induction false} MatchTransfer<X, Y>(xs: seq<X>, xt: seq<X>, ys: seq<Y>, yt: seq<Y>)
    requires Forces(xs, xt, ys, yt) && multiset(xs) == multiset(xt)
    ensures multiset(ys) == multiset(yt)
    decreases |xs|
  {
    hide Without;
    assert |xs| == |multiset(xs)| && |xt| == |multiset(xt)|;
    if xs != [] {
      assert xs[0] in multiset(xt);
      var j :| 0 <= j < |xt| && xt[j] == xs[0];
      ForcesWithout(xs, xt, ys, yt, j);
      assert multiset(Without(xs, 0)) == multiset(xs) - multiset{xs[0]};
      assert multiset(Without(xt, j)) == multiset(xt) - multiset{xs[0]};
      MatchTransfer(Without(xs, 0), Without(xt, j), Without(ys, 0), Without(yt, j));
    }
  }

  ghost predicate NoRepeats<X>(s: seq<X>) {
    forall i, j :: 0 <= i < j < |s| ==> s[i] != s[j]
  }

  lemma {:induction false} CountNoRepeats<X>(s: seq<X>, x: X)
    requires NoRepeats(s)
    ensures multiset(s)[x] == if x in s then 1 else 0
  {
    if s != [] {
      assert s == [s[0]] + s[1..];
      CountNoRepeats(s[1..], x);
    }
  }

  lemma SameElements<X(!new)>(s: seq<X>, t: seq<X>)
    requires NoRepeats(s) && NoRepeats(t) && forall x :: x in s <==> x in t
    ensures multiset(s) == multiset(t)
  {
    forall x ensures multiset(s)[x] == multiset(t)[x] {
      CountNoRepeats(s, x);
      CountNoRepeats(t, x);
    }
  }
}
