// Strings as the provenance code uses them: code-point order, sorting, joining with a separator.
module Strings {

  predicate Leq(a: string, b: string) {
    a == "" || (b != "" && (a[0] < b[0] || (a[0] == b[0] && Leq(a[1..], b[1..]))))
  }

  lemma {:induction false} LeqTotal(a: string, b: string)
    ensures Leq(a, b) || Leq(b, a)
  {
    if a != "" && b != "" { LeqTotal(a[1..], b[1..]); }
  }

  lemma {:induction false} LeqAntisymmetric(a: string, b: string)
    requires Leq(a, b) && Leq(b, a)
    ensures a == b
  {
    if a != "" && b != "" {
      LeqAntisymmetric(a[1..], b[1..]);
      assert a == [a[0]] + a[1..] && b == [b[0]] + b[1..];
    }
  }

  lemma {:induction false} LeqTransitive(a: string, b: string, c: string)
    requires Leq(a, b) && Leq(b, c)
    ensures Leq(a, c)
  {
    if a != "" && a[0] == b[0] == c[0] { LeqTransitive(a[1..], b[1..], c[1..]); }
  }

  ghost predicate Sorted(s: seq<string>) {
    forall i, j :: 0 <= i < j < |s| ==> Leq(s[i], s[j])
  }

  function Insert(x: string, s: seq<string>): seq<string> {
    if s == [] || Leq(x, s[0]) then [x] + s else [s[0]] + Insert(x, s[1..])
  }

  function Sort(s: seq<string>): seq<string> {
    if s == [] then [] else Insert(s[0], Sort(s[1..]))
  }

  lemma {:induction false} InsertSorted(x: string, s: seq<string>)
    requires Sorted(s)
    ensures Sorted(Insert(x, s)) && multiset(Insert(x, s)) == multiset{x} + multiset(s)
  {
    if s == [] {
    } else if Leq(x, s[0]) {
      forall j | 0 <= j < |s| ensures Leq(x, s[j]) {
        if j > 0 { LeqTransitive(x, s[0], s[j]); }
      }
    } else {
      var tail := Insert(x, s[1..]);
      InsertSorted(x, s[1..]);
      LeqTotal(x, s[0]);
      assert s == [s[0]] + s[1..];
      forall j | 0 <= j < |tail| ensures Leq(s[0], tail[j]) {
        assert tail[j] in multiset(tail);
        assert tail[j] == x || tail[j] in s[1..];
      }
    }
  }

  lemma {:induction false} SortSorts(s: seq<string>)
    ensures Sorted(Sort(s)) && multiset(Sort(s)) == multiset(s)
  {
    if s != [] {
      SortSorts(s[1..]);
      InsertSorted(s[0], Sort(s[1..]));
      assert s == [s[0]] + s[1..];
    }
  }

  lemma TailOf(s: seq<string>)
    requires s != [] && Sorted(s)
    ensures Sorted(s[1..]) && multiset(s) == multiset{s[0]} + multiset(s[1..]) && s == [s[0]] + s[1..]
  {
    assert s == [s[0]] + s[1..];
  }

  lemma {:induction false} SortedUnique(s: seq<string>, t: seq<string>)
    requires Sorted(s) && Sorted(t) && multiset(s) == multiset(t)
    ensures s == t
  {
    hide Leq, Sorted;
    assert |s| == |multiset(s)| && |t| == |multiset(t)|;
    if s != [] {
      TailOf(s);
      TailOf(t);
      assert s[0] in multiset(t) && t[0] in multiset(s);
      LeastIsHead(s, t[0]);
      LeastIsHead(t, s[0]);
      LeqAntisymmetric(s[0], t[0]);
      assert multiset(s[1..]) == multiset(s) - multiset{s[0]};
      assert multiset(t[1..]) == multiset(t) - multiset{s[0]};
      SortedUnique(s[1..], t[1..]);
    }
  }

  lemma LeastIsHead(s: seq<string>, x: string)
    requires Sorted(s) && x in s
    ensures Leq(s[0], x)
  {
    LeqTotal(s[0], s[0]);
  }

  // Sorting forgets the order and nothing else.
  lemma SortCanonical(s: seq<string>, t: seq<string>)
    ensures Sort(s) == Sort(t) <==> multiset(s) == multiset(t)
  {
    SortSorts(s);
    SortSorts(t);
    if multiset(s) == multiset(t) { SortedUnique(Sort(s), Sort(t)); }
  }

  // ---------- separators ----------

  function Join(s: seq<string>, sep: char): string {
    if s == [] then "" else if |s| == 1 then s[0] else s[0] + [sep] + Join(s[1..], sep)
  }

  lemma HeadNotShorter(x: string, t: string, y: string, u: string, sep: char)
    requires x + t == y + u && sep !in y && (t == "" || t[0] == sep)
    ensures |y| <= |x|
  {
    assert y == (y + u)[..|y|];
    assert forall k :: 0 <= k < |y| ==> (x + t)[k] == y[k];
    assert t != "" ==> (x + t)[|x|] == t[0];
  }

  // A separator-free head is recovered from a string that continues with the separator or ends.
  lemma HeadUnique(x: string, t: string, y: string, u: string, sep: char)
    requires x + t == y + u && sep !in x && sep !in y
    requires (t == "" || t[0] == sep) && (u == "" || u[0] == sep)
    ensures x == y && t == u
  {
    HeadNotShorter(x, t, y, u, sep);
    HeadNotShorter(y, u, x, t, sep);
    assert x == (x + t)[..|x|] && y == (y + u)[..|y|];
    assert t == (x + t)[|x|..] && u == (y + u)[|y|..];
  }

  ghost predicate Words(s: seq<string>, sep: char) {
    forall w :: w in s ==> w != "" && sep !in w
  }

  lemma WordsTail(s: seq<string>, sep: char)
    requires s != [] && Words(s, sep)
    ensures s[0] != "" && sep !in s[0] && Words(s[1..], sep)
    ensures Join(s, sep) == s[0] + AfterFirst(s, sep)
    ensures s == [s[0]] + s[1..]
  {
    assert s[0] in s;
    forall w | w in s[1..] ensures w in s {}
  }

  // What follows the first word of a join
  function AfterFirst(s: seq<string>, sep: char): string
    requires s != []
  {
    if |s| == 1 then "" else [sep] + Join(s[1..], sep)
  }

  lemma {:induction false} JoinInjective(s: seq<string>, t: seq<string>, sep: char)
    requires Words(s, sep) && Words(t, sep) && Join(s, sep) == Join(t, sep)
    ensures s == t
  {
    hide Words, Join;
    JoinEmpty(s, sep);
    JoinEmpty(t, sep);
    if s != [] {
      WordsTail(s, sep);
      WordsTail(t, sep);
      var p, q := AfterFirst(s, sep), AfterFirst(t, sep);
      HeadUnique(s[0], p, t[0], q, sep);
      if |s| > 1 {
        assert Join(s[1..], sep) == p[1..] && Join(t[1..], sep) == q[1..];
        JoinInjective(s[1..], t[1..], sep);
      }
    }
  }

  lemma JoinEmpty(s: seq<string>, sep: char)
    requires Words(s, sep)
    ensures Join(s, sep) == "" <==> s == []
  {
    if s != [] { assert s[0] in s; }
  }
}
